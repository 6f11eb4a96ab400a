/** The string operations of the .NET library that the editor shell relies on:
    upper- and lower-casing (ASCII only), Trim, Split on one character, and the
    file-name and extension parts of a path. Each is stated here as a function
    with the properties the editor depends on. */
module Text {

  /** ASCII upper-casing of one character; every other character is kept. */
  function UpperChar(c: char): char
  {
    if 'a' <= c <= 'z' then (c as int - 32) as char else c
  }

  /** ASCII lower-casing of one character; every other character is kept. */
  function LowerChar(c: char): char
  {
    if 'A' <= c <= 'Z' then (c as int + 32) as char else c
  }

  /** String.ToUpper, restricted to ASCII letters. */
  function ToUpper(s: string): (r: string)
    ensures |r| == |s| && EqualIgnoringCase(s, r)
    ensures forall i :: 0 <= i < |r| ==> !('a' <= r[i] <= 'z')
  {
    seq(|s|, i requires 0 <= i < |s| => UpperChar(s[i]))
  }

  /** String.ToLower, restricted to ASCII letters. */
  function ToLower(s: string): (r: string)
    ensures |r| == |s| && EqualIgnoringCase(s, r)
    ensures forall i :: 0 <= i < |r| ==> !('A' <= r[i] <= 'Z')
  {
    seq(|s|, i requires 0 <= i < |s| => LowerChar(s[i]))
  }

  /** Two strings that differ at most in the case of their letters. */
  predicate EqualIgnoringCase(s: string, t: string)
  {
    |s| == |t| && forall i :: 0 <= i < |s| ==> UpperChar(s[i]) == UpperChar(t[i])
  }

  /** Upper-casing twice is upper-casing once. */
  lemma ToUpperIdempotent(s: string)
    ensures ToUpper(ToUpper(s)) == ToUpper(s)
  {
  }

  /** Two strings have the same upper-case form exactly when they differ only
      in letter case. */
  lemma EqualIgnoringCaseIffSameUpper(s: string, t: string)
    ensures EqualIgnoringCase(s, t) <==> ToUpper(s) == ToUpper(t)
  {
    if ToUpper(s) == ToUpper(t) {
      assert |s| == |t|;
      forall i | 0 <= i < |s| ensures UpperChar(s[i]) == UpperChar(t[i]) {
        assert ToUpper(s)[i] == ToUpper(t)[i];
      }
    }
  }

  /** Char.IsWhiteSpace: the Unicode separators (categories Zs, Zl, Zp) and the
      control characters U+0009 to U+000D and U+0085. */
  predicate IsWhiteSpace(c: char)
  {
    || c == ' ' || '\t' <= c <= '\r'
    || c == '\U{85}' || c == '\U{A0}' || c == '\U{1680}'
    || '\U{2000}' <= c <= '\U{200A}'
    || c == '\U{2028}' || c == '\U{2029}' || c == '\U{202F}' || c == '\U{205F}' || c == '\U{3000}'
  }

  /** A string made of white space only (the empty string among them). */
  predicate IsBlank(s: string)
  {
    forall i :: 0 <= i < |s| ==> IsWhiteSpace(s[i])
  }

  /** The first index at or after i whose character is not white space, or
      |s| when there is none. */
  function SkipBlanks(s: string, i: nat): (k: nat)
    requires i <= |s|
    ensures i <= k <= |s|
    ensures forall j :: i <= j < k ==> IsWhiteSpace(s[j])
    ensures k < |s| ==> !IsWhiteSpace(s[k])
    decreases |s| - i
  {
    if i < |s| && IsWhiteSpace(s[i]) then SkipBlanks(s, i + 1) else i
  }

  /** The end of s[lo..i] once the white space it ends with is dropped. */
  function SkipBlanksBack(s: string, lo: nat, i: nat): (k: nat)
    requires lo <= i <= |s|
    ensures lo <= k <= i
    ensures forall j :: k <= j < i ==> IsWhiteSpace(s[j])
    ensures lo < k ==> !IsWhiteSpace(s[k - 1])
    decreases i
  {
    if lo < i && IsWhiteSpace(s[i - 1]) then SkipBlanksBack(s, lo, i - 1) else i
  }

  /** String.Trim(): drops the white space at both ends. The result is what
      lies between a blank prefix and a blank suffix of s, it neither starts
      nor ends with white space, and it is empty exactly when s is blank. */
  function Trim(s: string): (r: string)
    ensures SkipBlanks(s, 0) + |r| <= |s| && r == s[SkipBlanks(s, 0)..SkipBlanks(s, 0) + |r|]
    ensures forall j :: SkipBlanks(s, 0) + |r| <= j < |s| ==> IsWhiteSpace(s[j])
    ensures r != [] ==> !IsWhiteSpace(r[0]) && !IsWhiteSpace(r[|r| - 1])
    ensures r == [] <==> IsBlank(s)
  {
    var a := SkipBlanks(s, 0);
    var b := SkipBlanksBack(s, a, |s|);
    assert a < |s| ==> a < b;
    s[a..b]
  }

  /** String.Split(sep): the pieces of s between occurrences of sep, in order.
      There is always at least one piece, and no piece contains sep. */
  function Split(s: string, sep: char): (r: seq<string>)
    ensures |r| >= 1
    ensures forall i :: 0 <= i < |r| ==> sep !in r[i]
  {
    if s == [] then [""]
    else
      var rest := Split(s[1..], sep);
      if s[0] == sep then [""] + rest
      else [[s[0]] + rest[0]] + rest[1..]
  }

  /** String.Join(sep, parts): the inverse of Split. */
  function Join(parts: seq<string>, sep: char): string
  {
    if |parts| == 0 then ""
    else if |parts| == 1 then parts[0]
    else parts[0] + [sep] + Join(parts[1..], sep)
  }

  /** Joining the pieces of a split gives back the original string. */
  lemma {:induction false} JoinSplit(s: string, sep: char)
    ensures Join(Split(s, sep), sep) == s
  {
    if s != [] {
      var rest := Split(s[1..], sep);
      JoinSplit(s[1..], sep);
      if s[0] == sep {
        assert Split(s, sep) == [""] + rest;
        assert (Split(s, sep))[1..] == rest;
      } else {
        var first := [s[0]] + rest[0];
        assert Split(s, sep) == [first] + rest[1..];
        if |rest| == 1 {
          assert Join(rest, sep) == rest[0];
        } else {
          assert Join(rest, sep) == rest[0] + [sep] + Join(rest[1..], sep);
          assert ([first] + rest[1..])[1..] == rest[1..];
        }
      }
    }
  }

  /** A prefix free of sep is glued onto the first piece of what follows it. */
  lemma {:induction false} SplitGluesPrefix(p: string, tail: string, sep: char)
    requires sep !in p
    ensures Split(p + tail, sep) == [p + Split(tail, sep)[0]] + Split(tail, sep)[1..]
  {
    if p == [] {
      assert p + tail == tail;
      var r := Split(tail, sep);
      assert r == [r[0]] + r[1..];
      assert p + r[0] == r[0];
    } else {
      assert (p + tail)[1..] == p[1..] + tail;
      SplitGluesPrefix(p[1..], tail, sep);
      assert [p[0]] + (p[1..] + Split(tail, sep)[0]) == p + Split(tail, sep)[0];
    }
  }

  /** Splitting a join of sep-free pieces gives back the pieces. */
  lemma {:induction false} SplitJoin(parts: seq<string>, sep: char)
    requires |parts| >= 1
    requires forall i :: 0 <= i < |parts| ==> sep !in parts[i]
    ensures Split(Join(parts, sep), sep) == parts
  {
    if |parts| == 1 {
      SplitGluesPrefix(parts[0], [], sep);
      assert parts[0] + [] == parts[0];
    } else {
      var tail := [sep] + Join(parts[1..], sep);
      assert Join(parts, sep) == parts[0] + tail;
      SplitGluesPrefix(parts[0], tail, sep);
      SplitJoin(parts[1..], sep);
      assert tail[1..] == Join(parts[1..], sep);
      assert Split(tail, sep) == [""] + parts[1..];
      assert parts[0] + "" == parts[0];
    }
  }

  /** The characters Path.GetFileName and Path.GetExtension stop at: the
      directory separators '\\' and '/' and the volume separator ':'. */
  predicate IsPathSeparator(c: char)
  {
    c == '\\' || c == '/' || c == ':'
  }

  /** Where the file name in path[..i] starts: just after the last separator
      before i, or 0 when there is none. */
  function NameStart(path: string, i: nat): (k: nat)
    requires i <= |path|
    ensures k <= i
    ensures forall j :: k <= j < i ==> !IsPathSeparator(path[j])
    ensures 0 < k ==> IsPathSeparator(path[k - 1])
    decreases i
  {
    if i == 0 || IsPathSeparator(path[i - 1]) then i else NameStart(path, i - 1)
  }

  /** Path.GetFileName: the part of the path after its last separator. */
  function FileName(path: string): (r: string)
    ensures |r| <= |path| && r == path[|path| - |r|..]
  {
    path[NameStart(path, |path|)..]
  }

  /** The file name holds no separator, and it is the whole path or is
      preceded by a separator: it starts just after the last one. */
  lemma FileNameAfterLastSeparator(path: string)
    ensures forall i :: 0 <= i < |FileName(path)| ==> !IsPathSeparator(FileName(path)[i])
    ensures |FileName(path)| < |path| ==> IsPathSeparator(path[|path| - |FileName(path)| - 1])
  {
  }

  /** A path without separators is its own file name. */
  lemma NoSeparatorNameIsWholePath(path: string)
    requires forall i :: 0 <= i < |path| ==> !IsPathSeparator(path[i])
    ensures FileName(path) == path
  {
    FileNameAfterLastSeparator(path);
  }

  /** The scan of Path.GetExtension over path[..i], from the end towards the
      start, path[i..] having been passed over already: where the extension
      starts, that is the index of its dot, or |path| when there is none. */
  function ExtensionStart(path: string, i: nat): (k: nat)
    requires i <= |path|
    requires forall j :: i <= j < |path| ==> path[j] != '.' && !IsPathSeparator(path[j])
    ensures k == |path| || (k + 1 < |path| && path[k] == '.')
    ensures forall j :: k < j < |path| ==> path[j] != '.' && !IsPathSeparator(path[j])
    decreases i
  {
    if i == 0 then |path|
    else if path[i - 1] == '.' then (if i - 1 != |path| - 1 then i - 1 else |path|)
    else if IsPathSeparator(path[i - 1]) then |path|
    else ExtensionStart(path, i - 1)
  }

  /** Path.GetExtension: from the last '.' of the file name to the end, dot
      included; empty when the file name has no '.' or ends with one. */
  function Extension(path: string): (r: string)
    ensures r == [] || (2 <= |r| <= |path| && r == path[|path| - |r|..] && r[0] == '.')
    ensures r != [] ==> path[|path| - |r|] == '.'
    ensures forall j :: 1 <= j < |r| ==> r[j] != '.' && !IsPathSeparator(r[j])
  {
    path[ExtensionStart(path, |path|)..]
  }

  /** The scan stops at the last dot of the file name. */
  lemma {:induction false} ScanStopsAtDot(path: string, d: nat, i: nat)
    requires d < i <= |path| && path[d] == '.'
    requires forall j :: d < j < |path| ==> path[j] != '.' && !IsPathSeparator(path[j])
    ensures ExtensionStart(path, i) == if d != |path| - 1 then d else |path|
    decreases i
  {
    if i - 1 != d {
      ScanStopsAtDot(path, d, i - 1);
    }
  }

  /** The extension of stem.e is .e when e is a non-empty run of characters
      that are neither dots nor separators. */
  lemma ExtensionOfDotted(stem: string, e: string)
    requires e != []
    requires forall j :: 0 <= j < |e| ==> e[j] != '.' && !IsPathSeparator(e[j])
    ensures Extension(stem + "." + e) == "." + e
  {
    var path := stem + "." + e;
    assert path[|stem|] == '.';
    assert forall j :: |stem| < j < |path| ==> path[j] == e[j - |stem| - 1];
    ScanStopsAtDot(path, |stem|, |path|);
    assert path[|stem|..] == "." + e;
  }
}
