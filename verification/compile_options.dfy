/** The compile options offered for the editor in focus: the configured value
    for the source's type is split on '|', and every piece that is not blank
    becomes a menu entry, unchanged and in order. */
module CompileOptions {
  import opened Text

  /** The configuration key holding the compile commands for a source type. */
  function ConfigKey(extension: string): (key: string)
    ensures |key| == 5 + |extension| && key[..5] == "TYPE_" && key[5..] == extension
  {
    "TYPE_" + extension
  }

  /** Different extensions read different settings: the key determines the
      extension it was built from. */
  lemma ConfigKeyInjective(a: string, b: string)
    ensures ConfigKey(a) == ConfigKey(b) <==> a == b
  {
    if ConfigKey(a) == ConfigKey(b) {
      assert a == ConfigKey(a)[5..] == ConfigKey(b)[5..] == b;
    }
  }

  /** The items that survive the blank filter, in their original order and
      untrimmed. */
  function NonBlankItems(items: seq<string>): (r: seq<string>)
    ensures |r| <= |items|
    ensures forall i :: 0 <= i < |r| ==> r[i] in items && !IsBlank(r[i])
  {
    if items == [] then []
    else (if IsBlank(items[0]) then [] else [items[0]]) + NonBlankItems(items[1..])
  }

  /** The filter keeps exactly the non-blank items: an item is offered if and
      only if it is one of the pieces and has a character that is not white
      space. */
  lemma {:induction false} NonBlankItemsMembers(items: seq<string>, x: string)
    ensures x in NonBlankItems(items) <==> x in items && !IsBlank(x)
  {
    if items != [] {
      NonBlankItemsMembers(items[1..], x);
      assert items == [items[0]] + items[1..];
    }
  }

  /** The filter works piece by piece: filtering a concatenation is
      concatenating the filtered parts. With NonBlankItemsOne this fixes the
      order of the result: the kept items appear as they did in the input. */
  lemma {:induction false} NonBlankItemsAppend(a: seq<string>, b: seq<string>)
    ensures NonBlankItems(a + b) == NonBlankItems(a) + NonBlankItems(b)
  {
    if a != [] {
      assert (a + b)[0] == a[0];
      assert (a + b)[1..] == a[1..] + b;
      NonBlankItemsAppend(a[1..], b);
    } else {
      assert a + b == b;
    }
  }

  /** A single item is kept, as it is, exactly when it is not blank. */
  lemma NonBlankItemsOne(x: string)
    ensures NonBlankItems([x]) == if IsBlank(x) then [] else [x]
  {
    assert [x][1..] == [];
  }

  /** Nothing is offered exactly when every item is blank. */
  lemma {:induction false} NonBlankItemsEmpty(items: seq<string>)
    ensures NonBlankItems(items) == [] <==> forall i :: 0 <= i < |items| ==> IsBlank(items[i])
  {
    if items != [] {
      var rest := items[1..];
      NonBlankItemsEmpty(rest);
      assert NonBlankItems(items) == (if IsBlank(items[0]) then [] else [items[0]]) + NonBlankItems(rest);
      if forall i :: 0 <= i < |rest| ==> IsBlank(rest[i]) {
        forall i | 0 <= i < |items| && IsBlank(items[0]) ensures IsBlank(items[i]) {
          if i > 0 {
            assert items[i] == rest[i - 1];
          }
        }
      } else {
        var j :| 0 <= j < |rest| && !IsBlank(rest[j]);
        assert items[j + 1] == rest[j];
      }
    }
  }

  /** The loop of the drop-down handler: walks the pieces and appends every
      one whose trimmed form is not empty. */
  method CollectCompileOptions(items: seq<string>) returns (compiles: seq<string>)
    ensures compiles == NonBlankItems(items)
  {
    compiles := [];
    for i := 0 to |items|
      invariant compiles == NonBlankItems(items[..i])
    {
      assert items[..i + 1] == items[..i] + [items[i]];
      NonBlankItemsAppend(items[..i], [items[i]]);
      NonBlankItemsOne(items[i]);
      if Trim(items[i]) == "" {
        continue;
      }
      compiles := compiles + [items[i]];
    }
    assert items[..|items|] == items;
  }

  /** The compile options for a configured value. */
  function CompileOptionsFor(setting: string): (r: seq<string>)
    ensures |r| <= |Split(setting, '|')|
    ensures forall i :: 0 <= i < |r| ==> '|' !in r[i] && !IsBlank(r[i])
  {
    NonBlankItems(Split(setting, '|'))
  }

  /** Every option is a non-blank '|'-separated field of the setting, holds
      no '|', and every non-blank field is offered. */
  lemma CompileOptionsAreFields(setting: string, x: string)
    ensures x in CompileOptionsFor(setting) <==> x in Split(setting, '|') && !IsBlank(x)
    ensures x in CompileOptionsFor(setting) ==> '|' !in x
  {
    NonBlankItemsMembers(Split(setting, '|'), x);
  }

  /** Joining fields that are all non-blank and free of '|' gives a setting
      that offers exactly those fields, in that order. */
  lemma CompileOptionsOfJoin(fields: seq<string>)
    requires |fields| >= 1
    requires forall i :: 0 <= i < |fields| ==> '|' !in fields[i] && !IsBlank(fields[i])
    ensures CompileOptionsFor(Join(fields, '|')) == fields
  {
    SplitJoin(fields, '|');
    AllNonBlankKept(fields);
  }

  /** A list without blank items passes the filter unchanged. */
  lemma {:induction false} AllNonBlankKept(items: seq<string>)
    requires forall i :: 0 <= i < |items| ==> !IsBlank(items[i])
    ensures NonBlankItems(items) == items
  {
    if items != [] {
      AllNonBlankKept(items[1..]);
    }
  }

  /** An empty setting, or one made of a separator and spaces only, offers
      nothing, so both compile menus are disabled. */
  lemma NothingOffered()
    ensures CompileOptionsFor("") == []
    ensures CompileOptionsFor(" | ") == []
  {
    assert Split("", '|') == [""];
    assert IsBlank("");
    var fields := [" ", " "];
    assert Join(fields, '|') == " | " by {
      assert Join(fields[1..], '|') == " ";
    }
    SplitJoin(fields, '|');
    assert IsBlank(" ");
    NonBlankItemsEmpty(fields);
  }

  /** Blank fields between separators are dropped; the others are kept as
      written, surrounding spaces included. */
  lemma KeepsFieldsUntrimmed()
    ensures CompileOptionsFor("CRTPGM|| CRTSRVPGM ") == ["CRTPGM", " CRTSRVPGM "]
  {
    var a, b := "CRTPGM", " CRTSRVPGM ";
    var fields := [a, "", b];
    assert Join(fields, '|') == "CRTPGM|| CRTSRVPGM " by {
      assert Join(fields[2..], '|') == b;
      assert Join(fields[1..], '|') == "" + "|" + b;
    }
    SplitJoin(fields, '|');
    assert !IsWhiteSpace(a[0]) && !IsWhiteSpace(b[1]);
    DropsBlankField(a, "", b);
  }

  /** Of three items, a blank one in the middle is the one dropped. */
  lemma DropsBlankField(a: string, c: string, b: string)
    requires !IsBlank(a) && IsBlank(c) && !IsBlank(b)
    ensures NonBlankItems([a, c, b]) == [a, b]
  {
    assert [a, c, b] == [a] + [c] + [b];
    NonBlankItemsAppend([a] + [c], [b]);
    NonBlankItemsAppend([a], [c]);
    NonBlankItemsOne(a);
    NonBlankItemsOne(c);
    NonBlankItemsOne(b);
  }
}
