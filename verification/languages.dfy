/** The language classifier: the fixed table from extension tokens (a member
    type or a file suffix) to the language an editor is bound to, the lookup
    through it, and how a local file's extension is turned into a token. */
module Languages {
  import opened Text

  /** The languages a source editor can be bound to; None means plain text. */
  datatype Language = None | RPG | CL | CPP | SQL | COBOL | Python

  /** The fixed table, keyed by upper-case token. */
  const LangTypes: map<string, Language> := map[
    "RPG" := RPG,
    "RPGLE" := RPG,
    "SQLRPGLE" := RPG,
    "CL" := CL,
    "CLLE" := CL,
    "CLP" := CL,
    "CMD" := CL,
    "CPP" := CPP,
    "C" := CPP,
    "SQL" := SQL,
    "CBL" := COBOL,
    "COBOL" := COBOL,
    "CBLLE" := COBOL,
    "PYTHON" := Python,
    "PY" := Python
  ]

  /** The language bound to an extension token: the token is upper-cased and
      looked up in the table. There is no error case: a token the table does
      not know, and only such a token, gives None. */
  function GetBoundLangType(obj: string): (r: Language)
    ensures r == None <==> ToUpper(obj) !in LangTypes
  {
    var key := ToUpper(obj);
    if key in LangTypes then LangTypes[key] else None
  }

  /** The tokens each language is listed under, written out independently of
      the table. */
  function TokensOf(l: Language): set<string>
  {
    match l
    case None => {}
    case RPG => {"RPG", "RPGLE", "SQLRPGLE"}
    case CL => {"CL", "CLLE", "CLP", "CMD"}
    case CPP => {"CPP", "C"}
    case SQL => {"SQL"}
    case COBOL => {"CBL", "COBOL", "CBLLE"}
    case Python => {"PYTHON", "PY"}
  }

  /** Every token is bound to the language it is listed under, and to no other;
      a token listed nowhere is bound to None. */
  lemma Classification(obj: string, l: Language)
    ensures l != None ==> (GetBoundLangType(obj) == l <==> ToUpper(obj) in TokensOf(l))
    ensures GetBoundLangType(obj) == None <==>
      ToUpper(obj) !in TokensOf(RPG) + TokensOf(CL) + TokensOf(CPP) + TokensOf(SQL)
                       + TokensOf(COBOL) + TokensOf(Python)
  {
  }

  /** The table's keys are already upper case, so each key classifies as the
      table says. */
  lemma {:induction false} KeysClassifyAsListed(k: string)
    requires k in LangTypes
    ensures ToUpper(k) == k
    ensures GetBoundLangType(k) == LangTypes[k]
  {
    assert forall i :: 0 <= i < |k| ==> !('a' <= k[i] <= 'z');
    assert ToUpper(k) == k;
  }

  /** Classification ignores letter case: a token and its upper-case form are
      bound to the same language. */
  lemma CaseInsensitive(obj: string)
    ensures GetBoundLangType(obj) == GetBoundLangType(ToUpper(obj))
  {
    ToUpperIdempotent(obj);
  }

  /** Two tokens that differ only in letter case are bound to the same
      language. */
  lemma SameLanguageIgnoringCase(s: string, t: string)
    requires EqualIgnoringCase(s, t)
    ensures GetBoundLangType(s) == GetBoundLangType(t)
  {
    EqualIgnoringCaseIffSameUpper(s, t);
  }

  /** Removes one leading '.' from an extension, if there is one. The result
      is ext less at most its first character, and it is shorter exactly when
      ext started with '.'. */
  function StripLeadingDot(ext: string): (r: string)
    ensures |ext| - 1 <= |r| <= |ext| && r == ext[|ext| - |r|..]
    ensures |r| < |ext| <==> (|ext| > 0 && ext[0] == '.')
  {
    if |ext| > 0 && ext[0] == '.' then ext[1..] else ext
  }

  /** Only one dot is removed: ".." + e becomes "." + e. */
  lemma StripRemovesOneDot(e: string)
    ensures StripLeadingDot("." + e) == e
    ensures StripLeadingDot(".." + e) == "." + e
  {
    assert ("." + e)[1..] == e;
    assert (".." + e)[1..] == "." + e;
  }

  /** The language a local file is opened with: its extension without the
      dot, classified. */
  function LocalFileLanguage(fileName: string): (r: Language)
    ensures Extension(fileName) == [] ==> r == None
    ensures r != None ==> ToUpper(StripLeadingDot(Extension(fileName))) in LangTypes
  {
    GetBoundLangType(StripLeadingDot(Extension(fileName)))
  }

  /** A local file named stem.e is classified by e alone, whatever the stem. */
  lemma LocalFileClassifiedBySuffix(stem: string, e: string)
    requires e != []
    requires forall j :: 0 <= j < |e| ==> e[j] != '.' && !IsPathSeparator(e[j])
    ensures LocalFileLanguage(stem + "." + e) == GetBoundLangType(e)
  {
    ExtensionOfDotted(stem, e);
    StripRemovesOneDot(e);
  }

  /** A local file whose name has no dot is opened as plain text. */
  lemma LocalFileWithoutExtension(fileName: string)
    requires '.' !in fileName
    ensures LocalFileLanguage(fileName) == None
  {
    assert Extension(fileName) == [];
    assert ToUpper(StripLeadingDot([])) == [];
  }

  /** Member types written in mixed case find their language. */
  lemma MixedCaseExamples()
    ensures GetBoundLangType("sqlrpgle") == RPG
    ensures GetBoundLangType("Clle") == CL
  {
    assert ToUpper("sqlrpgle") == "SQLRPGLE";
    assert ToUpper("Clle") == "CLLE";
  }

  /** Tokens outside the table, the empty one included, give None. */
  lemma UnknownExamples()
    ensures GetBoundLangType("txt") == None
    ensures GetBoundLangType("") == None
  {
    assert ToUpper("txt") == "TXT";
    assert ToUpper("") == "";
  }
}
