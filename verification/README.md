# ILEditor session core in Dafny

ILEditor is a desktop editor for source that lives on an IBM i system: members
of source files in QSYS libraries and stream files of the IFS. Most of its main
window (`ILEditor/Editor.cs`) is WinForms and docking glue. This project models
the logic that sits inside it:

- **Language classifier** (`languages.dfy`, module `Languages`): the fixed
  table `LangTypes` from extension tokens to languages, the case-insensitive
  lookup `GetBoundLangType` with `None` for unknown tokens, and how a local
  file's extension loses its leading dot before it is classified.
- **Compile options** (`compile_options.dfy`, module `CompileOptions`): the
  setting `TYPE_<extension>` is split on `'|'`; every piece that is not blank
  after trimming becomes a menu entry, untrimmed and in order. The loop of the
  drop-down handler is the method `CollectCompileOptions`, proved equal to the
  function `NonBlankItems`.
- **Open and close flow** (`editor.dfy`, module `Sessions`): classes
  `RemoteSource` (its local path and lock state are the fields that change),
  `SourceEditor` (a pane, tagged with its remote source or null) and `Editor`
  (the docked editors and the two compile menus). `OpenSource` downloads by
  file system (member for QSYS, stream file for IFS). Only a non-empty result
  records the local path, builds the editor on that path, locks the source
  and docks the editor. `OpenExistingSource` and `OpenLocalSource` are the
  other two ways in. `ContentRemoved` releases the lock of the active pane's
  source, and `CompileDropDownOpening` rebuilds the compile menus.
- **String library** (`text.dfy`, module `Text`): the .NET operations the
  above depend on, written as functions with their properties proved. These
  are ASCII `ToUpper`/`ToLower`, `Trim` with `Char.IsWhiteSpace`, `Split` on
  one character (with `Join` as its inverse, proved both ways), and
  `Path.GetFileName`/`Path.GetExtension`.

The collaborators are parameters:

- the download calls are a function `Transfer -> string`, with the empty
  string meaning failure;
- `File.Exists` is a function `string -> bool`;
- the connection's `GetValue` is a function `string -> string`;
- `LastEditing`, maintained by the editor panes, is an argument of the
  drop-down handler.

The shell keeps no registry of open sources. Its only de-duplication is
`AddTool`'s caption-based replace, which `OpenSource` asks for and which is
not modelled (see below): in the model every open docks a new editor, and
`OpenSource` touches no source other than its own. In the program, opening a
source whose caption matches an existing pane closes that pane first, and
the close goes through the content-removed handler. `OpenExistingSource`
does not ask for the replace, so opening an existing source twice gives two
editors on it.

The close handler reads the panel's *active* content, not the content the
event reports as removed. The model does the same, and
`RemoveWithOtherPaneActive` shows the consequence: when the active editor
belongs to another source, that other source is unlocked.

## Model

| member | source | states |
|---|---|---|
| `Languages.GetBoundLangType` | ILEditor/Editor.cs:40-47 | total, with no error case: the result is `None` exactly when the upper-cased token is not a key of `LangTypes` |
| `Languages.Classification` | ILEditor/Editor.cs:21-38 | a token is bound to RPG iff its upper-case form is RPG, RPGLE or SQLRPGLE; to CL iff CL, CLLE, CLP or CMD; to CPP iff CPP or C; to SQL iff SQL; to COBOL iff CBL, COBOL or CBLLE; to Python iff PYTHON or PY; to None iff none of these |
| `Languages.KeysClassifyAsListed` | ILEditor/Editor.cs:21-44 | every key of the table is already upper case, so looking up a key gives exactly the language the table lists for it |
| `Languages.CaseInsensitive` | ILEditor/Editor.cs:42-44 | a token and its upper-case form are bound to the same language |
| `Languages.SameLanguageIgnoringCase` | ILEditor/Editor.cs:42-44 | two tokens that differ only in letter case are bound to the same language |
| `Languages.MixedCaseExamples` | ILEditor/Editor.cs:40-47 | "sqlrpgle" is RPG and "Clle" is CL |
| `Languages.UnknownExamples` | ILEditor/Editor.cs:40-47 | "txt" and the empty token give None |
| `Languages.StripLeadingDot` | ILEditor/Editor.cs:289 | the result is the extension less at most its first character, and it is shorter exactly when the extension starts with '.' |
| `Languages.StripRemovesOneDot` | ILEditor/Editor.cs:289 | ".e" becomes "e" and "..e" becomes ".e": at most one dot is removed |
| `Languages.LocalFileLanguage` | ILEditor/Editor.cs:288-291 | the extension, less one leading dot, classified: a file without an extension is None, and a language other than None comes from a token of the table (see `LocalFileClassifiedBySuffix`) |
| `Languages.LocalFileClassifiedBySuffix` | ILEditor/Editor.cs:288-291 | a local file named stem.e (e non-empty, without dots or separators) is opened with the language of e, whatever the stem |
| `Languages.LocalFileWithoutExtension` | ILEditor/Editor.cs:288-291 | a local file whose name has no dot is opened as None |
| `Text.ToUpperIdempotent` | ILEditor/Editor.cs:42 | upper-casing an upper-cased token changes nothing |
| `Text.EqualIgnoringCaseIffSameUpper` | ILEditor/Editor.cs:42 | two strings have the same upper-case form iff they differ only in letter case (both directions) |
| `Text.ToUpper` | ILEditor/Editor.cs:42 | ASCII-only upper-casing: same length, equal to the input ignoring case, and no lower-case ASCII letter is left (see `ToUpperIdempotent` and `EqualIgnoringCaseIffSameUpper`) |
| `Text.ToLower` | ILEditor/Editor.cs:119 | ASCII-only lower-casing (also used at line 157): same length, equal to the input ignoring case, and no upper-case ASCII letter is left |
| `Text.Trim` | ILEditor/Editor.cs:351 | the result is what lies between a blank prefix and a blank suffix; it neither starts nor ends with white space; it is empty iff the input is all white space |
| `Text.Split` | ILEditor/Editor.cs:348 | at least one piece, and no piece contains the separator |
| `Text.JoinSplit` | ILEditor/Editor.cs:348 | joining the pieces of a split with the separator gives back the original string |
| `Text.SplitJoin` | ILEditor/Editor.cs:348 | splitting a join of at least one separator-free piece gives back exactly those pieces |
| `Text.FileName` | ILEditor/Editor.cs:177 | the result is a suffix of the path |
| `Text.FileNameAfterLastSeparator` | ILEditor/Editor.cs:177 | the file name holds no separator, and it is either the whole path or preceded by a separator, so it starts just after the last one |
| `Text.NoSeparatorNameIsWholePath` | ILEditor/Editor.cs:177 | a path without separators is its own file name |
| `Text.Extension` | ILEditor/Editor.cs:288 | empty, or a suffix of the path of at least two characters that starts with '.' and has no further dot or separator |
| `Text.ExtensionOfDotted` | ILEditor/Editor.cs:288 | the extension of stem.e is ".e" when e is non-empty and has no dot or separator |
| `CompileOptions.ConfigKey` | ILEditor/Editor.cs:348 | the key is "TYPE_" followed by the extension as given, not re-cased: its first five characters are "TYPE_" and the rest is the extension |
| `CompileOptions.ConfigKeyInjective` | ILEditor/Editor.cs:348 | two extensions share a key iff they are equal, so each source type reads its own setting |
| `CompileOptions.NonBlankItems` | ILEditor/Editor.cs:349-353 | no more items than the input; every kept item is one of the input items, unchanged, and not blank |
| `CompileOptions.NonBlankItemsMembers` | ILEditor/Editor.cs:349-353 | an item is offered iff it is one of the pieces and is not blank (both directions) |
| `CompileOptions.NonBlankItemsAppend` | ILEditor/Editor.cs:349-353 | filtering a concatenation is concatenating the filtered parts, so kept items stay in their input order |
| `CompileOptions.NonBlankItemsOne` | ILEditor/Editor.cs:351-352 | a single item is kept, untrimmed, exactly when it is not blank |
| `CompileOptions.NonBlankItemsEmpty` | ILEditor/Editor.cs:356-357 | the option list is empty iff every piece is blank |
| `CompileOptions.CollectCompileOptions` | ILEditor/Editor.cs:349-353 | the loop's list equals `NonBlankItems` of the pieces: the non-blank pieces, untrimmed, in order |
| `CompileOptions.CompileOptionsFor` | ILEditor/Editor.cs:348-353 | `NonBlankItems` of the bar-split setting: no more options than fields, and every option is bar-free and not blank (see `CompileOptionsAreFields`, `CompileOptionsOfJoin`) |
| `CompileOptions.CompileOptionsAreFields` | ILEditor/Editor.cs:348-353 | every option is a non-blank bar-separated field of the setting and contains no bar; every non-blank field is offered |
| `CompileOptions.CompileOptionsOfJoin` | ILEditor/Editor.cs:348-353 | a setting written as non-blank fields without bars, joined by bars, offers exactly those fields in that order |
| `CompileOptions.AllNonBlankKept` | ILEditor/Editor.cs:349-353 | a list with no blank item passes the filter unchanged |
| `CompileOptions.NothingOffered` | ILEditor/Editor.cs:348-357 | the empty setting, and a setting of one bar between two spaces, offer nothing |
| `CompileOptions.KeepsFieldsUntrimmed` | ILEditor/Editor.cs:348-353 | the setting made of "CRTPGM", an empty field and " CRTSRVPGM ", joined by bars, offers ["CRTPGM", " CRTSRVPGM "]: the blank field is dropped and the surrounding spaces of the other field are kept |
| `CompileOptions.DropsBlankField` | ILEditor/Editor.cs:351-353 | of three items, a blank one between two non-blank ones is the only one dropped |
| `Sessions.RemoteSource.Lock` | ILEditor/Editor.cs:141 | the source holds its lock afterwards; its local path is unchanged |
| `Sessions.RemoteSource.Unlock` | ILEditor/Editor.cs:235 | the source no longer holds its lock; its local path is unchanged |
| `Sessions.DownloadFor` | ILEditor/Editor.cs:122-130 | a member download exactly for QSYS, with the source's library, file, member and extension; a stream-file download of the remote path for IFS |
| `Sessions.RemoteSource.Caption` | ILEditor/Editor.cs:119 | the caption (computed the same way at line 157) is a suffix of name "." lower-cased extension, namely its file name |
| `Sessions.RemoteSource.CaptionOfPlainName` | ILEditor/Editor.cs:119 | when neither the name nor the extension holds a separator, the caption is exactly name "." lower-cased extension |
| `Sessions.Editor.AddTool` | ILEditor/Editor.cs:88-111 | the pane is appended to the docked editors |
| `Sessions.Editor.OpenSource` | ILEditor/Editor.cs:113-153 | the download is the member download for QSYS and the file download for IFS. On an empty result: no editor, the source (local path and lock) and the docked editors unchanged. Otherwise: local path set to the result, a fresh editor on exactly that path with the extension's language, the source's record length, the source as tag and caption name.ext; the source is locked and the editor docked |
| `Sessions.Editor.OpenExistingSource` | ILEditor/Editor.cs:155-173 | if the local copy exists, a fresh editor on it (language from the extension, the language argument ignored) is docked and the source is locked; otherwise nothing changes |
| `Sessions.Editor.OpenLocalSource` | ILEditor/Editor.cs:175-191 | if the file exists, a fresh untagged editor on it with the given language and its file name as caption is docked; otherwise nothing changes; nothing is ever locked |
| `Sessions.Editor.OpenLocalFile` | ILEditor/Editor.cs:280-294 | if the file exists, a fresh editor on it is docked, with the language of its extension less one leading dot, no tag, the default record length and its file name as caption; otherwise nothing changes |
| `Sessions.Editor.ContentRemoved` | ILEditor/Editor.cs:224-238 | only when the event comes from the panel and the active pane is a source editor with a remote source tag is that source unlocked, and only its lock flag may change; in every other case nothing may change |
| `Sessions.Editor.CompileDropDownOpening` | ILEditor/Editor.cs:341-359 | the option list becomes the non-blank bar-separated fields of the setting TYPE_<ext> for the focused editor's source, or empty with no focused editor, and both menus are enabled iff the list is non-empty; a focused editor without a source fails after clearing the list, leaving the enabled flags as they were |
| `Sessions.OpenThenClose` | ILEditor/Editor.cs:132-143 | an open succeeds iff the chosen download is non-empty; the source is locked iff it succeeded, then points at the downloaded file; removing its pane while it is active leaves it unlocked, through the close handler at lines 224-238 |
| `Sessions.RemoveWithOtherPaneActive` | ILEditor/Editor.cs:224-238 | with two sources open and the second one's editor active, the handler unlocks the second and the first keeps its lock |

## Left out

- Text.ToUpper: upper-cases ASCII letters only; `String.ToUpper` is culture-sensitive and also maps non-ASCII letters.
- Text.ToLower: lower-cases ASCII letters only, for the same reason.
- Text.FileName: follows the Windows separators '\\', '/' and ':'; the exception `Path.GetFileName` raises for invalid path characters is not modelled.
- Text.Extension: the same separators, and the same exception is not modelled.
- Sessions.Editor.AddTool: the `Replace` behaviour is not modelled. With it, an existing pane whose caption equals the new pane's text is closed first (`OpenSource` passes it, `OpenExistingSource` does not). Closing that pane removes content from the docking panel, which raises the content-removed event, so the handler then unlocks the source of whichever editor is active at that moment, possibly a source other than the one being opened. `Sessions.Editor.OpenSource`'s frame therefore leaves out this unlock of another source. Pane captions, dock states and panes that are not source editors belong to the docking library.
- Sessions.Editor.OpenSource: the caption-based replace it asks `AddTool` for is not modelled, so its frame says that no other source changes. In the program, a pane with the same caption is closed first, and the content-removed handler can then unlock the active editor's source.
- Sessions.Editor.ContentRemoved: the handler does not take the removed pane off `documents`. The docking library does that, and that library is not part of this model.
- Sessions.RemoteSource.Lock: the remote allocation behind `Lock()` and `Unlock()` is not part of this model (`RemoteSource.cs` is not modelled). They are modelled as setting and clearing a flag.
- `IBMiUtils.DownloadMember`, `IBMiUtils.DownloadFile`, `File.Exists` and the connection's `GetValue` are parameters, because their implementations are not part of this model.
- The compile click handlers are not modelled. `compileAnyHandle` passes the source and the clicked item's text to `IBMiUtils.CompileSource`; it checks the tag for null but not `LastEditing`. `compileToolStripMenuItem1_Click` passes only the source; it checks `LastEditing` for null but passes on its tag unchecked. Both start a new thread, and the remote compile is not part of this model.
- Status-bar text, `MessageBox` reports (download failure for QSYS members, missing local files), dialogs and the window's construction are user-interface output with no effect on the modelled state.
- The initial `Enabled` state of the two compile menu items comes from the designer file, which is not part of this model. The constructor sets both to the WinForms default, `true`, and states nothing about them.
- Only the `Language` values that the table uses, plus `None`, are modelled. The enum lives in a file that is not part of this model.
- The `FileSystem` type has only QSYS and IFS. A value outside the `switch` in `OpenSource` would leave the result empty, which the model cannot express.
- Other menu handlers are not modelled: new/open dialogs, SQL generation, RPG conversion, CL formatting, tools, help. So are `GetTabByName`, `GetTabEditor` and `SwitchToTab`, which are docking and UI glue.
