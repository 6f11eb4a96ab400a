/** The session flow of the editor shell: opening a remote source (a member
    or a stream file) into a source editor, which locks the source; opening
    local files; releasing a lock when an editor pane is removed; and filling
    the compile menus for the editor in focus. The transfer layer, the file
    system and the connection's settings are passed in as functions. */
module Sessions {
  import opened Text
  import opened Languages
  import opened CompileOptions

  /** Where a remote source lives: a member of a source file in a library
      (QSYS) or a stream file of the integrated file system (IFS). */
  datatype FileSystem = QSYS | IFS

  /** The download the open flow asks the transfer layer for. */
  datatype Transfer =
    | DownloadMember(library: string, file: string, member: string, extension: string)
    | DownloadFile(remotePath: string)

  /** The record length an editor is built with; editors on local files are
      built without one. */
  datatype RecordLength = Fixed(length: int) | Default

  /** The pane that is active in the docking panel. */
  datatype ActivePane = SourcePane(editor: SourceEditor) | OtherPane | NoPane

  /** The download chosen for a source: a member download for QSYS, a file
      download of the remote path for IFS. */
  function DownloadFor(fs: FileSystem, library: string, obj: string, name: string,
                       extension: string, remoteFile: string): (t: Transfer)
    ensures t.DownloadMember? <==> fs == QSYS
    ensures t.DownloadMember? ==> t.library == library && t.file == obj && t.member == name
                                  && t.extension == extension
    ensures t.DownloadFile? ==> t.remotePath == remoteFile
  {
    match fs
    case QSYS => DownloadMember(library, obj, name, extension)
    case IFS => DownloadFile(remoteFile)
  }

  /** A source on the remote system. Only the path of its local copy and
      whether it holds its lock change. */
  class RemoteSource {
    const fs: FileSystem
    const library: string
    const obj: string
    const name: string
    const extension: string
    const remoteFile: string
    const recordLength: int
    var local: string
    var locked: bool

    constructor (fs: FileSystem, library: string, obj: string, name: string,
                 extension: string, remoteFile: string, recordLength: int, local: string)
      ensures this.fs == fs && this.library == library && this.obj == obj && this.name == name
      ensures this.extension == extension && this.remoteFile == remoteFile
      ensures this.recordLength == recordLength && this.local == local && !locked
    {
      this.fs := fs;
      this.library := library;
      this.obj := obj;
      this.name := name;
      this.extension := extension;
      this.remoteFile := remoteFile;
      this.recordLength := recordLength;
      this.local := local;
      this.locked := false;
    }

    function Download(): Transfer
    {
      DownloadFor(fs, library, obj, name, extension, remoteFile)
    }

    /** The caption of an editor on this source: name.extension, the
        extension in lower case. */
    function Caption(): (r: string)
      ensures |r| <= |name| + 1 + |extension|
      ensures r == (name + "." + ToLower(extension))[|name| + 1 + |extension| - |r|..]
    {
      FileName(name + "." + ToLower(extension))
    }

    /** When neither the name nor the extension holds a separator, the
        caption is the name, a dot and the lower-cased extension. */
    lemma CaptionOfPlainName()
      requires forall i :: 0 <= i < |name| ==> !IsPathSeparator(name[i])
      requires forall i :: 0 <= i < |extension| ==> !IsPathSeparator(extension[i])
      ensures Caption() == name + "." + ToLower(extension)
    {
      var path := name + "." + ToLower(extension);
      assert forall i :: 0 <= i < |path| ==> !IsPathSeparator(path[i]) by {
        forall i | 0 <= i < |path| ensures !IsPathSeparator(path[i]) {
          if |name| < i {
            assert path[i] == LowerChar(extension[i - |name| - 1]);
          }
        }
      }
      NoSeparatorNameIsWholePath(path);
    }

    /** Takes the lock on the remote source. */
    method Lock()
      modifies this`locked
      ensures locked
    {
      locked := true;
    }

    /** Releases the lock on the remote source. */
    method Unlock()
      modifies this`locked
      ensures !locked
    {
      locked := false;
    }
  }

  /** An editor pane on one file, bound to one language. Its tag is the
      remote source it edits, or null for a local file. */
  class SourceEditor {
    const path: string
    const language: Language
    const recordLength: RecordLength
    var tag: RemoteSource?
    var text: string

    constructor (path: string, language: Language, recordLength: RecordLength)
      ensures this.path == path && this.language == language && this.recordLength == recordLength
      ensures tag == null && text == ""
    {
      this.path := path;
      this.language := language;
      this.recordLength := recordLength;
      tag := null;
      text := "";
    }
  }

  /** The main window: the source editors it has docked, and the state of its
      two compile menus (the list of options and whether each is enabled). */
  class Editor {
    var documents: seq<SourceEditor>
    var compileOptions: seq<string>
    var compileEnabled: bool
    var compileOptionsEnabled: bool

    constructor ()
      ensures documents == [] && compileOptions == []
    {
      documents := [];
      compileOptions := [];
      compileEnabled := true;
      compileOptionsEnabled := true;
    }

    /** Docks an editor pane. */
    method AddTool(panel: SourceEditor)
      modifies this`documents
      ensures documents == old(documents) + [panel]
    {
      documents := documents + [panel];
    }

    /** Downloads a remote source and, when the download gives a path, records
        it as the source's local copy, opens an editor on exactly that file,
        locks the source and docks the editor. An empty path is a failure:
        the source and the docked editors stay as they were. */
    method OpenSource(source: RemoteSource, download: Transfer -> string) returns (panel: SourceEditor?)
      modifies this`documents, source`local, source`locked
      ensures download(source.Download()) == "" ==>
        panel == null && documents == old(documents) && unchanged(source)
      ensures download(source.Download()) != "" ==>
        && panel != null && fresh(panel)
        && documents == old(documents) + [panel]
        && source.local == download(source.Download()) && source.locked
        && panel.path == source.local
        && panel.language == GetBoundLangType(source.extension)
        && panel.recordLength == Fixed(source.recordLength)
        && panel.tag == source && panel.text == source.Caption()
    {
      var text := source.Caption();
      var language := GetBoundLangType(source.extension);
      var resultFile := download(source.Download());
      if resultFile != "" {
        source.local := resultFile;
        var sourcePanel := new SourceEditor(source.local, language, Fixed(source.recordLength));
        sourcePanel.tag := source;
        sourcePanel.text := text;
        source.Lock();
        AddTool(sourcePanel);
        panel := sourcePanel;
      } else {
        panel := null;
      }
    }

    /** Opens an editor on a source whose local copy already exists, locks the
        source and docks the editor. The language argument is not used: the
        editor's language comes from the source's extension. When the local
        copy does not exist nothing changes. */
    method OpenExistingSource(source: RemoteSource, language: Language, fileExists: string -> bool)
      returns (panel: SourceEditor?)
      modifies this`documents, source`locked
      ensures source.local == old(source.local)
      ensures fileExists(source.local) ==>
        && panel != null && fresh(panel)
        && documents == old(documents) + [panel]
        && source.locked
        && panel.path == source.local
        && panel.language == GetBoundLangType(source.extension)
        && panel.recordLength == Fixed(source.recordLength)
        && panel.tag == source && panel.text == source.Caption()
      ensures !fileExists(source.local) ==>
        panel == null && documents == old(documents) && unchanged(source)
    {
      var text := source.Caption();
      var language := GetBoundLangType(source.extension);
      if fileExists(source.local) {
        var sourcePanel := new SourceEditor(source.local, language, Fixed(source.recordLength));
        sourcePanel.tag := source;
        sourcePanel.text := text;
        source.Lock();
        AddTool(sourcePanel);
        panel := sourcePanel;
      } else {
        panel := null;
      }
    }

    /** Opens an editor on a local file with the given language. The editor
        has no remote source, so nothing is locked. */
    method OpenLocalSource(filePath: string, language: Language, fileExists: string -> bool)
      returns (panel: SourceEditor?)
      modifies this`documents
      ensures fileExists(filePath) ==>
        && panel != null && fresh(panel)
        && documents == old(documents) + [panel]
        && panel.path == filePath && panel.language == language
        && panel.recordLength == Default
        && panel.tag == null && panel.text == FileName(filePath)
      ensures !fileExists(filePath) ==> panel == null && documents == old(documents)
    {
      var text := FileName(filePath);
      if fileExists(filePath) {
        var sourcePanel := new SourceEditor(filePath, language, Default);
        sourcePanel.text := text;
        AddTool(sourcePanel);
        panel := sourcePanel;
      } else {
        panel := null;
      }
    }

    /** The File > Open > Local file action once a file has been chosen: the
        file's extension loses its leading dot and is classified, and the
        file is opened with that language. */
    method OpenLocalFile(fileName: string, fileExists: string -> bool) returns (panel: SourceEditor?)
      modifies this`documents
      ensures fileExists(fileName) ==>
        && panel != null && fresh(panel)
        && documents == old(documents) + [panel]
        && panel.path == fileName
        && panel.language == LocalFileLanguage(fileName)
        && panel.recordLength == Default
        && panel.tag == null && panel.text == FileName(fileName)
      ensures !fileExists(fileName) ==> panel == null && documents == old(documents)
    {
      panel := OpenLocalSource(fileName, LocalFileLanguage(fileName), fileExists);
    }

    /** The docking panel's content-removed event. The lock released is that of
        the remote source tagged on the ACTIVE pane, when that pane is a source
        editor with a tag; in every other case nothing changes. */
    method ContentRemoved(fromPanel: bool, active: ActivePane)
      modifies (if fromPanel && active.SourcePane? && active.editor.tag != null
                then {active.editor.tag} else {})`locked
      ensures fromPanel && active.SourcePane? && active.editor.tag != null ==>
        !active.editor.tag.locked
    {
      if fromPanel {
        if active.SourcePane? {
          var src := active.editor.tag;
          if src != null {
            src.Unlock();
          }
        }
      }
    }

    /** Opening the Compile menu: the option list is cleared, then rebuilt
        from the setting "TYPE_<extension>" of the source in the editor in
        focus (none when no editor has focus), and both compile entries are
        enabled exactly when there is an option. An editor in focus with no
        remote source makes the handler fail after the list is cleared,
        leaving both entries as they were. */
    method CompileDropDownOpening(lastEditing: SourceEditor?, getValue: string -> string)
      returns (failed: bool)
      modifies this`compileOptions, this`compileEnabled, this`compileOptionsEnabled
      ensures failed <==> lastEditing != null && lastEditing.tag == null
      ensures failed ==> compileOptions == [] && compileEnabled == old(compileEnabled)
                         && compileOptionsEnabled == old(compileOptionsEnabled)
      ensures !failed ==>
        compileOptions == (if lastEditing == null then []
                           else CompileOptionsFor(getValue(ConfigKey(lastEditing.tag.extension))))
      ensures !failed ==> compileEnabled == (compileOptions != []) && compileOptionsEnabled == (compileOptions != [])
    {
      compileOptions := [];
      var compiles: seq<string> := [];
      if lastEditing != null {
        var sourceInfo := lastEditing.tag;
        if sourceInfo == null {
          failed := true;
          return;
        }
        var items := Split(getValue(ConfigKey(sourceInfo.extension)), '|');
        compiles := CollectCompileOptions(items);
      }
      compileEnabled := |compiles| > 0;
      compileOptionsEnabled := |compiles| > 0;
      compileOptions := compiles;
      failed := false;
    }
  }

  /** One source's session in a fresh window: open it with the given download
      outcome and, when that succeeds, remove a pane while its editor is the
      active one. A successful open locks the source and points it at the
      downloaded copy; removing the pane releases the lock; a failed open
      never takes the lock. */
  method OpenThenClose(fs: FileSystem, library: string, obj: string, name: string, extension: string,
                       remoteFile: string, recordLength: int, download: Transfer -> string)
    returns (isOpen: bool, lockedWhileOpen: bool, localWhileOpen: string, lockedAfterClose: bool)
    ensures isOpen <==> download(DownloadFor(fs, library, obj, name, extension, remoteFile)) != ""
    ensures lockedWhileOpen == isOpen
    ensures isOpen ==> localWhileOpen == download(DownloadFor(fs, library, obj, name, extension, remoteFile))
    ensures !lockedAfterClose
  {
    var editor := new Editor();
    var source := new RemoteSource(fs, library, obj, name, extension, remoteFile, recordLength, "");
    var panel := editor.OpenSource(source, download);
    isOpen := panel != null;
    lockedWhileOpen := source.locked;
    localWhileOpen := source.local;
    if panel != null {
      editor.ContentRemoved(true, SourcePane(panel));
    }
    lockedAfterClose := source.locked;
  }

  /** Two sources open in one window, and a pane is removed while the second
      source's editor is the active one. The handler releases the lock of the
      active editor's source, so the second source is unlocked and the first
      keeps its lock, whichever pane was removed. */
  method RemoveWithOtherPaneActive(firstPath: string, secondPath: string, download: Transfer -> string)
    returns (firstLocked: bool, secondLocked: bool)
    requires download(DownloadFile(firstPath)) != "" && download(DownloadFile(secondPath)) != ""
    ensures firstLocked && !secondLocked
  {
    var editor := new Editor();
    var first := new RemoteSource(IFS, "", "", "first", "", firstPath, 0, "");
    var second := new RemoteSource(IFS, "", "", "second", "", secondPath, 0, "");
    var firstPane := editor.OpenSource(first, download);
    var secondPane := editor.OpenSource(second, download);
    editor.ContentRemoved(true, SourcePane(secondPane));
    firstLocked, secondLocked := first.locked, second.locked;
  }
}
