/**
 * The per-folder configuration file `.vscode/.auto-terminal.jsonc`, already
 * parsed, and the loader that turns the file system's answer into the value
 * the handlers see: `null`, `undefined` (a parse failure) or the parsed object.
 * The fields carry JavaScript truthiness: an absent or falsy field is one
 * variant, a truthy value of an unexpected shape another.
 */
module Config {
  import opened Wrappers

  /** A workspace folder; folders are compared by the string form of `uri`. */
  datatype Folder = Folder(uri: string, name: string)

  /**
   * One terminal to open: `{ name?, path?, command? }`, each field None when
   * absent. An element that is not an object (a string, a number, a boolean)
   * reads every field as undefined: a spec with all three absent.
   */
  datatype TerminalSpec = TerminalSpec(name: Option<string>, path: Option<string>, command: Option<string>)

  /** An optional string field is truthy when present and not empty. */
  predicate Truthy(o: Option<string>)
  {
    o.Some? && o.value != ""
  }

  /**
   * An element of `open`: a standalone terminal, or a tab group given as an
   * array. Each terminal is given by an element that is None for `null` (or
   * `undefined`), on which reading `name` throws.
   */
  datatype OpenEntry = Single(elem: Option<TerminalSpec>) | Group(elems: seq<Option<TerminalSpec>>)

  /** The `open` field: absent or falsy, an array, or a truthy non-array. */
  datatype OpenField = NoOpen | OpenList(entries: seq<OpenEntry>) | OpenNotList

  /**
   * The `close` field: absent or falsy, a string (the empty string is falsy and
   * counts as absent), an array of macro names, or a truthy value of another type.
   */
  datatype CloseField = NoClose | CloseString(macro: string) | CloseList(macros: seq<string>) | CloseOther

  datatype FolderConfig = FolderConfig(open: OpenField, close: CloseField)

  /** What the file system holds at the config path of a folder. */
  datatype ConfigFile = NoFile | Unreadable | Unparsable | Parsed(config: FolderConfig)

  /** What `getConfig` resolves to. */
  datatype ConfigValue = Null | Undefined | Value(config: FolderConfig)

  /**
   * The host's workspace as the handlers read it: `workspace.workspaceFolders`
   * (None when no workspace is open) and the config file of each folder, keyed
   * by the folder's URI string (a folder without a key has no file).
   */
  datatype Workspace = Workspace(folders: Option<seq<Folder>>, files: map<string, ConfigFile>)

  /** `workspace.workspaceFolders || []`. */
  function Current(ws: Workspace): seq<Folder>
  {
    match ws.folders
    case None => []
    case Some(fs) => fs
  }

  /**
   * What the file system holds at `.vscode/.auto-terminal.jsonc` under the
   * folder.
   */
  function FileOf(ws: Workspace, folder: Folder): ConfigFile
  {
    if folder.uri in ws.files then ws.files[folder.uri] else NoFile
  }

  /**
   * `getConfig`: null without a workspace, without a file or when the file
   * cannot be read; undefined when it cannot be parsed; the parsed value otherwise.
   */
  function GetConfig(ws: Workspace, folder: Folder): (r: ConfigValue)
    ensures ws.folders.None? ==> r == Null
    ensures r.Value? <==> ws.folders.Some? && FileOf(ws, folder).Parsed?
    ensures r.Value? ==> r.config == FileOf(ws, folder).config
    ensures r.Undefined? <==> ws.folders.Some? && FileOf(ws, folder) == Unparsable
  {
    if ws.folders.None? then Null
    else
      match FileOf(ws, folder)
      case NoFile => Null
      case Unreadable => Null
      case Unparsable => Undefined
      case Parsed(c) => Value(c)
  }
}
