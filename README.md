# AutoTerminal folder-lifecycle model

A Dafny model of the VS Code extension AutoTerminal (`src/extension.ts`), which
opens integrated terminals when a workspace folder is opened and applies a
close policy when a folder is removed, driven by the folder's
`.vscode/.auto-terminal.jsonc` file.

The editor is abstracted as a small state:

- `Host.Window` holds the window's terminals as a `seq<Terminal>`. Each terminal
  keeps its name, its split parent (an index into that list), the ordered
  history of what was done to it (`Text(s)` for `sendText`, `Show` for `show`),
  and a `disposed` flag. Its methods `CreateTerminal`, `SendText`, `Show` and
  `Dispose` stand for the host calls of the same names.
- `Config.Workspace` holds `workspace.workspaceFolders` (None when no workspace
  is open) and, per folder URI, what the file system answers for the config
  file: no file, unreadable, unparsable, or the parsed config.
- The parsed config is a tagged variant that keeps JavaScript truthiness.
  `open` is absent or falsy, an array of entries, or a truthy non-array. An
  entry is a single terminal spec or an array (a tab group). `close` is absent
  or falsy, a string (the empty string is falsy), an array of macro names, or
  a truthy value of another type.

The extension object is the class `Extension.AutoTerminal`. It has the field
`workspaceFolders` and a method for each handler. Every handler is proved to
have exactly the effect that a function of module `Effects` gives. Those
functions are built from the plans of module `Plans` (what `open` creates,
which macros `close` runs) and the folder diff of module `Folders`. The
properties the extension promises are lemmas and contracts on those
functions.

The extension keeps no terminal registry, no slot ids and no config cache. It
reads only `.vscode/.auto-terminal.jsonc` (src/extension.ts:135), and
`killall`/`closeall` act on every terminal in the window.

An element of `open`, or of one of its arrays, may be `null`. `openTerminal`
then throws while reading `name` inside its own `try`. It logs the error,
creates nothing and returns `undefined`. The model keeps this: an element is
`None` for `null`, and `openTerminal` returns `None` for it. An array whose
first element creates nothing, including an empty array, opens its later
elements standalone: `openTerminal(splitData, undefined)` falls back to the
default `null` parent. A spec's `name` may be absent, and then the editor picks
its default name. An element that is a string, a number or another value
without these fields is a spec with all three fields absent.

## Model

| member | source | states |
|---|---|---|
| `Config.GetConfig` | src/extension.ts:134-169 | The result is null when no workspace is open, when the file is missing and when it cannot be read. It is undefined exactly when the file cannot be parsed. Otherwise it is exactly the parsed config. |
| `Folders.Find` | src/extension.ts:32 | `find` by URI string gives nothing exactly when no folder has that URI. When it gives a folder, that folder is in the list and has that URI. |
| `Folders.Missing` | src/extension.ts:31-44 | Definition, no contract of its own: the folders of one list, in order, whose URI `find` does not meet in the other list. `MissingExactly` and `MissingCounts` state what it yields. |
| `Folders.MissingExactly` | src/extension.ts:31-44 | The folders picked from a list are exactly those whose URI is absent from the other list, in both directions. They keep the list's order: the result is a subsequence of it. |
| `Folders.MissingCounts` | src/extension.ts:31-44 | Every occurrence of a picked folder is kept, and no other folder is. |
| `Folders.FolderDiffExactly` | src/extension.ts:27-48 | On a change event, `open` is called for a folder exactly when it is current and its URI was not remembered. `close` is called exactly when it was remembered and its URI is no longer current. |
| `Folders.FolderDiff` | src/extension.ts:27-48 | Definition, no contract of its own: the calls a change event issues, `open` for each folder missing from the remembered list, then `close` for each folder missing from the current list. `FolderDiffExactly` and `FolderDiffOrder` state what it yields. |
| `Folders.FolderDiffOrder` | src/extension.ts:31-44 | Every `open` is issued before every `close`. The opens follow the current list's order and the closes the remembered list's. |
| `Folders.FolderDiffOfSameUris` | src/extension.ts:27-48 | When both lists hold the same URIs, the event issues no call. |
| `Plans.EntryPlan` | src/extension.ts:67-76 | An entry creates one terminal per element that is not null, in order. The entry's later terminals are splits of its first exactly when it is an array whose first element is not null. Every other terminal of the entry has no parent. |
| `Plans.GroupPlan` | src/extension.ts:71-74 | An array creates its non-null elements in order. The later ones are splits of the first exactly when the first element is not null; otherwise none has a parent. |
| `Plans.Splits` | src/extension.ts:72-74 | `slice(1).forEach` creates each non-null element, in order, each with the parent it was given. |
| `Plans.PlanEntries` | src/extension.ts:67-76 | Definition, no contract of its own: the entries' creations, entry after entry, each entry placed at the offset the earlier ones filled. `PlanFollowsDeclaration`, `PlanParents` and `EntryInPlan` state what it yields. |
| `Plans.OpenEntries` | src/extension.ts:56-67 | Definition, no contract of its own: the entries `forEach` visits, none unless the config is loaded and `open` is an array. `OpenWithoutEntries` states the cases with none. |
| `Plans.PlanFollowsDeclaration` | src/extension.ts:67-76 | `open` creates the terminals named by its entries, flattened, in declaration order. |
| `Plans.FlattenCount` | src/extension.ts:67-76 | The number of terminals is the number of non-null flat entries plus the number of non-null elements of the array entries. |
| `Plans.PlanParents` | src/extension.ts:71-74 | Every parent in a plan is an earlier creation that has no parent itself. Every creation between a parent and its child is a child of the same parent, so a tab group is one contiguous run, one level deep. |
| `Plans.PlanPrefix` | src/extension.ts:67-76 | The creations of the first `n` entries are a prefix of the creations of all entries. |
| `Plans.EntryInPlan` | src/extension.ts:67-76 | The creations of entry `e` start right after as many creations as the earlier entries name once flattened. They create the entry's non-null elements in order. The later ones are splits of the first exactly when the entry is an array whose first element is not null. |
| `Plans.PresentAll` | src/extension.ts:67-76 | Without null elements, every element is created, in place. |
| `Plans.ClosePlan` | src/extension.ts:79-94 | Definition, no contract of its own: the macros `close` runs. A non-empty string is one macro, an array is its elements in order, and anything else (`null`, `undefined`, absent, `""`, another type) is none. `ClosePolicy` states the effect. |
| `Effects.SetupOrder` | src/extension.ts:123-127 | The texts sent to a new terminal are `cd <path>; clear;` only if `path` is set, then `command` only if it is set. A terminal with neither gets no text. It is shown exactly once, after the `cd` and before the command. |
| `Effects.Setup` | src/extension.ts:118-127 | Definition, no contract of its own: the actions `openTerminal` performs on a new terminal, in order. `SetupOrder` states what they are. |
| `Effects.Opened` | src/extension.ts:113-128 | Definition, no contract of its own: the terminal `openTerminal` leaves behind, with the spec's name, the given parent, the setup history, not disposed. `OpenedShown` states that it is shown and open. |
| `Effects.OpenedShown` | src/extension.ts:125 | A terminal `openTerminal` creates is shown and not disposed. |
| `Effects.Create` | src/extension.ts:67-76 | Definition, no contract of its own: the terminals after a plan's creations are appended, each plan position shifted to a window index. `CreateAppends` states what it yields. |
| `Effects.CreateAppends` | src/extension.ts:67-76 | Running a plan keeps the existing terminals as a prefix. It appends one terminal per creation, named as the creation says, each shown and not disposed. |
| `Effects.AfterOpen` | src/extension.ts:56-77 | Definition, no contract of its own: the terminals after `open(folder)`. `OpenWithoutEntries`, `OpenCreatesDeclared`, `OpenParents` and `OpenEntryPlaced` state what it yields. |
| `Effects.OpenWithoutEntries` | src/extension.ts:56-67 | If the config is null or undefined, or `open` is absent, falsy or not an array, `open` changes no terminal. |
| `Effects.OpenCreatesDeclared` | src/extension.ts:56-77 | `open` leaves the existing terminals as they were. It appends one terminal per non-null flat entry and one per non-null element of each array entry, named in declaration order. Each new terminal is shown and not disposed. |
| `Effects.OpenParents` | src/extension.ts:67-76 | Each split child's parent is a terminal created earlier by the same `open`. That parent is standalone, and every terminal between the two belongs to the same group. |
| `Effects.OpenEntryPlaced` | src/extension.ts:67-76 | Entry `e`'s `j`-th terminal sits at index `at + j`, where `at` counts the terminals before `open` plus those the earlier entries name. It is named as the entry's `j`-th non-null element. When the entry is an array whose first element is not null, it is a split of the terminal at `at` for every `j > 0`. Otherwise it has no parent. |
| `Effects.KillAll` | src/extension.ts:98-102 | `killall` appends `\x03` to the history of every open terminal. It disposes none and leaves disposed ones as they were. |
| `Effects.CloseAll` | src/extension.ts:103-107 | `closeall` leaves no terminal open and sends no text. |
| `Effects.AfterMacro` | src/extension.ts:96-111 | Definition, no contract of its own: `killall` gives `KillAll`, `closeall` gives `CloseAll`, and any other name leaves the terminals unchanged. `UnknownMacrosChangeNothing` states the last case. |
| `Effects.AfterMacros` | src/extension.ts:90-92 | Macros run one after another keep the number of terminals. `MacrosKeepTerminals`, `CloseallDisposesAll` and `KillallsOnly` state the rest. |
| `Effects.MacrosKeepTerminals` | src/extension.ts:96-111 | Macros never create, rename or re-parent a terminal, and never touch a disposed one. They only ever add interrupts to a terminal's history. |
| `Effects.CloseallDisposesAll` | src/extension.ts:87-107 | A policy that includes `closeall` leaves no terminal open. |
| `Effects.KillallsOnly` | src/extension.ts:87-102 | A policy without `closeall` disposes nothing. Each open terminal gets exactly one `\x03` per `killall` in the policy. |
| `Effects.UnknownMacrosChangeNothing` | src/extension.ts:108-110 | A policy made only of unknown macro names leaves every terminal unchanged. |
| `Effects.ClosePolicy` | src/extension.ts:79-94 | A string policy runs as one macro. An array policy runs macro by macro, in order. If the config is missing or unparsable, or `close` is absent or of another type, nothing changes. |
| `Effects.AfterClose` | src/extension.ts:79-94 | Definition, no contract of its own: the terminals after `close(folder)`, that is, the folder's close macros run in order. `ClosePolicy` states what it yields. |
| `Effects.Sweep` | src/extension.ts:14-19 | At activation every open terminal gets `\x03` as its last text and is disposed. Afterwards no terminal is open. |
| `Effects.SweepIsKillallThenCloseall` | src/extension.ts:14-19 | The activation sweep has the same effect as the close policy `["killall", "closeall"]`. |
| `Effects.Run` | src/extension.ts:27-48 | Definition, no contract of its own: one call of the change handler, `open` or `close` of a folder. |
| `Effects.RunCalls` | src/extension.ts:31-44 | Definition, no contract of its own: calls run one after another, in order. `RunCallsKeepsExisting` and `ReplayChangesNothing` state what it yields. |
| `Effects.RunCallsKeepsExisting` | src/extension.ts:31-44 | A sequence of `open`/`close` calls never removes, renames or re-parents a terminal that already existed, and never touches a disposed one. |
| `Effects.ReplayChangesNothing` | src/extension.ts:27-48 | Once the current list is stored, an event in which no folder changed leaves every terminal unchanged. |
| `Extension.AutoTerminal.constructor` | src/extension.ts:6 | The extension starts with no remembered folders. |
| `Extension.AutoTerminal.Activate` | src/extension.ts:13-54 | The terminals afterwards are the swept terminals followed by `open` for each workspace folder, in order. The remembered list is `workspaceFolders || []`. |
| `Extension.AutoTerminal.OnDidChangeWorkspaceFolders` | src/extension.ts:27-48 | The terminals afterwards are those produced by the folder diff's calls, run in order. The remembered list becomes the current list. |
| `Extension.AutoTerminal.OpenAdded` | src/extension.ts:31-36 | Runs `open` for exactly the current folders whose URI is not remembered, in order. |
| `Extension.AutoTerminal.CloseRemoved` | src/extension.ts:39-44 | Runs `close` for exactly the remembered folders whose URI is not current, in order. |
| `Extension.AutoTerminal.Open` | src/extension.ts:56-77 | The terminals afterwards are the old ones with the folder's open plan appended. |
| `Extension.AutoTerminal.OpenEntry` | src/extension.ts:67-76 | One entry's terminals are appended, as `EntryPlan` gives them at the current offset. |
| `Extension.AutoTerminal.OpenGroup` | src/extension.ts:71-74 | An array's terminals are appended, as `GroupPlan` gives them at the current offset: the first element standalone, then each later one as a split of it, or standalone when the first created nothing. |
| `Extension.AutoTerminal.OpenSplits` | src/extension.ts:72-74 | Each later element of an array is appended in order as `Splits` gives it, a split of the index `main` the first call returned, or standalone when that was `undefined`. |
| `Extension.AutoTerminal.Close` | src/extension.ts:79-94 | The terminals afterwards are the old ones after the folder's close macros, run in order. |
| `Extension.AutoTerminal.ExecuteMacro` | src/extension.ts:96-111 | The terminals afterwards are the old ones after `killall`, after `closeall`, or unchanged for any other name. |
| `Extension.AutoTerminal.OpenTerminal` | src/extension.ts:113-132 | For a spec, appends exactly one terminal with the spec's name, the given parent, its setup history, not disposed, and returns that terminal's index. For `null` it changes nothing and returns `None`. |
| `Extension.AutoTerminal.SendSigint` | src/extension.ts:171-173 | Appends `\x03` to the history of that one terminal and changes nothing else. |
| `Extension.AutoTerminal.Deactivate` | src/extension.ts:175-179 | The terminals afterwards are the old ones after `close` for every remembered folder, in order. |

## Left out

- Asynchrony: `open` and `close` are async and are not awaited. Terminal effects from different folders may therefore interleave. The model runs each call to completion, in the order the calls are issued.
- Unhandled rejections: when the config is undefined (a parse failure), reading `open`/`close` on it throws a TypeError, and so does `forEach` on a truthy non-array `open`. The model gives these the effect they have on terminals, which is none. It does not model the rejected promise.
- Host failures: `createTerminal`, `sendText` and `show` are assumed to succeed. The catch at src/extension.ts:129-131 is modelled only for a `null` or `undefined` element, on which reading `name` throws before anything is created.
- Config.TerminalSpec: a `name`, `path` or `command` that is present but not a string (a number, an object) is not modelled. Each field is an optional string. The editor's default name for a terminal without `name` is left to the editor, shown as `None`.
- Parsing: the jsonc parser and `TextDecoder` are foreign code. The config arrives already parsed, as a variant. Macro names are strings: a non-string element of `close` behaves like an unknown macro name. A parsed value that is not an object is a config with neither field.
- `Uri.joinPath`: the config file is looked up by the folder's URI string. Path joining is not modelled.
- Disposal: VS Code drops a disposed terminal from `window.terminals`. The model keeps it in the list with `disposed` set, and every loop skips it.
- The singleton accessor (src/extension.ts:8-11), the module-level `activate`/`deactivate` wrappers (src/extension.ts:182-187), console logging, and registering the listener in `context.subscriptions`. The listener is the method `OnDidChangeWorkspaceFolders`.
- rollup.config.js is build configuration with no behaviour.
