# Strange Eons developer tools, modelled in Dafny

This project models the sequential logic of the Strange Eons developer-tools
plug-in. The Swing and host glue is abstracted away, and the properties the
code promises are proved about the model. There is one Dafny module per Java
source file, plus a module `Text` for the string helpers they share (Java's
`trim`, `replace` and ASCII lower-casing, and `Option` standing for a
nullable reference).

- **Setting Explorer** (`setting_explorer.dfy`, `settings_host.dfy`,
  `setting_explorer_proxy.dfy`).
  - Host `Settings` instances are records holding their own overrides and a
    parent link. They are identified by natural numbers: Default 0, Shared 1,
    User 2.
  - A well-formed world has every other instance's parent older than it, so
    no parent chain can cycle.
  - `SettingExplorerPanel` is a class. Its fields are the settings world, the
    raw global/user store, the table rows, the shown instance and the tree
    text.
  - The key-set choice (`MakeKeySet`) and the parent walk (`Parent`,
    `Chain`) are module functions.
  - The class's methods are `RefreshTable`, which loads the shown instance
    and its rows, and the value-inheritance text (`RefreshTree`). Next come
    the "may this edit affect the open component" walk, the table model's
    `setValueAt`, and the property-change listener. Each is proved against
    a specification function or states the new rows outright.
  - `IsCellEditable` is a predicate: every cell is editable unless the
    Default settings are shown.
- **Change Encoding dialog and action** (`charset_order.dfy`,
  `change_encoding_dialog.dfy`, `change_encoding_action.dfy`).
  - The charset comparator is modelled: the four special charsets come
    first, the rest by name ignoring case.
  - So is the `TreeSet` that builds the lists, which is sorted, deduplicated
    and optionally filtered.
  - So is the info-label and save-button state of the dialog, and `setFile`.
  - The action's first-match code-type lookup and its `appliesTo` are
    modelled too.
- **Memory graph** (`memory_graph.dfy`).
  - The 60-slot `heapUse` array is shifted in place, and the running maximum
    and cached shape are updated on each sample.
  - The click timer that runs four collection ticks is modelled.
- **Cache manager** (`cache_manager.dfy`).
  - The cache list is compared by identity and replaced, keeping the
    selection.
  - The detail panel and the clear button are modelled.
  - So is the update timer that reloads the list on every tenth visible tick.
- **Log viewer** (`log_viewer.dfy`).
  - The tail copy of the append-only log buffer is modelled. The document
    always mirrors the buffer up to `buffLen`.
  - So is the level popup, whose button group checks the last item whose rule
    holds.
- **Tool proxies and plug-in registration** (`dev_tool_proxy.dfy`,
  `developer_tools.dfy`).
  - The icon path, panel class and settings key are derived from a tool's
    title, and the default window bounds are computed.
  - Creating and unloading a tool window is modelled.
  - The plug-in's idempotent register/unregister toggles are modelled. Host
    registries are counts of what this plug-in registered in them.
  - So is the five-slot tool-window array.

Library and host calls become parameters of the operations:

- decoding success, encodability and file reading (the dialog);
- the registry's cache list and the cache statistics;
- the log buffer's current text;
- measured memory use;
- the menu bar's menu names;
- the available panel classes;
- whether stored window settings were applied;
- screen bounds and insets.

## Model

| member | source | states |
|---|---|---|
| Text.Lower | src/ca/cgjennings/apps/arkham/plugins/DevToolProxy.java:34 | toLowerCase, ASCII only: same length, each character lower-cased |
| Text.ReplaceChar | src/ca/cgjennings/apps/arkham/plugins/DevToolProxy.java:34 | replace(' ', '-'): same length, every occurrence replaced and nothing else changed |
| Text.RemoveSpaces | src/ca/cgjennings/apps/arkham/plugins/DevToolProxy.java:44 | replace(" ", ""): no space remains, it is no longer, and every other character occurs as often as before |
| Text.Trim | src/ca/cgjennings/apps/arkham/plugins/SettingExplorerPanel.java:619 | String.trim: the slice of the input after its leading white space, with only white space after it; no white space at either end; a string already trimmed is unchanged |
| Text.TrimIdempotent | src/ca/cgjennings/apps/arkham/plugins/SettingExplorerPanel.java:619 | trimming a trimmed value changes nothing |
| HostSettings.KeySet | src/ca/cgjennings/apps/arkham/plugins/SettingExplorerPanel.java:175 | getKeySet: exactly the keys the instance overrides |
| HostSettings.HostParent | src/ca/cgjennings/apps/arkham/plugins/SettingExplorerPanel.java:687 | the host parent of an ordinary instance is older than it, so walks terminate |
| HostSettings.VisibleKeySet | src/ca/cgjennings/apps/arkham/plugins/SettingExplorerPanel.java:194 | getVisibleKeySet is exactly the instance's own keys together with its parent's visible keys |
| HostSettings.SetOverride | src/ca/cgjennings/apps/arkham/plugins/SettingExplorerPanel.java:645 | Settings.set: the instance now overrides the key with the value; every other instance/key, and every parent link, is unchanged |
| HostSettings.ResetOverride | src/ca/cgjennings/apps/arkham/plugins/SettingExplorerPanel.java:643 | Settings.reset: the key is no longer overridden; everything else is unchanged |
| SettingExplorerProxy.SetGlobalSetting | src/ca/cgjennings/apps/arkham/plugins/SettingExplorerPanel.java:638 | the global value of the key becomes the value; other global values and all user values are unchanged |
| SettingExplorerProxy.GlobalOverride | src/resources/SettingExplorerProxy.java:22-29 | null without a global value, or when it equals the user value or the default value; otherwise exactly the global value, which then differs from both |
| SettingExplorer.Parent | src/ca/cgjennings/apps/arkham/plugins/SettingExplorerPanel.java:681-689 | Default has no parent, Shared's parent is Default, any other instance's is its host parent; every parent has a smaller id |
| SettingExplorer.Chain | src/ca/cgjennings/apps/arkham/plugins/SettingExplorerPanel.java:744-752 | the walk starts at the instance, each step is getParent, and it ends where getParent is null |
| SettingExplorer.ChainDecreasing | src/ca/cgjennings/apps/arkham/plugins/SettingExplorerPanel.java:681-689 | ids strictly decrease along a chain, so no instance is visited twice |
| SettingExplorer.ChainThroughSharedEndsAtDefault | src/ca/cgjennings/apps/arkham/plugins/SettingExplorerPanel.java:681-689 | a chain that reaches Shared continues to Default and stops there |
| SettingExplorer.MakeKeySet | src/ca/cgjennings/apps/arkham/plugins/SettingExplorerPanel.java:169-200 | Default: its own keys in every mode; mode -1/0 own keys, 1 own and the parent's, 2 visible keys; any other mode fails (AssertionError) |
| SettingExplorer.KeySetModesNested | src/ca/cgjennings/apps/arkham/plugins/SettingExplorerPanel.java:181-195 | for an ordinary instance, modes 0, 1 and 2 list growing key sets |
| SettingExplorer.TreeText | src/ca/cgjennings/apps/arkham/plugins/SettingExplorerPanel.java:504-507 | no selected key gives empty text; otherwise the text starts with the key and a blank line |
| SettingExplorer.EntriesCount | src/ca/cgjennings/apps/arkham/plugins/SettingExplorerPanel.java:466-502 | one line per chain instance, plus one when the chain passes through Shared and a global override exists |
| SettingExplorer.EntriesPlain | src/ca/cgjennings/apps/arkham/plugins/SettingExplorerPanel.java:466-502 | without a global line, the stack is the instance lines in reverse chain order |
| SettingExplorer.EntriesRootFirst | src/ca/cgjennings/apps/arkham/plugins/SettingExplorerPanel.java:466-502 | the k-th line of the text is the line of the k-th instance counted from the root |
| SettingExplorer.GlobalLineAboveShared | src/ca/cgjennings/apps/arkham/plugins/SettingExplorerPanel.java:482-498 | with a global override, the text opens with Default's line, then the global line, then Shared's line |
| SettingExplorer.RenderPrefix | src/ca/cgjennings/apps/arkham/plugins/SettingExplorerPanel.java:508-519 | the text of the first k lines is a prefix of the whole text, followed by line k at depth k |
| SettingExplorer.IndentShape | src/ca/cgjennings/apps/arkham/plugins/SettingExplorerPanel.java:511-516 | a line at depth k > 0 starts with 2k no-break spaces and then the corner "└ " |
| SettingExplorer.MayAffectAlongMeaning | src/ca/cgjennings/apps/arkham/plugins/SettingExplorerPanel.java:744-753 | the walk is false exactly when an instance before the edited one overrides the key; reaching the edited instance, or the end of the chain, gives true |
| SettingExplorer.PushNode | src/ca/cgjennings/apps/arkham/plugins/SettingExplorerPanel.java:470-497 | one instance's lines go on the stack: its value or "<Not defined>" with its tag, then the global line for Shared |
| SettingExplorer.IndentText | src/ca/cgjennings/apps/arkham/plugins/SettingExplorerPanel.java:511-516 | the appended indent equals the specified indent of that depth |
| SettingExplorer.AppendLine | src/ca/cgjennings/apps/arkham/plugins/SettingExplorerPanel.java:510-518 | one pop appends the indented value and a line break |
| SettingExplorer.RenderStack | src/ca/cgjennings/apps/arkham/plugins/SettingExplorerPanel.java:504-519 | popping the whole stack appends every line at its depth, in stack order |
| SettingExplorer.RowEdit | src/ca/cgjennings/apps/arkham/plugins/SettingExplorerPanel.java:619-634 | the table-model half of setValueAt: an empty key and an unchanged value are refused; a deletion resets; a new value is trimmed into the row and written; a new key renames the row and writes its value, unless that value is null; other rows are kept |
| SettingExplorer.StoreEdit | src/ca/cgjennings/apps/arkham/plugins/SettingExplorerPanel.java:636-648 | writing to the settings keeps the world well formed with the same instances |
| SettingExplorer.CellWrite | src/ca/cgjennings/apps/arkham/plugins/SettingExplorerPanel.java:618-648 | the write keeps the world well formed, the instances, the row count and the edited flag (its effects: CellWriteEffects) |
| SettingExplorer.CellWriteEffects | src/ca/cgjennings/apps/arkham/plugins/SettingExplorerPanel.java:618-648 | an empty or null key is refused and an unchanged value does nothing; other rows are kept; Shared refuses deletion and writes a global setting, leaving the settings alone; other instances reset on null and set the trimmed value otherwise, leaving the raw store alone; a rename writes the row's value under the new key, keeps the old key's value, and writes nothing when the row's value is null; no other override, no other global key and no user value changes |
| SettingExplorer.CellEdit | src/ca/cgjennings/apps/arkham/plugins/SettingExplorerPanel.java:650-659 | after a write with a source index above 0, the edited flag is raised; a redraw is requested exactly when the edit may affect the open component |
| SettingExplorer.FirstRowWithKey | src/ca/cgjennings/apps/arkham/plugins/SettingExplorerPanel.java:402-403 | the first row whose key matches, or none when no row does |
| SettingExplorer.SettingExplorerPanel.constructor | src/ca/cgjennings/apps/arkham/plugins/SettingExplorerPanel.java:340 | a new panel shows nothing, has no rows, shows the first source and lists all inherited keys (parent mode 2) |
| SettingExplorer.SettingExplorerPanel.DetermineSettingsForSelection | src/ca/cgjennings/apps/arkham/plugins/SettingExplorerPanel.java:422-457 | index 0 the project task, 1 Default, 2 Shared, 3 the parent of the component's settings (null without a component), 4 the component's settings, 5 User; a negative or other index gives null |
| SettingExplorer.SettingExplorerPanel.RefreshTree | src/ca/cgjennings/apps/arkham/plugins/SettingExplorerPanel.java:459-523 | the tree text is the specified text for the selected key and the shown instance |
| SettingExplorer.SettingExplorerPanel.PushChain | src/ca/cgjennings/apps/arkham/plugins/SettingExplorerPanel.java:466-502 | the walk leaves the lines of the whole chain on the stack, root on top |
| SettingExplorer.SettingExplorerPanel.EditMayAffectEditedComponent | src/ca/cgjennings/apps/arkham/plugins/SettingExplorerPanel.java:738-754 | the loop returns the walk's answer, and false when no component is active |
| SettingExplorer.SettingExplorerPanel.UpdateRow | src/ca/cgjennings/apps/arkham/plugins/SettingExplorerPanel.java:619-634 | the rows, write flag and value written are those of the table-model half |
| SettingExplorer.SettingExplorerPanel.StoreSetting | src/ca/cgjennings/apps/arkham/plugins/SettingExplorerPanel.java:636-648 | the settings and raw store after the write are those of the settings half; the panel stays valid |
| SettingExplorer.SettingExplorerPanel.WriteCell | src/ca/cgjennings/apps/arkham/plugins/SettingExplorerPanel.java:618-648 | the state and written key are those of the specified write |
| SettingExplorer.SettingExplorerPanel.IsCellEditable | src/ca/cgjennings/apps/arkham/plugins/SettingExplorerPanel.java:610-615 | every cell is editable exactly when the shown instance is not Default (or nothing is shown) |
| SettingExplorer.EditableBySource | src/ca/cgjennings/apps/arkham/plugins/SettingExplorerPanel.java:610-615 | once the table shows the selected source, the Default source is read-only and Shared and User are editable |
| SettingExplorer.SettingExplorerPanel.RefreshTable | src/ca/cgjennings/apps/arkham/plugins/SettingExplorerPanel.java:525-564 | the shown instance becomes the selected one; the rows list each key makeKeySet gives exactly once with its value; the selected key is kept only if still listed; the tree is refreshed; makeKeySet's AssertionError leaves an empty table |
| SettingExplorer.ListRows | src/ca/cgjennings/apps/arkham/plugins/SettingExplorerPanel.java:541-548 | one row per key of the set, each key once, holding the instance's value |
| SettingExplorer.SettingExplorerPanel.SetValueAt | src/ca/cgjennings/apps/arkham/plugins/SettingExplorerPanel.java:618-664 | the state and the redraw decision are those of the specified cell edit |
| SettingExplorer.SettingExplorerPanel.RefreshListener | src/ca/cgjennings/apps/arkham/plugins/SettingExplorerPanel.java:395-420 | an event from another instance changes nothing; a null value removes the first matching row; a value goes through the overridden setValueAt on column 1; an unknown key is appended as the last row |
| SettingExplorer.SettingExplorerPanel.RefreshListenerMirrorOnly | src/ca/cgjennings/apps/arkham/plugins/SettingExplorerPanel.java:395-420 | as above, but a value only replaces the matching row's value and the settings are untouched |
| SettingExplorer.ListenerRewritesTrimmedValue | src/ca/cgjennings/apps/arkham/plugins/SettingExplorerPanel.java:410 | a value set elsewhere on the shown (non-Shared) instance ends up stored trimmed |
| SettingExplorer.TrimmedValue | src/ca/cgjennings/apps/arkham/plugins/SettingExplorerPanel.java:619 | " w" trims to "w", a different value |
| LogViewer.CheckedItem | src/ca/cgjennings/apps/arkham/plugins/LogViewerPanel.java:102-108 | the group's checked item is the last one whose rule held, and none when no rule held |
| LogViewer.StandardLevelRule | src/ca/cgjennings/apps/arkham/plugins/LogViewerPanel.java:103-108 | for a standard level, an item's rule holds exactly for the item that names it, or "All" for FINER, FINEST and ALL |
| LogViewer.StandardLevelChecksOneItem | src/ca/cgjennings/apps/arkham/plugins/LogViewerPanel.java:90-108 | after the seven items, a standard level has exactly its own item checked |
| LogViewer.Polled | src/ca/cgjennings/apps/arkham/plugins/LogViewerPanel.java:62-79 | equal lengths change nothing; a longer buffer appends exactly the new tail and buffLen becomes its length; a shorter one throws |
| LogViewer.PollMirrors | src/ca/cgjennings/apps/arkham/plugins/LogViewerPanel.java:62-79 | if the document mirrored an earlier prefix of the buffer, after a poll it equals the whole buffer |
| LogViewer.PollAllShowsLatest | src/ca/cgjennings/apps/arkham/plugins/LogViewerPanel.java:62-79 | from an empty document, polling an append-only buffer never throws and shows its latest text |
| LogViewer.LogViewerPanel.constructor | src/ca/cgjennings/apps/arkham/plugins/LogViewerPanel.java:29-31 | empty document, nothing copied, the popup built for the current level |
| LogViewer.LogViewerPanel.CreateItem | src/ca/cgjennings/apps/arkham/plugins/LogViewerPanel.java:99-110 | the item is added last and becomes the checked one exactly when its rule holds |
| LogViewer.LogViewerPanel.InitLevelPopup | src/ca/cgjennings/apps/arkham/plugins/LogViewerPanel.java:81-97 | the items are Off, Severe, Warning, Info, Config, Fine, All in that order, with the specified item checked |
| LogViewer.LogViewerPanel.CreateItems | src/ca/cgjennings/apps/arkham/plugins/LogViewerPanel.java:90-96 | creating the items in turn lists them in order, with the last item whose rule held checked |
| LogViewer.LogViewerPanel.UpdateLog | src/ca/cgjennings/apps/arkham/plugins/LogViewerPanel.java:62-79 | document, buffLen and exception are those of one poll |
| LogViewer.LogViewerPanel.WindowShown | src/ca/cgjennings/apps/arkham/plugins/LogViewerPanel.java:50-53 | one poll, then the poll timer runs |
| LogViewer.LogViewerPanel.WindowHidden | src/ca/cgjennings/apps/arkham/plugins/LogViewerPanel.java:56-58 | the poll timer stops |
| LogViewer.LogViewerPanel.PollTick | src/ca/cgjennings/apps/arkham/plugins/LogViewerPanel.java:42-47 | a running timer polls once; a stopped one changes nothing |
| CharsetOrder.SpecialRank | src/ca/cgjennings/apps/arkham/plugins/ChangeEncodingDialog.java:133-144 | the index 0..3 of an exact match among the four special names, and 1000000 exactly for every other name |
| CharsetOrder.SpecialPosition | src/ca/cgjennings/apps/arkham/plugins/ChangeEncodingDialog.java:137-144 | the search loop returns the specified position |
| CharsetOrder.CompareIgnoreCaseNegates | src/ca/cgjennings/apps/arkham/plugins/ChangeEncodingDialog.java:118 | swapping the names negates compareToIgnoreCase |
| CharsetOrder.CompareIgnoreCaseZero | src/ca/cgjennings/apps/arkham/plugins/ChangeEncodingDialog.java:118 | compareToIgnoreCase is 0 exactly for names equal ignoring case |
| CharsetOrder.CompareIgnoreCaseTransitive | src/ca/cgjennings/apps/arkham/plugins/ChangeEncodingDialog.java:118 | compareToIgnoreCase is transitive |
| CharsetOrder.Compare | src/ca/cgjennings/apps/arkham/plugins/ChangeEncodingDialog.java:109-119 | different special positions order by position; equal ones by name ignoring case |
| CharsetOrder.SpecialsFirst | src/ca/cgjennings/apps/arkham/plugins/ChangeEncodingDialog.java:115-117 | every special charset sorts before every other charset |
| CharsetOrder.CompareNegates | src/ca/cgjennings/apps/arkham/plugins/ChangeEncodingDialog.java:109-119 | the comparator is antisymmetric |
| CharsetOrder.CompareTransitive | src/ca/cgjennings/apps/arkham/plugins/ChangeEncodingDialog.java:109-119 | the comparator is transitive |
| CharsetOrder.CompareReflexive | src/ca/cgjennings/apps/arkham/plugins/ChangeEncodingDialog.java:109-119 | every name compares equal to itself |
| CharsetOrder.Insert | src/ca/cgjennings/apps/arkham/plugins/ChangeEncodingDialog.java:121 | TreeSet.add keeps every element and adds only the new one |
| CharsetOrder.InsertCovers | src/ca/cgjennings/apps/arkham/plugins/ChangeEncodingDialog.java:121 | after add, the set holds the element or one comparing equal to it |
| CharsetOrder.InsertKeepsOrder | src/ca/cgjennings/apps/arkham/plugins/ChangeEncodingDialog.java:121 | add keeps the set strictly increasing |
| CharsetOrder.TreeOf | src/ca/cgjennings/apps/arkham/plugins/ChangeEncodingDialog.java:121 | addAll holds only available charsets |
| CharsetOrder.TreeOfCovers | src/ca/cgjennings/apps/arkham/plugins/ChangeEncodingDialog.java:121 | every available charset is listed or has an equal-comparing entry |
| CharsetOrder.TreeOfIncreasing | src/ca/cgjennings/apps/arkham/plugins/ChangeEncodingDialog.java:109-121 | the set is strictly increasing under the comparator |
| CharsetOrder.TreeOfKeepsDistinct | src/ca/cgjennings/apps/arkham/plugins/ChangeEncodingDialog.java:121 | when no two available names compare equal, every one is listed |
| CharsetOrder.Keep | src/ca/cgjennings/apps/arkham/plugins/ChangeEncodingDialog.java:122-124 | removeIf(!canEncode) keeps exactly the encodable elements |
| CharsetOrder.KeepIncreasing | src/ca/cgjennings/apps/arkham/plugins/ChangeEncodingDialog.java:122-124 | filtering keeps the order |
| CharsetOrder.CharsetListProperties | src/ca/cgjennings/apps/arkham/plugins/ChangeEncodingDialog.java:106-131 | the list is strictly increasing and holds only available charsets; with mustSupportEncoding only and all encodable ones of the set; without it every available charset is covered |
| CharsetOrder.AddAll | src/ca/cgjennings/apps/arkham/plugins/ChangeEncodingDialog.java:121 | one add per available charset builds the specified set |
| CharsetOrder.RemoveUnencodable | src/ca/cgjennings/apps/arkham/plugins/ChangeEncodingDialog.java:122-124 | the loop removes exactly what the filter removes |
| CharsetOrder.CopyToModel | src/ca/cgjennings/apps/arkham/plugins/ChangeEncodingDialog.java:126-128 | copying the set into the list model keeps every element in order |
| CharsetOrder.CreateCharsetModel | src/ca/cgjennings/apps/arkham/plugins/ChangeEncodingDialog.java:106-131 | the model is the specified charset list |
| ChangeEncodingAction.Label | src/ca/cgjennings/apps/arkham/plugins/ChangeEncodingAction.java:20-25 | the action name followed by "…" |
| ChangeEncodingAction.FirstMatch | src/ca/cgjennings/apps/arkham/plugins/ChangeEncodingAction.java:46-50 | the first type, in declaration order, claiming the extension, or none when no type does |
| ChangeEncodingAction.GuessedType | src/ca/cgjennings/apps/arkham/plugins/ChangeEncodingAction.java:43-53 | null for a null file; otherwise the first type, in order, whose extension is the file's, or null when none matches |
| ChangeEncodingAction.GuessCodeType | src/ca/cgjennings/apps/arkham/plugins/ChangeEncodingAction.java:43-53 | the search loop returns the specified guess |
| ChangeEncodingAction.AppliesToMeaning | src/ca/cgjennings/apps/arkham/plugins/ChangeEncodingAction.java:36-41 | the action applies exactly to a non-null member whose file has a known extension |
| ChangeEncodingDialog.SelectedCharset | src/ca/cgjennings/apps/arkham/plugins/ChangeEncodingDialog.java:98-101 | UTF-8 without a selection, the selection otherwise |
| ChangeEncodingDialog.ShowInfo | src/ca/cgjennings/apps/arkham/plugins/ChangeEncodingDialog.java:450-458 | the label shows the text, isShowingError is the flag, save is enabled exactly when there is no error, and nothing else changes |
| ChangeEncodingDialog.SelectValue | src/ca/cgjennings/apps/arkham/plugins/ChangeEncodingDialog.java:82-83 | the charset is selected when the list holds it; otherwise the previous selection stays, since selecting index -1 is ignored |
| ChangeEncodingDialog.ChooseCharset | src/ca/cgjennings/apps/arkham/plugins/ChangeEncodingDialog.java:76-80 | the given charset, else the guessed code type's, else UTF-8 |
| ChangeEncodingDialog.CheckOutput | src/ca/cgjennings/apps/arkham/plugins/ChangeEncodingDialog.java:387-402 | no file: nothing; otherwise the incompatibility error exactly when the output charset cannot encode |
| ChangeEncodingDialog.ReadTextAsWritten | src/ca/cgjennings/apps/arkham/plugins/ChangeEncodingDialog.java:146-190 | no file: nothing; missing bytes: NullPointerException; otherwise save is enabled exactly when the strict decode succeeded, and a failed decode shows its error |
| ChangeEncodingDialog.SaveEnabledWhileErrorShown | src/ca/cgjennings/apps/arkham/plugins/ChangeEncodingDialog.java:160-189 | a decodable file whose text the output charset cannot encode shows the error with save enabled |
| ChangeEncodingDialog.ReadText | src/ca/cgjennings/apps/arkham/plugins/ChangeEncodingDialog.java:146-190 | corrected: save is enabled exactly when decoding succeeded and the output can encode, and it keeps matching the error state |
| ChangeEncodingDialog.ReadTextDiffersOnlyInSave | src/ca/cgjennings/apps/arkham/plugins/ChangeEncodingDialog.java:189 | the corrected read differs from the code as written only in the save button |
| ChangeEncodingDialog.LoadFile | src/ca/cgjennings/apps/arkham/plugins/ChangeEncodingDialog.java:63-94 | no file: an error with the bare title; unreadable: no bytes, the read error, bare title; readable: bytes, no error, each list selects the chosen charset when it holds it and keeps its previous selection otherwise, title with the file name |
| ChangeEncodingDialog.SetFileAsWritten | src/ca/cgjennings/apps/arkham/plugins/ChangeEncodingDialog.java:63-96 | the dialog's file is always the file passed in |
| ChangeEncodingDialog.UnreadableFileThrows | src/ca/cgjennings/apps/arkham/plugins/ChangeEncodingDialog.java:84-95 | an unreadable file stays set without bytes, and the final read throws |
| ChangeEncodingDialog.SetFile | src/ca/cgjennings/apps/arkham/plugins/ChangeEncodingDialog.java:63-96 | corrected: a file always has bytes and save matches the error; an unreadable file is dropped with the read error shown |
| ChangeEncodingDialog.EncodingDialog.constructor | src/ca/cgjennings/apps/arkham/plugins/ChangeEncodingDialog.java:43-47 | both lists built (the output list encodable only) with their first entries selected |
| ChangeEncodingDialog.EncodingDialog.SetInfoText | src/ca/cgjennings/apps/arkham/plugins/ChangeEncodingDialog.java:450-458 | the dialog becomes ShowInfo of its old state |
| ChangeEncodingDialog.EncodingDialog.OutEncodingListValueChanged | src/ca/cgjennings/apps/arkham/plugins/ChangeEncodingDialog.java:387-402 | the dialog becomes CheckOutput of its old state |
| ChangeEncodingDialog.EncodingDialog.ReadTextWithEncoding | src/ca/cgjennings/apps/arkham/plugins/ChangeEncodingDialog.java:146-190 | state and exception are those of the read as written |
| ChangeEncodingDialog.EncodingDialog.SetFile | src/ca/cgjennings/apps/arkham/plugins/ChangeEncodingDialog.java:63-96 | state and exception are those of setFile as written |
| MemoryGraph.Shift | src/ca/cgjennings/apps/arkham/plugins/MemoryGraph.java:130-137 | same length, the oldest value drops out, the sample comes last |
| MemoryGraph.FeedKeepsRecent | src/ca/cgjennings/apps/arkham/plugins/MemoryGraph.java:129-137 | after any run of samples the buffer holds the most recent 60 values |
| MemoryGraph.GcTick | src/ca/cgjennings/apps/arkham/plugins/MemoryGraph.java:201-209 | a tick counts up and stops the timer on the tick where the count is 3 |
| MemoryGraph.GcClick | src/ca/cgjennings/apps/arkham/plugins/MemoryGraph.java:193-199 | a click while a collection runs is ignored; otherwise the timer starts at 0 |
| MemoryGraph.GcRunsFourTicks | src/ca/cgjennings/apps/arkham/plugins/MemoryGraph.java:199-212 | a started collection runs exactly four ticks, then the timer is gone |
| MemoryGraph.MemoryGraph.constructor | src/ca/cgjennings/apps/arkham/plugins/MemoryGraph.java:54-55 | 60 zero samples and maximum 0 |
| MemoryGraph.MemoryGraph.Roll | src/ca/cgjennings/apps/arkham/plugins/MemoryGraph.java:152-156 | slot i-1 takes the old slot i for i in 1..59; the last slot is unchanged |
| MemoryGraph.MemoryGraph.TakeSample | src/ca/cgjennings/apps/arkham/plugins/MemoryGraph.java:129-140 | the buffer becomes the shifted one ending with the sample; the maximum is the larger of old maximum and sample; every entry stays at most the maximum; the cached shape is dropped |
| MemoryGraph.MemoryGraph.MouseClicked | src/ca/cgjennings/apps/arkham/plugins/MemoryGraph.java:193-213 | the timer becomes GcClick of the old one |
| MemoryGraph.MemoryGraph.ClickTimerTick | src/ca/cgjennings/apps/arkham/plugins/MemoryGraph.java:201-209 | the timer becomes GcTick of the old one |
| CacheManager.SelectedValue | src/ca/cgjennings/apps/arkham/plugins/CacheManagerPanel.java:88 | the selected entry exactly when the index is in range |
| CacheManager.FirstIndex | src/ca/cgjennings/apps/arkham/plugins/CacheManagerPanel.java:80 | setSelectedValue finds the first position of the value, or -1 exactly when it is absent |
| CacheManager.Reloaded | src/ca/cgjennings/apps/arkham/plugins/CacheManagerPanel.java:58-84 | the same metrics change nothing; otherwise the list becomes the metrics, the previous selection is kept when still listed, else index 0 (or none for an empty list) |
| CacheManager.ReloadIdempotent | src/ca/cgjennings/apps/arkham/plugins/CacheManagerPanel.java:58-84 | reloading twice from the same registry list equals reloading once |
| CacheManager.TickCounter | src/ca/cgjennings/apps/arkham/plugins/CacheManagerPanel.java:116-119 | the counter stays in 0..9; it reloads exactly when it was 9, then restarts at 0 |
| CacheManager.TickSchedule | src/ca/cgjennings/apps/arkham/plugins/CacheManagerPanel.java:111-122 | n visible ticks from a fresh counter reload the list n / 10 times |
| CacheManager.CacheManagerPanel.constructor | src/ca/cgjennings/apps/arkham/plugins/CacheManagerPanel.java:23-27 | the list loaded from the registry, the first entry selected, the timer stopped with a fresh counter |
| CacheManager.CacheManagerPanel.Reload | src/ca/cgjennings/apps/arkham/plugins/CacheManagerPanel.java:58-84 | list and selection become the specified reload |
| CacheManager.CacheManagerPanel.UpdateCachePanel | src/ca/cgjennings/apps/arkham/plugins/CacheManagerPanel.java:87-105 | no selection: nothing changes; otherwise the labels show the cache, "Unknown" exactly for a negative size, clear enabled exactly when supported |
| CacheManager.CacheManagerPanel.WindowVisible | src/ca/cgjennings/apps/arkham/plugins/CacheManagerPanel.java:48-52 | reload, then every detail label shows the newly selected cache (nothing changes without a selection), and the timer starts with its counter kept |
| CacheManager.CacheManagerPanel.WindowHidden | src/ca/cgjennings/apps/arkham/plugins/CacheManagerPanel.java:54-56 | the timer stops and its counter is kept |
| CacheManager.CacheManagerPanel.Tick | src/ca/cgjennings/apps/arkham/plugins/CacheManagerPanel.java:113-121 | invisible or stopped: nothing changes; otherwise every detail label shows the cache selected before the tick, the counter advances, and on its tenth step restarts and reloads |
| CacheManager.CacheManagerPanel.ClearSelected | src/ca/cgjennings/apps/arkham/plugins/CacheManagerPanel.java:270-275 | clear is called exactly when a cache is selected and supports clearing, and on that cache |
| DevTools.IconPath | src/ca/cgjennings/apps/arkham/plugins/DevToolProxy.java:33-35 | "/resources/cgj/devtools/", the title lower-cased with spaces as '-', then ".png" |
| DevTools.PanelClassName | src/ca/cgjennings/apps/arkham/plugins/DevToolProxy.java:43-45 | the package, '.', the title without spaces, "Panel" |
| DevTools.WindowPrefix | src/ca/cgjennings/apps/arkham/plugins/DevToolProxy.java:88-90 | "devtools-" followed, character by character, by the lower case of the title without spaces |
| DevTools.IconNamedLikeSettings | src/ca/cgjennings/apps/arkham/plugins/DevToolProxy.java:88-90 | for a title without spaces, the icon's file name is the settings key without "devtools-" |
| DevTools.TwoWordTitleNames | src/ca/cgjennings/apps/arkham/plugins/DevToolProxy.java:43-45 | a two-word title names the panel class and the settings key by the words run together |
| DevTools.DefaultBounds | src/ca/cgjennings/apps/arkham/plugins/DevToolProxy.java:72-86 | 500 by 200, the right edge 72 pixels inside the usable area, the top 200 times the multiplier plus 8 below its top |
| DevTools.DefaultWindowsStack | src/ca/cgjennings/apps/arkham/plugins/DevToolProxy.java:79-80 | windows with smaller multipliers line up above without overlapping |
| DevTools.Closed | src/ca/cgjennings/apps/arkham/plugins/DevToolProxy.java:62-70 | unload closes a created window and does nothing when none was created |
| DevTools.DevToolProxy.constructor | src/ca/cgjennings/apps/arkham/plugins/DevToolProxy.java:32-37 | title, multiplier and icon path set, no window yet |
| DevTools.DevToolProxy.CreateWindow | src/ca/cgjennings/apps/arkham/plugins/DevToolProxy.java:40-56 | a missing panel class fails after the bare window is assigned; otherwise body and icon are set, and default bounds apply exactly when stored settings were not applied |
| DevTools.DevToolProxy.ApplyDefaultBounds | src/ca/cgjennings/apps/arkham/plugins/DevToolProxy.java:72-83 | the window is placed at the specified default bounds |
| DevTools.DevToolProxy.Unload | src/ca/cgjennings/apps/arkham/plugins/DevToolProxy.java:62-70 | settings stored under the window prefix and the window closed, exactly when it was created |
| DeveloperToolsPlugin.ToolTitles | src/ca/cgjennings/apps/arkham/plugins/DeveloperTools.java:154-160 | five slots; the first four always present; the last is null exactly when the build is at most 4204 |
| DeveloperToolsPlugin.ViewMenuIndex | src/ca/cgjennings/apps/arkham/plugins/DeveloperTools.java:137-146 | the first menu named "viewMenu", or none exactly when there is none |
| DeveloperToolsPlugin.FindViewMenu | src/ca/cgjennings/apps/arkham/plugins/DeveloperTools.java:137-146 | the search loop returns the specified menu (None standing for the AssertionError) |
| DeveloperToolsPlugin.NewToolWindows | src/ca/cgjennings/apps/arkham/plugins/DeveloperTools.java:162-170 | a fresh five-slot array; slot p is null exactly when the build lacks the tool, otherwise a new distinct proxy for its title with multiplier p; those proxies are tracked |
| DeveloperToolsPlugin.DeveloperTools.constructor | src/ca/cgjennings/apps/arkham/plugins/DeveloperTools.java:72 | not loaded, nothing registered |
| DeveloperToolsPlugin.DeveloperTools.RegisterChangeEncodingAction | src/ca/cgjennings/apps/arkham/plugins/DeveloperTools.java:74-89 | afterwards registered exactly when asked; the registry is called only on a change, and holds at most one action |
| DeveloperToolsPlugin.DeveloperTools.RegisterCatalogTask | src/ca/cgjennings/apps/arkham/plugins/DeveloperTools.java:92-107 | afterwards registered exactly when asked; the registry is called only on a change, and holds at most one task |
| DeveloperToolsPlugin.DeveloperTools.UnregisterRegionBoxes | src/ca/cgjennings/apps/arkham/plugins/DeveloperTools.java:123-132 | menu item and button removed; without a View menu a registered item makes it throw with nothing changed |
| DeveloperToolsPlugin.DeveloperTools.RegisterRegionBoxes | src/ca/cgjennings/apps/arkham/plugins/DeveloperTools.java:111-122 | the old registration is removed first, then exactly one menu item and one button are registered; without a View menu it throws |
| DeveloperToolsPlugin.DeveloperTools.UnregisterToolWindows | src/ca/cgjennings/apps/arkham/plugins/DeveloperTools.java:171-181 | every proxy in the array is untracked and its window closed, then the array is dropped; nothing else changes |
| DeveloperToolsPlugin.DeveloperTools.RegisterToolWindows | src/ca/cgjennings/apps/arkham/plugins/DeveloperTools.java:149-170 | old windows are unloaded first, then a fresh array laid out for the build is installed and tracked |
| DeveloperToolsPlugin.DeveloperTools.ShowPlugin | src/ca/cgjennings/apps/arkham/plugins/DeveloperTools.java:47-61 | a loaded plug-in is left alone; otherwise everything is registered and it becomes loaded, unless the View menu is missing |
| DeveloperToolsPlugin.DeveloperTools.UnloadPlugin | src/ca/cgjennings/apps/arkham/plugins/DeveloperTools.java:64-71 | everything is unregistered and the plug-in is no longer loaded, unless the View menu is missing for a registered menu item |

## Left out

- User-interface layout, renderers, fonts, colours, tooltips, cursors, repaints and `JOptionPane` dialogs are not modelled. They are presentation only.
- `MemoryGraph.paintComponent`, `makeGraph` and `dispose` are not modelled. They are floating-point painting and timer shutdown.
- The commented-out `MemoryMonitor` block is not modelled. It is dead code.
- `MemoryGraph.MemoryGraph.TakeSample`: samples are natural byte counts rather than `double`. The JVM memory bean readings and the two `gc()` calls per click tick are host calls.
- The statistics refresh of the memory panel (`readings.updateStats`) is host glue and is not modelled.
- `CacheManager.CacheManagerPanel.UpdateCachePanel`: the formatted byte and item counts are shown as numbers (`Bytes(n)`). NumberFormat and formatByteSize are host formatting.
- The cache list's own selection listener is not modelled. It only calls updateCachePanel.
- Timers are explicit calls (`Tick`, `PollTick`, `ClickTimerTick`). Real-time scheduling is not modelled.
- The `synchronized` block of updateLog is modelled sequentially.
- The reflective lookup of the log buffer is not modelled. The buffer's text is a parameter.
- Level.parse and the level items' action listener are not modelled. They are host logging configuration.
- Case conversion is ASCII-only. Locale rules for other scripts are not modelled.
- Charset decoding and encoding, `EscapedTextCodec`, the preview text and caret, file reading and writing, the save action, and `FileDrop` are not modelled. Their outcomes are parameters: decode success, encodability and the file's bytes.
- `ChangeEncodingDialog.EncodingDialog.constructor` does not end with setFile; `EncodingDialog.SetFile` models that call.
- `CharsetOrder.CharsetListProperties`: without `mustSupportEncoding`, every available charset is proved listed or covered by an equal-comparing entry. This is no stronger than TreeSet's own guarantee.
- `SettingExplorer.SettingExplorerPanel.SetValueAt`: the closing refreshTable rebuild of the table and the selection change are not part of it; `RefreshTable` models that rebuild as a separate call. The key handling of the table and filter field is not modelled.
- `SettingExplorer.RowEdit`: renaming a row whose value is null throws a NullPointerException at line 633. The model keeps the effect (the row renamed, nothing written) but does not report the exception to the caller.
- `SettingExplorer.SettingExplorerPanel.RefreshTable`: the iteration order of the key set, the host's Settings.get and the table's selection are host behaviour; the order is arbitrary, the values are the `values` parameter, and the selection is the selected key. The listener's move from the old instance to the new one is the listener's test against the shown instance. The selected instance is required to be one of the known instances.
- `SettingExplorer.SettingExplorerPanel.RefreshListener`: the listener's write through setValueAt fires a second property-change event, which is not modelled. That event finds the row already holding the trimmed value and changes nothing.
- The `lastName` label side effects of the settings getters are not modelled.
- The loading of `default.settings` into the Default instance is host storage.
- `SettingExplorer.SettingExplorerPanel.RefreshTree` takes the Default instance's inherited value of the key as a parameter.
- Sorting of the table view is host behaviour. The selected key is a field.
- `SettingExplorer.SettingExplorerPanel.DetermineSettingsForSelection`: the project task and active component are inputs. How the host finds them (the selected task, the active editor) is not modelled.
- `DevTools.DefaultBounds`: the offset multiplier is an integer rather than a `float`. The tool windows use the multipliers 0 to 4, where `(int) (200 * p)` is exact. 32-bit overflow of the coordinates is not modelled.
- `DevTools.DevToolProxy.CreateWindow`: snapToDesktop and the body panel's `onUnload` hook are not modelled. Class.forName and the panel constructor become the set of available panel classes.
- `DeveloperToolsPlugin.DeveloperTools.ShowPlugin`: the expansion-symbol cache warm-up is a host call and is not modelled.
- `DeveloperToolsPlugin.DeveloperTools.UnloadPlugin`: an exception from a host unregister call is not modelled. The `finally` clearing of each field is.
- The window tracking calls are recorded in the `tracked` set. The host's tracking behaviour is not modelled.
- CatToolsTaskType, DefaultSettingsProxy, MemoryUsePanel and MemoryUseProxy are not part of this model. They are file-system I/O, an unused subclass, and widget glue.

## Findings

| source | as written | input that shows it | evidently intended | confidence | as-written member | corrected member |
|---|---|---|---|---|---|---|
| src/ca/cgjennings/apps/arkham/plugins/SettingExplorerPanel.java:395-420 | the listener sends a changed value through the overridden `setValueAt`, which trims it and writes it back to the shown settings | the shown (non-Shared) instance sets a listed key to " w": the stored value becomes "w" | the listener only mirrors the new value in the table | not executed | SettingExplorer.ListenerRewritesTrimmedValue | SettingExplorer.SettingExplorerPanel.RefreshListenerMirrorOnly |
| src/ca/cgjennings/apps/arkham/plugins/ChangeEncodingDialog.java:158-189 | after `outEncodingListValueChanged` reports an incompatible output charset, line 189 re-enables the save button | with a file shown, the user picks an output charset that cannot encode the preview text shown at that moment (the error is shown, save is disabled); then the input charset or the unescape box changes and the new decode succeeds: line 189 enables save while the error is still shown | save stays disabled while that error is shown | not executed | ChangeEncodingDialog.SaveEnabledWhileErrorShown | ChangeEncodingDialog.ReadText |
| src/ca/cgjennings/apps/arkham/plugins/ChangeEncodingDialog.java:84-95 | the read-error handler sets the parameter `file` to null, not the field, so the final read decodes a null byte array | a file that cannot be read: NullPointerException after the error is shown | the dialog forgets the unreadable file and shows the read error | not executed | ChangeEncodingDialog.UnreadableFileThrows | ChangeEncodingDialog.SetFile |
