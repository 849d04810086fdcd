# Plugin manager console: the configuration store

The plugin manager demo is a browser console for editing JSON configuration.
That configuration covers plugins, plugin groups, an app catalogue of web and tunnel apps with their plugin-group bindings, metadata, and (in the second variant) per-app config entries.
Underneath the DOM and editor wiring, each event handler is a state transition on a few global in-memory documents.
This project models those transitions as pure Dafny functions over immutable values and proves what each one changes and what it leaves alone.

Two variants of the page are modelled:

- `demo1/script.js`: one editor each for a plugin, a plugin group, an app's binding and a metadata entry, plus a modal dialog for adding and deleting.
- `demo3/script.js`: one global editor over the whole `groups`, `plugins` or `metadata` document, an app editor over one sub-object (`pluginGroups`, `plugins` or `routes`) of an app's entry in `appConfigs`, and an "unsaved changes" check that guards switching apps.

Modules, one per concept:

| file | module | what it holds |
|---|---|---|
| `wrappers.dfy` | `Wrappers` | `Option` |
| `json.dfy` | `Json` | an abstract JSON value, JavaScript truthiness, property reads |
| `maps.dfy` | `Maps` | "two maps agree except at one key" |
| `text.dfy` | `Text` | `trim` over the ECMAScript white-space set, `includes` |
| `decimal.dfy` | `Decimal` | decimal rendering of an index and `parseInt` on leading digits |
| `app_ids.dfy` | `AppIds` | `${category}-${index}` ids and `split('-')` parsing |
| `catalogue.dfy` | `Catalogue` | the `apps` catalogue, one-record updates, binding a group to one app |
| `bulk_apply.dfy` | `BulkApply` | `applyPluginGroupToSelectedApps`, which both variants share |
| `app_list.dfy` | `AppList` | the search-and-filter predicate of `updateAppList` |
| `app_configs.dfy` | `AppConfigs` | demo3's `appConfigs` entries: find-or-create, defaulting, "configured" |
| `demo1.dfy` | `Demo1` | demo1's store and its save, load and bind handlers |
| `demo1_dialog.dfy` | `Demo1Dialog` | demo1's `confirmDialog`, add and delete |
| `demo3.dfy` | `Demo3` | demo3's store, global save, unsaved check, app editor, load, save, list |

Some values come from outside the model and are passed in as parameters:

- JSON text is parsed by a parameter `parse: string -> Option<Json>`, where `None` stands for a `JSON.parse` exception.
- Lower-casing is a parameter `lower: string -> string`.
- Whatever the user typed or answered (a dialog's input field, the "continue anyway?" prompt, the checked boxes, the dropdown value) is an argument.
- Where a handler shows something in an editor, the model returns it as an `Option<Json>`.

A handler that throws half-way (a `TypeError` inside a `try`, or one that escapes a `forEach`) is modelled by its effect.
It either changes nothing or keeps the writes done before the throw, whichever the code does.

## Model

| member | source | states |
|---|---|---|
| Text.TrimStart | demo1/script.js:823 | drops exactly the leading ECMAScript white space: the result is a suffix that starts with a non-space or is empty |
| Text.TrimEnd | demo1/script.js:823 | drops exactly the trailing white space: the result is a prefix that ends with a non-space or is empty |
| Text.TrimBlank | demo1/script.js:823-828 | a trimmed id is empty exactly when the typed text is all white space |
| Text.TrimKeeps | demo1/script.js:823 | text with no white space at either end is left as it is |
| Text.TrimEnds | demo3/script.js:574 | a non-empty trimmed string begins and ends with a non-space character |
| Text.ContainsPrefix | demo1/script.js:822 | `includes` is monotone under prefixes: text containing `p + q` contains `p` |
| Text.ContainsSelf | demo1/script.js:822 | every title `includes` itself |
| Decimal.NatToString | demo1/script.js:314 | the rendering of an index is a non-empty digit string without a leading zero |
| Decimal.ParseInt | demo1/script.js:410 | `parseInt` gives NaN exactly when the text does not start with a digit |
| Decimal.ParseIntStops | demo1/script.js:410 | `parseInt` reads only the leading digits: whatever follows the first non-digit does not change the number |
| Decimal.ParseIntOfNatToString | demo1/script.js:410 | `parseInt` reads back exactly the index that was rendered |
| Decimal.DigitsValueOfNatToString | demo1/script.js:410 | the rendered digits denote the index |
| AppIds.BeforeDash | demo1/script.js:408-409 | `split('-')[0]` is the longest dash-free prefix |
| AppIds.AfterDash | demo1/script.js:408-410 | the text after the first dash, absent exactly when there is no dash; the id is prefix, dash and rest |
| AppIds.ParseAppId | demo1/script.js:408-410 | the category read from an id is its dash-free prefix, shorter than the id exactly when the id has a dash; an index is read exactly when a digit follows the first dash |
| AppIds.ParseFormatRoundTrip | demo1/script.js:405-411 | parsing an id built as `${category}-${index}` from a dash-free category gives back that category and index |
| AppIds.FormatAppIdInjective | demo1/script.js:314 | distinct (dash-free category, index) pairs get distinct list ids |
| AppIds.BeforeDashStops | demo1/script.js:636 | the category read from `cat-rest` is `cat` whenever `cat` is dash-free |
| AppIds.AfterDashSkips | demo1/script.js:636 | the text after the first dash of `cat-rest` is `rest` |
| Catalogue.BindGroup | demo1/script.js:915-931 | an unresolved id is refused; otherwise only that record's `plugin_group_id` changes, set to a non-empty choice and deleted for the empty one |
| Catalogue.BindThenUnbind | demo1/script.js:924-931 | binding then choosing "无插件组" leaves the record exactly as it was minus its binding |
| BulkApply.MemberRefs | demo1/script.js:635-640 | a group's member list is read up to its first non-string entry, which throws |
| BulkApply.ApplyPluginGroupToSelectedApps | demo1/script.js:589-648 | no group or no selection changes nothing; otherwise the group is written into exactly the records the selection reaches and every other record is unchanged |
| BulkApply.DirectSelectionReached | demo1/script.js:602-615 | with the web or tunnel radio active, nothing throws and the apps reached are exactly the checked ones of that category |
| BulkApply.DirectReached | demo1/script.js:631-640 | targets that all check apps of one category never throw and reach exactly those apps |
| BulkApply.ApplyTargetsReachesExactly | demo1/script.js:631-648 | the in-place loop stamps exactly the records the selection reaches in the catalogue as it was before the first write, and throws exactly when that reading throws |
| BulkApply.ReachedStable | demo1/script.js:631-648 | which apps a selection reaches, and whether it throws, does not depend on any `plugin_group_id`, so writes made by earlier targets do not change what later ones reach |
| BulkApply.StampedSameButBindings | demo1/script.js:638-645 | a bulk apply changes no field other than `plugin_group_id` |
| BulkApply.StampAllSpec | demo1/script.js:635-640 | stamping a member list writes the group into exactly the resolvable members |
| BulkApply.ExpandStable | demo1/script.js:634 | stamping bindings does not change which apps an app-group reaches |
| AppList.Listed | demo1/script.js:296-311 | an app is listed exactly when its name (or default name) matches the search and it passes the filter; indices ascend and stay in range |
| AppList.FilterPartition | demo1/script.js:300-310 | for one search, `configured` and `unconfigured` are disjoint, split the `all` list by the configured flag, and their lengths add up |
| AppList.EmptySearchListsAll | demo3/script.js:774-777 | an empty search with filter `all` lists every app |
| AppList.DisplayName | demo1/script.js:297 | an app with a non-empty string name is listed under it; any other app gets the prefix followed by its position plus one |
| AppList.DefaultNamesDistinct | demo1/script.js:297 | two apps of one list without names of their own never share a display name |
| AppConfigs.FindEntry | demo3/script.js:494 | `find` by id: the first entry with that id, absent exactly when no entry has it |
| AppConfigs.EnsureEntry | demo3/script.js:502-515 | afterwards the id has a first entry; a missing id gets exactly one new fresh entry appended and nothing else changes |
| AppConfigs.PutConfig | demo3/script.js:1192-1212 | the first entry for the id (created if missing) holds the new config; other entries keep place and value; other categories are untouched |
| AppConfigs.ConfigOfPut | demo3/script.js:1190-1211 | after a write, finding the id's config gives back exactly the config written |
| AppConfigs.Overwrite | demo3/script.js:1211-1216 | the current sub-object holds the saved value, or `{}` for a falsy value in one of the three slots; other truthy fields keep their values; the three sub-objects are present afterwards |
| AppConfigs.OverwriteNonEmpty | demo3/script.js:1211-1216 | saving a value with entries into one of the three slots leaves a config with a non-empty sub-object |
| AppConfigs.PutConfigConfigures | demo3/script.js:1190-1211 | writing a config with a non-empty sub-object makes the id configured |
| AppConfigs.PutConfigStable | demo3/script.js:527-540 | writing back the config an entry already holds changes nothing |
| AppConfigs.WithDefaults | demo3/script.js:540-542 | falsy or missing sub-objects become `{}`, truthy ones and other fields keep their values, and all three are present afterwards |
| AppConfigs.WithDefaultsIdempotent | demo3/script.js:540-542 | defaulting a complete config changes nothing, so defaulting twice is defaulting once |
| Demo1.Loaded | demo1/script.js:2-14 | the fetched plugins, groups and apps are kept as given; nothing is selected; the three metadata entries start as `{}` |
| Demo1.LoadedStartsEmpty | demo1/script.js:5-14 | right after loading, each metadata entry opens as `{}` without any change, and with nothing selected the plugin, group and app saves change nothing |
| Demo1.LoadPlugin | demo1/script.js:371-385 | a falsy lookup `plugins[id]` changes nothing; otherwise the id becomes current and the editor shows its own entry, which is truthy |
| Demo1.LoadGroup | demo1/script.js:388-402 | the same for plugin groups |
| Demo1.LoadThenSaveEntryUnchanged | demo1/script.js:371-402 | saving back the text `loadPlugin` or `loadGroup` just showed leaves the store as loading left it |
| Demo1.SavePlugin | demo1/script.js:670-681 | with a selected plugin and parseable text only that plugin's entry is replaced; otherwise nothing changes |
| Demo1.SaveGroup | demo1/script.js:684-698 | the same for the selected plugin group |
| Demo1.SaveMetadata | demo1/script.js:729-739 | parseable text replaces only the current metadata entry; unparseable text changes nothing |
| Demo1.LoadMetadata | demo1/script.js:459-468 | a falsy entry becomes `{}` and a truthy one is left alone; afterwards the entry is truthy and shown; no other entry changes |
| Demo1.LoadMetadataIdempotent | demo1/script.js:459-468 | loading a metadata type twice is loading it once |
| Demo1.SelectMetadataType | demo1/script.js:183-188 | the radio makes the chosen type current and shows its entry, a falsy one as a new `{}`; nothing but that entry and the current type changes |
| Demo1.SelectThenSaveMetadata | demo1/script.js:183-188 | after the radio picks a type, saving writes that type's entry and no other, and saving back the shown text changes nothing |
| Demo1.LoadApp | demo1/script.js:405-456 | an unknown app changes nothing; otherwise the app becomes current and the editor shows its binding (or `""`), or a notice for a tunnel app |
| Demo1.SaveApp | demo1/script.js:701-726 | no change without a current app, on a parse failure, for an unknown app, for a tunnel app, or for `null`; otherwise only `plugin_group_id` changes, to the parsed field when truthy and to `""` otherwise |
| Demo1.LoadThenSaveUnchanged | demo1/script.js:436-446 | saving back what `loadApp` showed for a bound web app changes nothing |
| Demo1.AppRows | demo1/script.js:286-346 | a web or tunnel app is listed exactly when its display name matches the search and its binding passes the filter, in ascending order |
| Demo1.AppRowsPartition | demo1/script.js:336-346 | for both lists, `configured` and `unconfigured` partition the `all` list by the truthiness of `plugin_group_id` |
| Demo1.SaveWithoutBindingIsUnconfigured | demo1/script.js:719 | a web app saved without a truthy binding gets `""` and, if listed, is listed as unconfigured |
| Demo1.ApplyGroupToCurrentApp | demo1/script.js:905-936 | no current app or an unknown one changes nothing and leaves the editor alone; otherwise only that app's binding is set or removed, and the trailing `loadApp` refreshes the editor to the chosen group (`""` after a removal), or to the notice for a tunnel app |
| Demo1.ApplyThenSave | demo1/script.js:905-936 | saving the refreshed text after applying a group to a web app changes nothing; after a removal the same save stores `""`, and the app stays unconfigured |
| Demo1Dialog.AddPlugin | demo1/script.js:823-840 | a blank id, or one whose lookup is truthy (a truthy own entry or a name every object inherits), is refused with no change; otherwise only `plugins[id] = {conf: {}}` is added, it becomes current, and the dialog closes |
| Demo1Dialog.AddGroup | demo1/script.js:842-859 | the same checks for groups, inherited names included; a new group `[]` is added and selected |
| Demo1Dialog.InheritedNamesRefused | demo1/script.js:830-848 | `constructor` is refused as a plugin id and `toString` as a group id even when the store has no such key |
| Demo1Dialog.AddGroupBranchUnreachable | demo1/script.js:822-841 | the add-group branch is never taken, because its title contains the add-plugin title |
| Demo1Dialog.ConfirmDialogAsWritten | demo1/script.js:818-867 | as written, no confirmation adds or changes a plugin group, and a message dialog without a callback just closes |
| Demo1Dialog.AddGroupDialogAsWrittenDoesNothing | demo1/script.js:818-867 | as written, confirming the add-group dialog changes nothing and leaves it open, whatever was typed |
| Demo1Dialog.RouteAgreesOffAddGroup | demo1/script.js:822-863 | moving the group test first changes the routing of add-group titles and nothing else |
| Demo1Dialog.ConfirmDialog | demo1/script.js:818-867 | the corrected dialog behaves as written on every title without "新增插件组" |
| Demo1Dialog.ConfirmDialogAddsGroup | demo1/script.js:841-859 | with the correction, a fresh non-blank id adds an empty group under the trimmed id, and the plugin dialog still adds plugins |
| Demo1Dialog.DeletePlugin | demo1/script.js:742-757 | a confirmed delete removes exactly the current plugin's key and clears the selection; otherwise nothing changes |
| Demo1Dialog.DeleteGroup | demo1/script.js:760-775 | the same for the current plugin group |
| Demo1Dialog.DeleteTitlesAreNotAdds | demo1/script.js:860-863 | delete dialogs reach the callback branch |
| Demo3.Loaded | demo3/script.js:641-714 | the fetched plugins, groups, apps and app configs are kept as given; metadata starts as `{}`; nothing is selected; a failed config fetch leaves empty `web` and `tunnel` lists |
| Demo3.LoadedOpensGroups | demo3/script.js:146-149 | right after loading nothing is unsaved by either check, and the first `loadGlobalConfig('plugin-group')` opens the groups document, or `{}` when it is falsy, without asking |
| Demo3.SaveGlobalConfig | demo3/script.js:106-131 | parseable text replaces only the document the editor is on; unparseable text or no known document changes nothing |
| Demo3.GlobalUnsavedCases | demo3/script.js:384-411 | unparseable text is unsaved; text equal to the stored document is not; different text is unsaved whenever the stored document is truthy |
| Demo3.SavedGlobalIsClean | demo3/script.js:106-131 | right after a global save the global editor has nothing unsaved |
| Demo3.LoadGlobalConfig | demo3/script.js:16-104 | the open key does nothing; a refused prompt over unsaved changes does nothing; otherwise exactly the key changes and the editor shows the document, or `{}` for a falsy one or an unknown key |
| Demo3.LoadedGlobalIsClean | demo3/script.js:16-104 | right after a document is opened, its unedited text is not unsaved |
| Demo3.ResetGlobalConfigAsWrittenDoesNothing | demo3/script.js:610 | as written, the global reset button changes nothing and leaves the typed text in place |
| Demo3.ResetGlobalConfig | demo3/script.js:610 | the corrected reset shows something exactly when a document is open, changes no state, and shows the open document when it is truthy and `{}` otherwise, as `loadGlobalConfig` shows it |
| Demo3.ResetGlobalConfigIsClean | demo3/script.js:610 | after the corrected reset, the text shown is not unsaved, whatever had been typed |
| Demo3.AppUnsavedAsWrittenMissesEdits | demo3/script.js:366-381 | as written, an edit that still parses is never reported for the app editor, while the corrected check reports it |
| Demo3.AppUnsavedAsWrittenIsWeaker | demo3/script.js:366-381 | the written app check reports only what the corrected one reports, and misses only parseable edits that differ from the stored sub-object |
| Demo3.AppUnsavedAsWrittenOnlyParseFailures | demo3/script.js:364-381 | the written check looks the app up by the whole id, finds an array or nothing, never reads a `config`, and so reports exactly the texts that fail to parse |
| Demo3.AppUnsavedCases | demo3/script.js:366-381 | the corrected check: unparseable text is unsaved; text equal to the stored sub-object is not; different text is unsaved when that sub-object is truthy; with nothing stored only a parse failure counts |
| Demo3.UpdateAppEditorContent | demo3/script.js:484-548 | no current app or an unknown one changes nothing and shows nothing; otherwise only the catalogue and the app configs change |
| Demo3.UpdateAppEditorContentFills | demo3/script.js:502-540 | the first entry holds a complete config that keeps the old truthy fields; a missing entry is created once and never duplicated; other categories' entries are unchanged |
| Demo3.UpdateAppEditorContentRecord | demo3/script.js:541-548 | the record's `config` becomes the entry's config; the record's other fields and every other record are unchanged; that config's current sub-object is shown |
| Demo3.UpdateOnce | demo3/script.js:484-548 | afterwards the same app is current and known, and its first entry and its record both hold the defaulted config |
| Demo3.UpdateAppEditorContentIdempotent | demo3/script.js:484-548 | calling it again changes nothing further |
| Demo3.ShownContentIsClean | demo3/script.js:548 | right after the editor is filled, its unedited text is not unsaved by the corrected check |
| Demo3.LoadApp | demo3/script.js:860-925 | same id, a refused prompt over changes the written check sees, or a missing web app changes nothing; otherwise the id becomes current, only the catalogue and app configs may also change, and the editor is filled exactly when the id itself names a known app |
| Demo3.LoadAppAsWrittenDropsEdits | demo3/script.js:860-877 | as written, with a parseable edit over `web-0`, clicking `web-1` switches without asking although the corrected check sees the edit; the corrected `loadApp` keeps the store |
| Demo3.LoadAppCorrected | demo3/script.js:860-877 | with the corrected check, a switch the user did not agree to never leaves an unsaved edit behind |
| Demo3.SelectWebApp | demo3/script.js:888-921 | the id becomes current; a web record without a truthy `config` gets a fresh one, after which it has a truthy `config`; no other record or store field changes |
| Demo3.SelectedWebAppShows | demo3/script.js:888-924 | selecting web app `i` under an id that reads as `web-i` and filling the editor leaves a complete first entry that the record's `config` mirrors |
| Demo3.LoadAppShowsApp | demo3/script.js:877-924 | clicking a listed web app when the written check does not stand in the way selects it and fills the editor from a complete first entry that the record's `config` mirrors |
| Demo3.SaveApp | demo3/script.js:1173-1229 | no change without a current known app, on a parse failure, for a tunnel app, or for an entry without config; otherwise only the app's category of `appConfigs` changes |
| Demo3.SaveAppStores | demo3/script.js:1192-1216 | the first entry ends up holding the parsed value under the current sub-object, keeps its other sub-objects and fields, has all three sub-objects, is never duplicated, and every other entry is unchanged |
| Demo3.SavedAppIsClean | demo3/script.js:1211 | right after saving a truthy value, the app editor is not unsaved |
| Demo3.ApplyGroupToCurrentApp | demo3/script.js:1408-1439 | no current app or an unknown one changes nothing; otherwise only that app's binding is set or removed |
| Demo3.WebAppRows | demo3/script.js:764-805 | a web app is listed exactly when its display name matches the trimmed search and its entry passes the filter, in ascending order |
| Demo3.ResetAppAsWrittenDoesNothing | demo3/script.js:585 | as written, the app reset button changes nothing and leaves the typed text in place |
| Demo3.ResetApp | demo3/script.js:585 | the corrected reset refills the editor exactly when a known app is current, keeping the current app and changing only the catalogue and app configs |
| Demo3.ResetAppIsClean | demo3/script.js:585 | after the corrected reset, the text shown is not unsaved, whatever had been typed |
| Demo3.SwitchTab | demo3/script.js:178-252 | with unsaved changes by the written check a refusal changes nothing, and an unknown tab changes nothing; otherwise the chosen tab opens. A confirmed switch to the global tab over unsaved changes, with a truthy document open, leaves the stored document in the global editor |
| Demo3.ResetEditors | demo3/script.js:255-311 | the global editor gets the open document back exactly when it is recognised and truthy; the app editor never gets anything, because `apps[currentAppId]` has no `config` |
| Demo3.SwitchTabDiscardsGlobalEdit | demo3/script.js:192-221 | confirming a switch to the global tab over unsaved global text puts the stored document back, and nothing is reported as unsaved afterwards by either check |
| Demo3.OpenGlobalTab | demo3/script.js:213-221 | the current app is forgotten; with no document open `plugin-group` opens, otherwise nothing else changes |
| Demo3.OpenAppTab | demo3/script.js:222-250 | the open document is forgotten; a current app is refilled, or the first web app is opened when none is current and the list is not empty |
| Demo3.SwitchTabIsolatesEditors | demo3/script.js:211-223 | after a switch, nothing typed in the other tab's editor can be reported as unsaved |
| Demo3.SwitchToAppTabShowsFirstApp | demo3/script.js:225-231 | opening the app tab with no app current shows `web-0`, and that text is not unsaved |
| Demo3.WebAppRowsPartition | demo3/script.js:784-805 | for one search, `configured` and `unconfigured` partition the `all` list by that notion |
| Demo3.SaveConfigures | demo3/script.js:1211-1216 | saving a value with entries into a sub-object makes the app's first entry count as configured |
| Demo3.SaveMakesConfigured | demo3/script.js:1211-1221 | saving a non-empty value into a sub-object makes the web app configured, so wherever it is listed it is listed as configured |

## Left out

- DOM building, list highlighting, Monaco calls, titles and toasts: none of it changes the store.
- `requestAnimationFrame` and `setTimeout`: a deferred step is applied at once. `Demo3.SwitchTab` includes the part of `performTabSwitch` that runs a frame later.
- `fetch` in `loadData` and `localStorage.setItem`: loading is the initial store built from given documents, and persistence is not modelled.
- Demo3's two timers after loading, `loadGlobalConfig('plugin-group')` and `loadApp('web-0', 'web', 0)`, are not sequenced with the rest. `Demo3.LoadedOpensGroups` and `Demo3.LoadAppShowsApp` cover those calls.
- Demo3's `beforeunload` prompt: leaving the page is outside the model.
- The asynchronous `checkUnsavedChanges` prompt: the user's answer is the boolean `proceed`. In demo3 the prompt is a `showDialog('确认操作', 'confirm', ...)` message dialog. Its confirm button runs demo3's `confirmDialog`, whose title tests fail and which then runs the callback that resolves the prompt with `true`. Its cancel button resolves with `false`, and closing it with the cross leaves the prompt pending. Both change nothing, like `proceed == false`.
- The delete dialogs: the user's answer is the boolean `confirmed`.
- `JSON.parse` and `JSON.stringify` are not modelled. `parse` is a parameter, and an editor's text is whatever string it holds.
- Demo3.AppUnsaved: compares JSON values structurally rather than their `JSON.stringify` output. Two objects with the same fields in a different insertion order count as equal here but not in the code.
- Unicode `toLowerCase` is not modelled; it is the parameter `lower`.
- `parseInt` reads only leading ASCII digits here. Leading white space, a sign, `0x` prefixes and `NaN` arithmetic are not modelled. A non-numeric index never resolves, which is what the code's truthiness checks do with `NaN`.
- Numbers are integers: JSON floating point is not modelled.
- Catalogue categories are arrays of object records, and a record's `config` is an object when present. Other shapes, such as a non-array `apps.web`, are not modelled.
- `appConfigs` entries are `ConfigEntry(id, config)` with a string id and an object or absent `config`. The code also meets a non-string `id`, which never equals the current id, and a `null` entry, whose `c.id` read throws inside `find`. It also meets a truthy non-object `config`, such as `5`, which the defaulting does not turn into an object. None of these is modelled.
- The editors are assumed to exist; the `!appEditor` and `!globalConfigEditor` guards are not modelled.
- Demo3's copies of `savePlugin`, `saveGroup`, `loadPlugin`, `loadGroup`, `deletePlugin`, `deleteGroup`, `saveMetadata` and `loadMetadata` are left out. They refer to editors and variables that file never declares, and no listener there reaches them. The same holds for the add branches of demo3's `confirmDialog`, since demo3 never opens an add dialog.
- Demo3.SwitchTab: on a switch to the app tab, the document `resetEditorsToOriginalState` writes into the global editor is not returned. The switch closes the document, so no check reads that editor, and the next opening of a document overwrites it.
- Demo3.OpenAppTab: with no web app, the code writes a hint comment into the app editor. That hint is not JSON, so the model returns no editor value.
- The global config list's click handler sets `currentGlobalConfig` again after `loadGlobalConfig` has set it to the same key, so `Demo3.LoadGlobalConfig` covers it.
- The add operations set the current plugin or group directly, which is the store effect of the `loadPlugin` or `loadGroup` call they end with (`Demo1.LoadPlugin`, `Demo1.LoadGroup`).
- Objects are maps with own keys only, except in the lookups `plugins[id]` and `groups[id]` of `Demo1Dialog.AddPlugin`, `Demo1Dialog.AddGroup`, `Demo1.LoadPlugin` and `Demo1.LoadGroup`. Those count the names every object inherits, such as `constructor`. Elsewhere the keys come from the page's own lists and fixed names.
- AppList.DisplayName: names are strings or absent. The code shows a truthy non-string name, such as `5`, as it is, and under a non-empty search its `toLowerCase` call throws and stops the list part-way. Here such a name falls back to the numbered default.
- Demo3.GlobalUnsavedCases: compares JSON values structurally, as `Demo3.AppUnsaved` does. A changed document is reported only when the stored one is truthy, because the code skips the comparison when the stored document is falsy, so a stored `null` or `0` never counts as changed.

## Findings

| source | as written | input that shows it | evidently intended | confidence | as-written member | corrected member |
|---|---|---|---|---|---|---|
| demo1/script.js:822-841 | `confirmDialog` tests `includes('新增插件')` before `includes('新增插件组')` | confirming the "新增插件组" dialog with id `g`: the plugin branch reads the missing `plugin-id` input and throws, so no group is added | test the group title first, so the add-group dialog adds group `g` | high (not executed) | Demo1Dialog.ConfirmDialogAsWritten, Demo1Dialog.AddGroupDialogAsWrittenDoesNothing | Demo1Dialog.ConfirmDialog, Demo1Dialog.ConfirmDialogAddsGroup |
| demo3/script.js:366-381 | the app branch of `hasUnsavedChanges` looks the app up as `apps[currentAppId]`, which is keyed by category, so `app.config` is never found | app `web-0` with stored `pluginGroups` `{}` and editor text `{"g": 1}`: reported as saved, so switching apps drops the edit without a prompt | compare the parsed text with the stored sub-object the editor was filled from | high (not executed) | Demo3.HasUnsavedChangesAsWritten, Demo3.AppUnsavedAsWrittenMissesEdits, Demo3.LoadAppAsWrittenDropsEdits | Demo3.HasUnsavedChanges, Demo3.ShownContentIsClean, Demo3.LoadAppCorrected |
| demo3/script.js:585, demo3/script.js:610 | the reset buttons call `loadApp(currentAppId, ...)` and `loadGlobalConfig(currentGlobalConfig, ...)`, and both return at once when given the entry already shown | edit the shown app or global config, then press its reset button: the edit stays in the editor | reload the stored entry into the editor, discarding the edit | medium (not executed); the intent is read from the buttons' `reset-` ids | Demo3.ResetAppAsWrittenDoesNothing, Demo3.ResetGlobalConfigAsWrittenDoesNothing | Demo3.ResetApp, Demo3.ResetAppIsClean, Demo3.ResetGlobalConfig, Demo3.ResetGlobalConfigIsClean |
