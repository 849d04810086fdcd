/** demo1's modal dialog: `showDialog` fills it for adding a plugin, adding
    a plugin group or confirming a delete, and `confirmDialog` decides what
    the confirm button does from the dialog's title. */
module Demo1Dialog {
  import opened Wrappers
  import opened Json
  import opened Text
  import opened Maps
  import opened Demo1

  /** The input `showDialog` puts in the dialog body for its `type`. */
  datatype Form = PluginIdInput | GroupIdInput | MessageOnly

  /** The deferred actions a confirmation dialog carries. */
  datatype Callback = DeletePluginCallback | DeleteGroupCallback

  datatype Dialog = Dialog(title: string, form: Form, callback: Option<Callback>)

  const AddPluginTitle: string := "新增插件"
  const AddGroupTitle: string := "新增插件组"

  /** The dialogs the page opens. */
  const AddPluginDialog: Dialog := Dialog(AddPluginTitle, PluginIdInput, None)
  const AddGroupDialog: Dialog := Dialog(AddGroupTitle, GroupIdInput, None)
  const DeletePluginDialog: Dialog := Dialog("删除插件", MessageOnly, Some(DeletePluginCallback))
  const DeleteGroupDialog: Dialog := Dialog("删除插件组", MessageOnly, Some(DeleteGroupCallback))

  /** Which branch of `confirmDialog` runs. */
  datatype Branch = AddPluginBranch | AddGroupBranch | CallbackBranch | CloseOnly

  /** The branch order as written: the plugin test comes first. */
  function RouteAsWritten(d: Dialog): Branch {
    if Contains(d.title, AddPluginTitle) then AddPluginBranch
    else if Contains(d.title, AddGroupTitle) then AddGroupBranch
    else if d.callback.Some? then CallbackBranch
    else CloseOnly
  }

  /** The add-group branch as written can never run: a title containing
      "新增插件组" also contains its prefix "新增插件", so the plugin branch
      takes it first. */
  lemma AddGroupBranchUnreachable(d: Dialog)
    ensures RouteAsWritten(d) != AddGroupBranch
  {
    if Contains(d.title, AddGroupTitle) {
      assert AddGroupTitle == AddPluginTitle + "组";
      ContainsPrefix(d.title, AddPluginTitle, "组");
    }
  }

  /** The branch order with the longer title tested first. */
  function Route(d: Dialog): Branch {
    if Contains(d.title, AddGroupTitle) then AddGroupBranch
    else if Contains(d.title, AddPluginTitle) then AddPluginBranch
    else if d.callback.Some? then CallbackBranch
    else CloseOnly
  }

  /** The reordering only matters for add-group titles. */
  lemma RouteAgreesOffAddGroup(d: Dialog)
    ensures !Contains(d.title, AddGroupTitle) ==> Route(d) == RouteAsWritten(d)
    ensures Route(AddGroupDialog) == AddGroupBranch
    ensures Route(AddPluginDialog) == AddPluginBranch
  {
    ContainsSelf(AddGroupTitle);
    ContainsSelf(AddPluginTitle);
    ContainsNeedsLength(AddPluginTitle, AddGroupTitle);
  }

  /** The add-plugin branch once the id input has been read: the trimmed id
      must not be blank and `plugins[id]` must not be truthy, which also
      refuses the names every object inherits; a new plugin `{conf: {}}` is
      then added, `loadPlugin` selects it, and the dialog closes. A refusal
      leaves the state alone and the dialog open. */
  function AddPlugin(s: Store, field: string): (r: (Store, bool))
    ensures AllSpace(field) ==> r == (s, false)
    ensures !AllSpace(field) && TruthyLookup(s.plugins, Trim(field)) ==> r == (s, false)
    ensures !AllSpace(field) && !TruthyLookup(s.plugins, Trim(field)) ==>
      var id := Trim(field);
      && r.1
      && Field(r.0.plugins, id) == Some(Obj(map["conf" := EmptyObject]))
      && AgreeExcept(s.plugins, r.0.plugins, id)
      && r.0 == s.(plugins := r.0.plugins, currentPluginId := Some(id))
  {
    TrimBlank(field);
    AddTrimmedPlugin(s, Trim(field))
  }

  /** The add-plugin branch on an id already trimmed. */
  function AddTrimmedPlugin(s: Store, id: string): (r: (Store, bool))
    ensures id == "" || TruthyLookup(s.plugins, id) ==> r == (s, false)
    ensures id != "" && !TruthyLookup(s.plugins, id) ==>
      && r.1
      && Field(r.0.plugins, id) == Some(Obj(map["conf" := EmptyObject]))
      && AgreeExcept(s.plugins, r.0.plugins, id)
      && r.0 == s.(plugins := r.0.plugins, currentPluginId := Some(id))
  {
    if id == "" || TruthyLookup(s.plugins, id) then (s, false)
    else
      // `loadPlugin(id)` then selects the new, truthy entry
      (s.(plugins := s.plugins[id := Obj(map["conf" := EmptyObject])], currentPluginId := Some(id)), true)
  }

  /** The add-group branch: the same checks against `groups`; a new group
      is an empty list, and `loadGroup` selects it. */
  function AddGroup(s: Store, field: string): (r: (Store, bool))
    ensures AllSpace(field) ==> r == (s, false)
    ensures !AllSpace(field) && TruthyLookup(s.groups, Trim(field)) ==> r == (s, false)
    ensures !AllSpace(field) && !TruthyLookup(s.groups, Trim(field)) ==>
      var id := Trim(field);
      && r.1
      && Field(r.0.groups, id) == Some(Arr([]))
      && AgreeExcept(s.groups, r.0.groups, id)
      && r.0 == s.(groups := r.0.groups, currentGroupId := Some(id))
  {
    TrimBlank(field);
    AddTrimmedGroup(s, Trim(field))
  }

  /** The add-group branch on an id already trimmed. */
  function AddTrimmedGroup(s: Store, id: string): (r: (Store, bool))
    ensures id == "" || TruthyLookup(s.groups, id) ==> r == (s, false)
    ensures id != "" && !TruthyLookup(s.groups, id) ==>
      && r.1
      && Field(r.0.groups, id) == Some(Arr([]))
      && AgreeExcept(s.groups, r.0.groups, id)
      && r.0 == s.(groups := r.0.groups, currentGroupId := Some(id))
  {
    if id == "" || TruthyLookup(s.groups, id) then (s, false)
    else
      // `loadGroup(id)` then selects the new, truthy entry
      (s.(groups := s.groups[id := Arr([])], currentGroupId := Some(id)), true)
  }

  /** An inherited name is never added as a plugin or a group, even when
      the store has no such key: the lookup finds the inherited function. */
  lemma InheritedNamesRefused(s: Store)
    requires "constructor" !in s.plugins && "toString" !in s.groups
    ensures AddPlugin(s, "constructor") == (s, false)
    ensures AddGroup(s, "toString") == (s, false)
  {
    assert !IsJsSpace("constructor"[0]) && !IsJsSpace("toString"[0]);
    TrimKeeps("constructor");
    TrimKeeps("toString");
    assert TruthyLookup(s.plugins, "constructor") && TruthyLookup(s.groups, "toString");
    assert AddTrimmedPlugin(s, "constructor") == (s, false);
    assert AddTrimmedGroup(s, "toString") == (s, false);
  }

  /** The delete callbacks: remove the entry the current id names and clear
      the selection. (With no selection `delete plugins[null]` would remove
      the key "null".) */
  function RunCallback(s: Store, cb: Callback): Store {
    match cb
    case DeletePluginCallback =>
      var key := s.currentPluginId.GetOr("null");
      s.(plugins := s.plugins - {key}, currentPluginId := None)
    case DeleteGroupCallback =>
      var key := s.currentGroupId.GetOr("null");
      s.(groups := s.groups - {key}, currentGroupId := None)
  }

  /** `confirmDialog` as written, given the value typed in the dialog's
      input. The result tells whether the dialog closes. The plugin branch
      reads the `plugin-id` input, which only the add-plugin form has; on
      any other form the read throws, so nothing changes and the dialog
      stays open. Since the group branch is never reached, no confirmation
      adds or changes a plugin group; a message dialog without a callback
      just closes. */
  function ConfirmDialogAsWritten(s: Store, d: Dialog, field: string): (r: (Store, bool))
    ensures r.0.groups.Keys <= s.groups.Keys
    ensures forall g :: g in r.0.groups ==> r.0.groups[g] == s.groups[g]
    ensures d.form == MessageOnly && d.callback.None? && !Contains(d.title, AddPluginTitle) ==> r == (s, true)
  {
    AddGroupBranchUnreachable(d);
    match RouteAsWritten(d)
    case AddPluginBranch => if d.form == PluginIdInput then AddPlugin(s, field) else (s, false)
    case AddGroupBranch => if d.form == GroupIdInput then AddGroup(s, field) else (s, false)
    case CallbackBranch => (RunCallback(s, d.callback.value), true)
    case CloseOnly => (s, true)
  }

  /** As written, confirming the add-group dialog never adds a group,
      whatever id was typed, and the dialog stays open. */
  lemma AddGroupDialogAsWrittenDoesNothing(s: Store, field: string)
    ensures ConfirmDialogAsWritten(s, AddGroupDialog, field) == (s, false)
  {
    assert StartsWith(AddGroupTitle, AddPluginTitle);
  }

  /** `confirmDialog` with the add-group test moved first, as the page
      evidently intends; the rest of the model uses this one. */
  function ConfirmDialog(s: Store, d: Dialog, field: string): (r: (Store, bool))
    ensures !Contains(d.title, AddGroupTitle) ==> r == ConfirmDialogAsWritten(s, d, field)
  {
    RouteAgreesOffAddGroup(d);
    match Route(d)
    case AddPluginBranch => if d.form == PluginIdInput then AddPlugin(s, field) else (s, false)
    case AddGroupBranch => if d.form == GroupIdInput then AddGroup(s, field) else (s, false)
    case CallbackBranch => (RunCallback(s, d.callback.value), true)
    case CloseOnly => (s, true)
  }

  /** With the branches reordered, confirming the add-group dialog with a
      fresh, non-blank id adds an empty group under the trimmed id, and the
      add-plugin dialog still adds plugins. */
  lemma ConfirmDialogAddsGroup(s: Store, field: string)
    requires !AllSpace(field) && !TruthyLookup(s.groups, Trim(field))
    ensures ConfirmDialog(s, AddGroupDialog, field).1
    ensures Field(ConfirmDialog(s, AddGroupDialog, field).0.groups, Trim(field)) == Some(Arr([]))
    ensures ConfirmDialog(s, AddPluginDialog, field) == AddPlugin(s, field)
  {
    RouteAgreesOffAddGroup(AddGroupDialog);
  }

  /** `deletePlugin`: with a plugin selected and the deletion confirmed,
      exactly that plugin's key is removed and the selection cleared; a
      missing selection or a cancelled dialog changes nothing. */
  function DeletePlugin(s: Store, confirmed: bool): (r: Store)
    ensures !Selected(s.currentPluginId) || !confirmed ==> r == s
    ensures Selected(s.currentPluginId) && confirmed ==>
      && s.currentPluginId.value !in r.plugins
      && AgreeExcept(s.plugins, r.plugins, s.currentPluginId.value)
      && r == s.(plugins := r.plugins, currentPluginId := None)
  {
    if !Selected(s.currentPluginId) || !confirmed then s
    else
      DeleteTitlesAreNotAdds();
      ConfirmDialog(s, DeletePluginDialog, "").0
  }

  /** `deleteGroup`: the same for the selected plugin group. */
  function DeleteGroup(s: Store, confirmed: bool): (r: Store)
    ensures !Selected(s.currentGroupId) || !confirmed ==> r == s
    ensures Selected(s.currentGroupId) && confirmed ==>
      && s.currentGroupId.value !in r.groups
      && AgreeExcept(s.groups, r.groups, s.currentGroupId.value)
      && r == s.(groups := r.groups, currentGroupId := None)
  {
    if !Selected(s.currentGroupId) || !confirmed then s
    else
      DeleteTitlesAreNotAdds();
      ConfirmDialog(s, DeleteGroupDialog, "").0
  }

  lemma DeleteTitlesAreNotAdds()
    ensures Route(DeletePluginDialog) == CallbackBranch
    ensures Route(DeleteGroupDialog) == CallbackBranch
  {
    var p := DeletePluginDialog.title;
    var g := DeleteGroupDialog.title;
    assert forall k :: 0 <= k < |p| ==> p[k] != '新';
    assert forall k :: 0 <= k < |g| ==> g[k] != '新';
    ContainsNeedsFirst(p, AddGroupTitle);
    ContainsNeedsFirst(p, AddPluginTitle);
    ContainsNeedsFirst(g, AddGroupTitle);
    ContainsNeedsFirst(g, AddPluginTitle);
  }
}
