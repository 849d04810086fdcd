/** The app catalogue (`apps`): category key ("web", "tunnel", and the
    app-group list "groups") to an array of records, each record a JSON
    object with an optional `name`, `plugin_group_id` and `config`. */
module Catalogue {
  import opened Wrappers
  import opened Json
  import opened AppIds
  import opened Maps

  type Record = map<string, Json>
  type Catalogue = map<string, seq<Record>>

  /** The field that binds an app to a plugin group. */
  const GroupKey: string := "plugin_group_id"

  /** `apps[category] && apps[category][index]`: the category exists and the
      index is in range (records are objects, hence truthy). */
  predicate Resolves(apps: Catalogue, category: string, index: Option<nat>) {
    category in apps && index.Some? && index.value < |apps[category]|
  }

  /** The records of a category, `[]` when the category is absent. */
  function Records(apps: Catalogue, category: string): seq<Record> {
    if category in apps then apps[category] else []
  }

  /** Writing one record back in place. */
  function UpdateRecord(apps: Catalogue, category: string, index: nat, rec: Record): (r: Catalogue)
    requires category in apps && index < |apps[category]|
    ensures r.Keys == apps.Keys
    ensures |r[category]| == |apps[category]| && r[category][index] == rec
    ensures OnlyRecordChanged(apps, r, category, index)
    ensures rec == apps[category][index] ==> r == apps
  {
    assert rec == apps[category][index] ==> apps[category][index := rec] == apps[category];
    apps[category := apps[category][index := rec]]
  }

  /** `after` has the shape of `before` and differs from it at most in the
      record at `category`/`index`. */
  predicate OnlyRecordChanged(before: Catalogue, after: Catalogue, category: string, index: nat) {
    && after.Keys == before.Keys
    && (forall c :: c in before ==> |after[c]| == |before[c]|)
    && (forall c, i :: c in before && 0 <= i < |before[c]| && (c != category || i != index) ==>
          after[c][i] == before[c][i])
  }

  /** `applyGroupToCurrentApp` once `currentAppId` is set: resolve the id;
      an unknown app is refused (`None`, "应用不存在"); otherwise a chosen
      group is written to the app's `plugin_group_id`, and the "无插件组"
      choice (empty value) deletes that field. */
  function BindGroup(apps: Catalogue, appId: string, selected: string): (r: Option<Catalogue>)
    ensures var ref := ParseAppId(appId);
      && (r.None? <==> !Resolves(apps, ref.category, ref.index))
      && (r.Some? ==>
            var c := ref.category;
            var i := ref.index.value;
            && OnlyRecordChanged(apps, r.value, c, i)
            && AgreeExcept(apps[c][i], r.value[c][i], GroupKey)
            && (selected != "" ==> Field(r.value[c][i], GroupKey) == Some(Str(selected)))
            && (selected == "" ==> GroupKey !in r.value[c][i]))
  {
    var ref := ParseAppId(appId);
    if !Resolves(apps, ref.category, ref.index) then None
    else
      var rec := apps[ref.category][ref.index.value];
      var rec' := if selected != "" then rec[GroupKey := Str(selected)] else rec - {GroupKey};
      Some(UpdateRecord(apps, ref.category, ref.index.value, rec'))
  }

  /** Binding an app the console listed (id `${category}-${index}`) then
      choosing "无插件组" leaves exactly the record without its binding:
      bind and unbind undo each other on every other field. */
  lemma BindThenUnbind(apps: Catalogue, category: string, index: nat, group: string)
    requires '-' !in category
    requires category in apps && index < |apps[category]|
    requires group != ""
    ensures var id := FormatAppId(category, index);
      BindGroup(apps, id, group).Some? &&
      BindGroup(BindGroup(apps, id, group).value, id, "") ==
        Some(apps[category := apps[category][index := apps[category][index] - {GroupKey}]])
  {
    var id := FormatAppId(category, index);
    ParseFormatRoundTrip(category, index);
    var once := BindGroup(apps, id, group).value;
    var twice := BindGroup(once, id, "").value;
    var expected := apps[category := apps[category][index := apps[category][index] - {GroupKey}]];
    assert twice[category][index] == apps[category][index] - {GroupKey} by {
      assert twice[category][index] == once[category][index] - {GroupKey};
      assert once[category][index] == apps[category][index][GroupKey := Str(group)];
    }
    assert twice[category] == expected[category];
    assert twice == expected;
  }
}
