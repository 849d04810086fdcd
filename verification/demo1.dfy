/** The first console variant (demo1/script.js): separate editors for one
    plugin, one plugin group, one app binding and one metadata document,
    over the in-memory state the page keeps in global variables. */
module Demo1 {
  import opened Wrappers
  import opened Json
  import opened Text
  import opened AppIds
  import opened Maps
  import opened Catalogue
  import opened AppList

  /** The page's global state: the fetched `plugins`, `groups` and `apps`
      documents, the metadata object, and what each editor has selected. */
  datatype Store = Store(
    plugins: map<string, Json>,
    groups: map<string, Json>,
    apps: Catalogue,
    metadata: map<string, Json>,
    currentPluginId: Option<string>,
    currentGroupId: Option<string>,
    currentAppId: Option<string>,
    currentMetadataType: string)

  /** The state right after loading: metadata starts as three empty
      objects and the metadata editor shows the `plugin` entry. */
  function Loaded(plugins: map<string, Json>, groups: map<string, Json>, apps: Catalogue): (s: Store)
    ensures s.plugins == plugins && s.groups == groups && s.apps == apps
    ensures s.currentPluginId.None? && s.currentGroupId.None? && s.currentAppId.None?
    ensures forall t :: t in ["plugin", "group", "app"] ==> Field(s.metadata, t) == Some(EmptyObject)
  {
    Store(plugins, groups, apps,
          map["plugin" := EmptyObject, "group" := EmptyObject, "app" := EmptyObject],
          None, None, None, "plugin")
  }

  /** Right after loading, each of the three metadata entries opens as `{}`
      without changing the store, and with nothing selected a save of the
      plugin, group or app editor changes nothing. */
  lemma LoadedStartsEmpty(plugins: map<string, Json>, groups: map<string, Json>, apps: Catalogue,
                          t: string, text: string, parse: string -> Option<Json>)
    requires t == "plugin" || t == "group" || t == "app"
    ensures var s := Loaded(plugins, groups, apps);
      && LoadMetadata(s, t) == (s, EmptyObject)
      && SavePlugin(s, text, parse) == s && SaveGroup(s, text, parse) == s && SaveApp(s, text, parse) == s
  {
    var s := Loaded(plugins, groups, apps);
    assert Field(s.metadata, t) == Some(EmptyObject);
  }

  /** `loadPlugin(id)`: when `plugins[id]` is falsy nothing changes and the
      editor is left alone (`None`). Otherwise the id becomes current and
      the editor shows the entry; an inherited name has no JSON text, so it
      shows nothing. */
  function LoadPlugin(s: Store, pluginId: string): (r: (Store, Option<Json>))
    ensures !TruthyLookup(s.plugins, pluginId) ==> r == (s, None)
    ensures TruthyLookup(s.plugins, pluginId) ==> r.0 == s.(currentPluginId := Some(pluginId))
    ensures r.1.Some? ==> Field(s.plugins, pluginId) == r.1 && Truthy(r.1.value)
  {
    if !TruthyLookup(s.plugins, pluginId) then (s, None)
    else (s.(currentPluginId := Some(pluginId)), Field(s.plugins, pluginId))
  }

  /** `loadGroup(id)`: the same for plugin groups. */
  function LoadGroup(s: Store, groupId: string): (r: (Store, Option<Json>))
    ensures !TruthyLookup(s.groups, groupId) ==> r == (s, None)
    ensures TruthyLookup(s.groups, groupId) ==> r.0 == s.(currentGroupId := Some(groupId))
    ensures r.1.Some? ==> Field(s.groups, groupId) == r.1 && Truthy(r.1.value)
  {
    if !TruthyLookup(s.groups, groupId) then (s, None)
    else (s.(currentGroupId := Some(groupId)), Field(s.groups, groupId))
  }

  /** Saving back the text `loadPlugin` or `loadGroup` just showed changes
      nothing: load and save round-trip. */
  lemma LoadThenSaveEntryUnchanged(s: Store, id: string, text: string, parse: string -> Option<Json>)
    ensures parse(text) == LoadPlugin(s, id).1 ==>
      SavePlugin(LoadPlugin(s, id).0, text, parse) == LoadPlugin(s, id).0
    ensures parse(text) == LoadGroup(s, id).1 ==>
      SaveGroup(LoadGroup(s, id).0, text, parse) == LoadGroup(s, id).0
  {
    if id in s.plugins {
      assert s.plugins[id := s.plugins[id]] == s.plugins;
    }
    if id in s.groups {
      assert s.groups[id := s.groups[id]] == s.groups;
    }
  }

  /** `savePlugin`: with a plugin selected and parseable editor text, the
      parsed value replaces that plugin's entry and nothing else; otherwise
      nothing changes. */
  function SavePlugin(s: Store, text: string, parse: string -> Option<Json>): (r: Store)
    ensures !Selected(s.currentPluginId) || parse(text).None? ==> r == s
    ensures Selected(s.currentPluginId) && parse(text).Some? ==>
      && Field(r.plugins, s.currentPluginId.value) == parse(text)
      && AgreeExcept(s.plugins, r.plugins, s.currentPluginId.value)
      && r == s.(plugins := r.plugins)
  {
    if !Selected(s.currentPluginId) then s
    else
      match parse(text)
      case None => s
      case Some(v) => s.(plugins := s.plugins[s.currentPluginId.value := v])
  }

  /** `saveGroup`: the same for the selected plugin group. */
  function SaveGroup(s: Store, text: string, parse: string -> Option<Json>): (r: Store)
    ensures !Selected(s.currentGroupId) || parse(text).None? ==> r == s
    ensures Selected(s.currentGroupId) && parse(text).Some? ==>
      && Field(r.groups, s.currentGroupId.value) == parse(text)
      && AgreeExcept(s.groups, r.groups, s.currentGroupId.value)
      && r == s.(groups := r.groups)
  {
    if !Selected(s.currentGroupId) then s
    else
      match parse(text)
      case None => s
      case Some(v) => s.(groups := s.groups[s.currentGroupId.value := v])
  }

  /** `saveMetadata`: parseable text replaces the metadata entry of the
      current type; unparseable text changes nothing. */
  function SaveMetadata(s: Store, text: string, parse: string -> Option<Json>): (r: Store)
    ensures parse(text).None? ==> r == s
    ensures parse(text).Some? ==>
      && Field(r.metadata, s.currentMetadataType) == parse(text)
      && AgreeExcept(s.metadata, r.metadata, s.currentMetadataType)
      && r == s.(metadata := r.metadata)
  {
    match parse(text)
    case None => s
    case Some(v) => s.(metadata := s.metadata[s.currentMetadataType := v])
  }

  /** `loadMetadata(type)`: a missing or falsy entry is first set to `{}`;
      the editor then shows the entry. A truthy entry is left alone. */
  function LoadMetadata(s: Store, metadataType: string): (r: (Store, Json))
    ensures TruthyField(r.0.metadata, metadataType) && r.1 == r.0.metadata[metadataType]
    ensures TruthyField(s.metadata, metadataType) ==> r.0 == s
    ensures !TruthyField(s.metadata, metadataType) ==> r.1 == EmptyObject
    ensures AgreeExcept(s.metadata, r.0.metadata, metadataType)
    ensures r.0 == s.(metadata := r.0.metadata)
  {
    var s' := if TruthyField(s.metadata, metadataType) then s
              else s.(metadata := s.metadata[metadataType := EmptyObject]);
    (s', s'.metadata[metadataType])
  }

  /** The metadata-type radio: the chosen type becomes current and is
      loaded, so the editor shows its entry (a falsy one as a new `{}`);
      only that entry and the current type can change. */
  function SelectMetadataType(s: Store, metadataType: string): (r: (Store, Json))
    ensures r.0.currentMetadataType == metadataType
    ensures TruthyField(r.0.metadata, metadataType) && r.1 == r.0.metadata[metadataType]
    ensures TruthyField(s.metadata, metadataType) ==> r.1 == s.metadata[metadataType]
    ensures !TruthyField(s.metadata, metadataType) ==> r.1 == EmptyObject
    ensures AgreeExcept(s.metadata, r.0.metadata, metadataType)
    ensures r.0 == s.(metadata := r.0.metadata, currentMetadataType := metadataType)
  {
    LoadMetadata(s.(currentMetadataType := metadataType), metadataType)
  }

  /** After the radio picks a type, the save button writes that type's
      entry and no other, and saving back the text just shown changes
      nothing. */
  lemma SelectThenSaveMetadata(s: Store, metadataType: string, text: string, parse: string -> Option<Json>)
    ensures var (s1, shown) := SelectMetadataType(s, metadataType);
      && AgreeExcept(s1.metadata, SaveMetadata(s1, text, parse).metadata, metadataType)
      && (parse(text) == Some(shown) ==> SaveMetadata(s1, text, parse) == s1)
  {
    var (s1, shown) := SelectMetadataType(s, metadataType);
    if parse(text) == Some(shown) {
      assert s1.metadata[metadataType := shown] == s1.metadata;
    }
  }

  /** Loading the same metadata type twice is loading it once. */
  lemma LoadMetadataIdempotent(s: Store, metadataType: string)
    ensures LoadMetadata(LoadMetadata(s, metadataType).0, metadataType) == LoadMetadata(s, metadataType)
  {
  }

  /** `app.plugin_group_id || ""`. */
  function BindingOrEmpty(rec: Record): Json {
    if TruthyField(rec, GroupKey) then rec[GroupKey] else Str("")
  }

  /** The text the app editor shows for a tunnel app instead of its
      binding. */
  const TunnelNotice: Json :=
    Obj(map["提示" := Str("隧道应用不支持自定义网关插件，保存无效")])

  /** `loadApp(appId, category, index)`: without a category, both are read
      from the id. An unknown app changes nothing and leaves the editor
      alone (`None`). Otherwise the app becomes current and the editor shows
      `{plugin_group_id: app.plugin_group_id || ""}`, or a notice for a
      tunnel app. */
  function LoadApp(s: Store, appId: string, category: string, index: Option<nat>): (r: (Store, Option<Json>))
    ensures var ref := if category == "" then ParseAppId(appId) else AppRef(category, index);
      && (!Resolves(s.apps, ref.category, ref.index) ==> r == (s, None))
      && (Resolves(s.apps, ref.category, ref.index) ==>
            && r.0 == s.(currentAppId := Some(appId))
            && r.1.Some?
            && (ref.category == "tunnel" ==> r.1.value == TunnelNotice)
            && (ref.category != "tunnel" ==>
                  var rec := s.apps[ref.category][ref.index.value];
                  && r.1.value.Obj? && r.1.value.fields.Keys == {GroupKey}
                  && Truthy(r.1.value.fields[GroupKey]) == TruthyField(rec, GroupKey)
                  && (TruthyField(rec, GroupKey) ==> r.1.value.fields[GroupKey] == rec[GroupKey])
                  && (!TruthyField(rec, GroupKey) ==> r.1.value.fields[GroupKey] == Str(""))))
  {
    var ref := if category == "" then ParseAppId(appId) else AppRef(category, index);
    if !Resolves(s.apps, ref.category, ref.index) then (s, None)
    else
      var rec := s.apps[ref.category][ref.index.value];
      var shown := if ref.category == "tunnel" then TunnelNotice
                   else Obj(map[GroupKey := BindingOrEmpty(rec)]);
      (s.(currentAppId := Some(appId)), Some(shown))
  }

  /** The binding `saveApp` writes: `pluginConfig.plugin_group_id || ""`
      (`None` for a `null` config, whose property read throws). */
  function SavedBinding(config: Json): Option<Json> {
    if config.Null? then None
    else
      match Property(config, GroupKey)
      case Some(v) => Some(if Truthy(v) then v else Str(""))
      case None => Some(Str(""))
  }

  /** `saveApp`: nothing changes when no app is current, the text does not
      parse, the current id names no app, the app is a tunnel app, or the
      parsed value is `null`. Otherwise only the app's `plugin_group_id`
      changes, to the parsed field when truthy and to `""` otherwise. */
  function SaveApp(s: Store, text: string, parse: string -> Option<Json>): (r: Store)
    ensures !Selected(s.currentAppId) || parse(text).None? ==> r == s
    ensures Selected(s.currentAppId) && parse(text).Some? ==>
      var ref := ParseAppId(s.currentAppId.value);
      var config := parse(text).value;
      && (!Resolves(s.apps, ref.category, ref.index) || ref.category == "tunnel" || config.Null? ==> r == s)
      && (Resolves(s.apps, ref.category, ref.index) && ref.category != "tunnel" && !config.Null? ==>
            var c := ref.category;
            var i := ref.index.value;
            && r == s.(apps := r.apps)
            && OnlyRecordChanged(s.apps, r.apps, c, i)
            && AgreeExcept(s.apps[c][i], r.apps[c][i], GroupKey)
            && Field(r.apps[c][i], GroupKey).Some?
            && (TruthyField(r.apps[c][i], GroupKey) <==>
                  config.Obj? && TruthyField(config.fields, GroupKey))
            && (config.Obj? && TruthyField(config.fields, GroupKey) ==>
                  r.apps[c][i][GroupKey] == config.fields[GroupKey])
            && (!(config.Obj? && TruthyField(config.fields, GroupKey)) ==>
                  r.apps[c][i][GroupKey] == Str("")))
  {
    if !Selected(s.currentAppId) then s
    else
      match parse(text)
      case None => s
      case Some(config) =>
        var ref := ParseAppId(s.currentAppId.value);
        if !Resolves(s.apps, ref.category, ref.index) || ref.category == "tunnel" then s
        else
          match SavedBinding(config)
          case None => s
          case Some(binding) =>
            var c := ref.category;
            var i := ref.index.value;
            s.(apps := UpdateRecord(s.apps, c, i, s.apps[c][i][GroupKey := binding]))
  }

  /** Saving the editor content `loadApp` just showed for a bound web app
      changes nothing: load and save round-trip. */
  lemma LoadThenSaveUnchanged(s: Store, index: nat, text: string, parse: string -> Option<Json>)
    requires "web" in s.apps && index < |s.apps["web"]|
    requires TruthyField(s.apps["web"][index], GroupKey)
    requires parse(text) == LoadApp(s, FormatAppId("web", index), "web", Some(index)).1
    ensures var loaded := LoadApp(s, FormatAppId("web", index), "web", Some(index)).0;
      SaveApp(loaded, text, parse) == loaded
  {
    var id := FormatAppId("web", index);
    ParseFormatRoundTrip("web", index);
    var loaded := LoadApp(s, id, "web", Some(index)).0;
    var rec := s.apps["web"][index];
    assert rec[GroupKey := rec[GroupKey]] == rec;
    assert s.apps["web"][index := rec] == s.apps["web"];
    assert s.apps["web" := s.apps["web"]] == s.apps;
  }

  /** After a group is applied to the current web app, saving the text the
      editor was refreshed with changes nothing; after the binding is
      removed, the same save stores an empty binding, which still lists the
      app as unconfigured. */
  lemma ApplyThenSave(s: Store, selected: string, text: string, parse: string -> Option<Json>)
    requires Selected(s.currentAppId)
    requires ParseAppId(s.currentAppId.value).category == "web"
    requires Resolves(s.apps, "web", ParseAppId(s.currentAppId.value).index)
    requires parse(text) == ApplyGroupToCurrentApp(s, selected).1
    ensures var a := ApplyGroupToCurrentApp(s, selected).0;
      var i := ParseAppId(s.currentAppId.value).index.value;
      && (selected != "" ==> SaveApp(a, text, parse) == a)
      && (selected == "" ==>
            && Field(SaveApp(a, text, parse).apps["web"][i], GroupKey) == Some(Str(""))
            && !TruthyField(SaveApp(a, text, parse).apps["web"][i], GroupKey))
  {
    var a := ApplyGroupToCurrentApp(s, selected).0;
    var i := ParseAppId(s.currentAppId.value).index.value;
    var rec := a.apps["web"][i];
    if selected != "" {
      assert rec[GroupKey := rec[GroupKey]] == rec;
      assert a.apps["web"][i := rec] == a.apps["web"];
      assert a.apps["web" := a.apps["web"]] == a.apps;
    }
  }

  /** The rows `updateAppList` renders for the `web` or `tunnel` list. */
  function AppRows(apps: Catalogue, category: string, term: string, filter: string,
                   lower: string -> string): (r: seq<nat>)
    ensures forall i: nat :: i in r <==>
      && i < |Records(apps, category)|
      && MatchesSearch(DisplayName(Records(apps, category)[i], i, if category == "web" then "Web应用" else "隧道应用"),
                       term, lower)
      && PassesFilter(filter, TruthyField(Records(apps, category)[i], GroupKey))
    ensures forall a, b :: 0 <= a < b < |r| ==> r[a] < r[b]
  {
    var recs := Records(apps, category);
    Listed(Names(recs, if category == "web" then "Web应用" else "隧道应用"),
           BoundFlags(recs), term, filter, lower)
  }

  /** demo1's notion of configured: a truthy `plugin_group_id`. */
  function BoundFlags(recs: seq<Record>): (r: seq<bool>)
    ensures |r| == |recs|
    ensures forall i :: 0 <= i < |recs| ==> r[i] == TruthyField(recs[i], GroupKey)
  {
    seq(|recs|, i requires 0 <= i < |recs| => TruthyField(recs[i], GroupKey))
  }

  /** For both lists and any search term, `configured` shows exactly the
      listed apps with a truthy `plugin_group_id`, `unconfigured` exactly the
      rest, and the two together are the `all` list. */
  lemma AppRowsPartition(apps: Catalogue, category: string, term: string, lower: string -> string)
    ensures var all := AppRows(apps, category, term, "all", lower);
      var on := AppRows(apps, category, term, "configured", lower);
      var off := AppRows(apps, category, term, "unconfigured", lower);
      && |on| + |off| == |all|
      && (forall i :: i in on ==> i !in off)
      && (forall i :: i in all <==> i in on || i in off)
      && (forall i: nat :: i in on <==> i in all && TruthyField(Records(apps, category)[i], GroupKey))
      && (forall i: nat :: i in off <==> i in all && !TruthyField(Records(apps, category)[i], GroupKey))
  {
    var recs := Records(apps, category);
    FilterPartition(Names(recs, if category == "web" then "Web应用" else "隧道应用"),
                    BoundFlags(recs), term, lower);
  }

  /** A web app saved from text with no truthy `plugin_group_id` gets `""`
      and therefore shows under `unconfigured` whenever it shows at all. */
  lemma SaveWithoutBindingIsUnconfigured(s: Store, text: string, parse: string -> Option<Json>,
                                         index: nat, term: string, lower: string -> string)
    requires s.currentAppId == Some(FormatAppId("web", index))
    requires "web" in s.apps && index < |s.apps["web"]|
    requires parse(text).Some? && !parse(text).value.Null?
    requires !(parse(text).value.Obj? && TruthyField(parse(text).value.fields, GroupKey))
    ensures var r := SaveApp(s, text, parse);
      Field(r.apps["web"][index], GroupKey) == Some(Str("")) &&
      (index in AppRows(r.apps, "web", term, "all", lower) <==>
         index in AppRows(r.apps, "web", term, "unconfigured", lower))
  {
    ParseFormatRoundTrip("web", index);
    var rec := s.apps["web"][index];
    SavedBindingBlank(parse(text).value);
    var r := SaveApp(s, text, parse);
    assert r.apps == UpdateRecord(s.apps, "web", index, rec[GroupKey := Str("")]);
    AppRowsPartition(r.apps, "web", term, lower);
  }

  /** A non-null config without a truthy `plugin_group_id` saves the
      binding `""`. */
  lemma SavedBindingBlank(config: Json)
    requires !config.Null?
    requires !(config.Obj? && TruthyField(config.fields, GroupKey))
    ensures SavedBinding(config) == Some(Str(""))
  {
  }

  /** `applyGroupToCurrentApp`: with no current app or an unknown one,
      nothing changes and the editor is left alone; otherwise only that
      app's binding is set to the chosen group, or removed for the
      "无插件组" choice, and the trailing `loadApp(currentAppId, category,
      index)` shows the new binding (or the tunnel notice) in the editor. */
  function ApplyGroupToCurrentApp(s: Store, selected: string): (r: (Store, Option<Json>))
    ensures !Selected(s.currentAppId) ==> r == (s, None)
    ensures Selected(s.currentAppId) ==>
      var ref := ParseAppId(s.currentAppId.value);
      && (!Resolves(s.apps, ref.category, ref.index) ==> r == (s, None))
      && (Resolves(s.apps, ref.category, ref.index) ==>
            && r.0 == s.(apps := r.0.apps)
            && OnlyRecordChanged(s.apps, r.0.apps, ref.category, ref.index.value)
            && AgreeExcept(s.apps[ref.category][ref.index.value], r.0.apps[ref.category][ref.index.value], GroupKey)
            && (selected != "" ==> Field(r.0.apps[ref.category][ref.index.value], GroupKey) == Some(Str(selected)))
            && (selected == "" ==> GroupKey !in r.0.apps[ref.category][ref.index.value])
            && (ref.category == "tunnel" ==> r.1 == Some(TunnelNotice))
            && (ref.category != "tunnel" ==> r.1 == Some(Obj(map[GroupKey := Str(selected)]))))
  {
    if !Selected(s.currentAppId) then (s, None)
    else
      var id := s.currentAppId.value;
      match BindGroup(s.apps, id, selected)
      case None => (s, None)
      case Some(apps') =>
        var ref := ParseAppId(id);
        LoadApp(s.(apps := apps'), id, ref.category, ref.index)
  }
}
