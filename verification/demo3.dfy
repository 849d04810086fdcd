/** The second console variant (demo3/script.js): one global editor over
    the whole `groups`, `plugins` or `metadata` document, and an app editor
    over one sub-object of an app's entry in `appConfigs`. */
module Demo3 {
  import opened Wrappers
  import opened Json
  import opened Text
  import opened Decimal
  import opened AppIds
  import opened Maps
  import opened Catalogue
  import opened AppList
  import opened AppConfigs

  /** The page's global state. The three global documents are whatever
      JSON the user last saved, not necessarily objects. */
  datatype Store = Store(
    groups: Json,
    plugins: Json,
    metadata: Json,
    apps: Catalogue,
    appConfigs: AppConfigs,
    currentAppId: Option<string>,
    currentGlobalConfig: Option<string>,
    currentAppConfigType: string)

  /** The state after `loadData`: `metadata` is never fetched and stays
      `{}`; when the app-configs fetch fails, `appConfigs` becomes
      `{web: [], tunnel: []}`. */
  function Loaded(plugins: Json, groups: Json, apps: Catalogue, fetched: Option<AppConfigs>): (s: Store)
    ensures s.plugins == plugins && s.groups == groups && s.apps == apps
    ensures fetched.Some? ==> s.appConfigs == fetched.value
    ensures s.currentAppId.None? && s.currentGlobalConfig.None?
    ensures s.metadata == EmptyObject && s.currentAppConfigType == "pluginGroups"
    ensures fetched.None? ==>
      s.appConfigs.Keys == {"web", "tunnel"} && Entries(s.appConfigs, "web") == [] && Entries(s.appConfigs, "tunnel") == []
  {
    Store(groups, plugins, EmptyObject, apps,
          fetched.GetOr(map["web" := [], "tunnel" := []]),
          None, None, "pluginGroups")
  }

  // ---- global documents ----

  datatype DocKind = GroupsDoc | PluginsDoc | MetadataDoc

  /** The `currentGlobalConfig` keys the switch statements recognise. */
  function KindOf(key: string): (r: Option<DocKind>)
    ensures r == Some(GroupsDoc) <==> key == "plugin-group"
    ensures r == Some(PluginsDoc) <==> key == "plugin"
    ensures r == Some(MetadataDoc) <==> key == "plugin-metadata"
  {
    if key == "plugin-group" then Some(GroupsDoc)
    else if key == "plugin" then Some(PluginsDoc)
    else if key == "plugin-metadata" then Some(MetadataDoc)
    else None
  }

  function Document(s: Store, k: DocKind): Json {
    match k
    case GroupsDoc => s.groups
    case PluginsDoc => s.plugins
    case MetadataDoc => s.metadata
  }

  /** The document the global editor is on, if any. */
  function CurrentKind(s: Store): Option<DocKind> {
    if s.currentGlobalConfig.Some? then KindOf(s.currentGlobalConfig.value) else None
  }

  /** `saveGlobalConfig`: parseable text replaces the one document the
      global editor is on and leaves the other two and the app side alone;
      unparseable text, or no recognised document, changes nothing. */
  function SaveGlobalConfig(s: Store, text: string, parse: string -> Option<Json>): (r: Store)
    ensures parse(text).None? || CurrentKind(s).None? ==> r == s
    ensures parse(text).Some? && CurrentKind(s).Some? ==>
      && Document(r, CurrentKind(s).value) == parse(text).value
      && (forall k :: k != CurrentKind(s).value ==> Document(r, k) == Document(s, k))
      && r.(groups := s.groups, plugins := s.plugins, metadata := s.metadata) == s
  {
    match parse(text)
    case None => s
    case Some(v) =>
      match CurrentKind(s)
      case None => s
      case Some(GroupsDoc) => s.(groups := v)
      case Some(PluginsDoc) => s.(plugins := v)
      case Some(MetadataDoc) => s.(metadata := v)
  }

  /** The global half of `hasUnsavedChanges`: with a document open, the
      text fails to parse, or the stored document is truthy and differs
      from the parsed value. (An unrecognised key compares against `null`,
      which is falsy.) */
  predicate GlobalUnsaved(s: Store, globalText: string, parse: string -> Option<Json>) {
    && Selected(s.currentGlobalConfig)
    && match parse(globalText)
       case None => true
       case Some(v) =>
         var saved := if CurrentKind(s).Some? then Document(s, CurrentKind(s).value) else Null;
         Truthy(saved) && v != saved
  }

  /** For the global editor: unparseable text is unsaved; text that parses
      to the stored document is not; text that parses to anything else is,
      whenever the stored document is truthy. */
  lemma GlobalUnsavedCases(s: Store, globalText: string, parse: string -> Option<Json>)
    requires Selected(s.currentGlobalConfig) && CurrentKind(s).Some?
    ensures parse(globalText).None? ==> GlobalUnsaved(s, globalText, parse)
    ensures parse(globalText) == Some(Document(s, CurrentKind(s).value)) ==> !GlobalUnsaved(s, globalText, parse)
    ensures
      (parse(globalText).Some? && parse(globalText).value != Document(s, CurrentKind(s).value) &&
       Truthy(Document(s, CurrentKind(s).value)))
      ==> GlobalUnsaved(s, globalText, parse)
  {
  }

  /** Saving the global editor's text leaves nothing unsaved in it. */
  lemma SavedGlobalIsClean(s: Store, text: string, parse: string -> Option<Json>)
    requires parse(text).Some?
    ensures !GlobalUnsaved(SaveGlobalConfig(s, text, parse), text, parse)
  {
  }

  /** What `loadGlobalConfig` puts in the editor for a key: the document
      when it is truthy, `{}` when it is falsy or the key names none. */
  function GlobalShown(s: Store, key: string): Json {
    match KindOf(key)
    case None => EmptyObject
    case Some(k) => if Truthy(Document(s, k)) then Document(s, k) else EmptyObject
  }

  /** `loadGlobalConfig(key)` with the user's answer to the unsaved-changes
      prompt: the key already open does nothing; with a document open and
      unsaved changes by the written check, a refusal does nothing;
      otherwise the key becomes current and the editor shows its document.
      No document changes. */
  function LoadGlobalConfig(s: Store, key: string, proceed: bool, appText: string, globalText: string,
                            parse: string -> Option<Json>): (r: (Store, Option<Json>))
    ensures s.currentGlobalConfig == Some(key) ==> r == (s, None)
    ensures
      (s.currentGlobalConfig != Some(key) && Selected(s.currentGlobalConfig) && !proceed &&
       HasUnsavedChangesAsWritten(s, appText, globalText, parse))
      ==> r == (s, None)
    ensures r.1.Some? <==>
      s.currentGlobalConfig != Some(key) &&
      (proceed || !Selected(s.currentGlobalConfig) || !HasUnsavedChangesAsWritten(s, appText, globalText, parse))
    ensures r.1.Some? ==> r.0 == s.(currentGlobalConfig := Some(key))
    ensures r.1.Some? && KindOf(key).Some? && Truthy(Document(s, KindOf(key).value)) ==>
      r.1 == Some(Document(s, KindOf(key).value))
    ensures r.1.Some? && (KindOf(key).None? || !Truthy(Document(s, KindOf(key).value))) ==>
      r.1 == Some(EmptyObject)
  {
    if s.currentGlobalConfig == Some(key) then (s, None)
    else if Selected(s.currentGlobalConfig) && HasUnsavedChangesAsWritten(s, appText, globalText, parse) && !proceed
    then (s, None)
    else (s.(currentGlobalConfig := Some(key)), Some(GlobalShown(s, key)))
  }

  /** Right after a global document is opened, its unedited text is not
      reported as unsaved. */
  lemma LoadedGlobalIsClean(s: Store, key: string, proceed: bool, appText: string, globalText: string,
                            parse: string -> Option<Json>, shownText: string)
    requires LoadGlobalConfig(s, key, proceed, appText, globalText, parse).1.Some?
    requires parse(shownText) == LoadGlobalConfig(s, key, proceed, appText, globalText, parse).1
    ensures !GlobalUnsaved(LoadGlobalConfig(s, key, proceed, appText, globalText, parse).0, shownText, parse)
  {
    var r := LoadGlobalConfig(s, key, proceed, appText, globalText, parse);
    assert CurrentKind(r.0) == KindOf(key);
  }

  /** The reset button of the global editor as written:
      `loadGlobalConfig(currentGlobalConfig)` asks for the key already open
      (or for `null` when none is), and that returns at once. */
  function ResetGlobalConfigAsWritten(s: Store, proceed: bool, appText: string, globalText: string,
                                      parse: string -> Option<Json>): (r: (Store, Option<Json>))
    ensures s.currentGlobalConfig.Some? ==>
      r == LoadGlobalConfig(s, s.currentGlobalConfig.value, proceed, appText, globalText, parse)
  {
    if s.currentGlobalConfig.Some? then LoadGlobalConfig(s, s.currentGlobalConfig.value, proceed, appText, globalText, parse)
    else (s, None)
  }

  /** As written, the global reset button never does anything: the store
      stays as it was and the editor keeps whatever was typed. */
  lemma ResetGlobalConfigAsWrittenDoesNothing(s: Store, proceed: bool, appText: string, globalText: string,
                                              parse: string -> Option<Json>)
    ensures ResetGlobalConfigAsWritten(s, proceed, appText, globalText, parse) == (s, None)
  {
  }

  /** The global reset button as evidently intended: with a document open,
      the editor shows that document again, as `loadGlobalConfig` shows it;
      the store does not change. */
  function ResetGlobalConfig(s: Store): (r: (Store, Option<Json>))
    ensures r.0 == s
    ensures r.1.Some? <==> Selected(s.currentGlobalConfig)
    ensures r.1.Some? ==> r.1 == Some(GlobalShown(s, s.currentGlobalConfig.value))
    ensures r.1.Some? && CurrentKind(s).Some? && Truthy(Document(s, CurrentKind(s).value)) ==>
      r.1 == Some(Document(s, CurrentKind(s).value))
    ensures r.1.Some? && (CurrentKind(s).None? || !Truthy(Document(s, CurrentKind(s).value))) ==>
      r.1 == Some(EmptyObject)
  {
    if Selected(s.currentGlobalConfig) then (s, Some(GlobalShown(s, s.currentGlobalConfig.value))) else (s, None)
  }

  /** After the corrected reset, the text it shows is not reported as
      unsaved, whatever had been typed before. */
  lemma ResetGlobalConfigIsClean(s: Store, shownText: string, parse: string -> Option<Json>)
    requires Selected(s.currentGlobalConfig)
    requires parse(shownText) == ResetGlobalConfig(s).1
    ensures !GlobalUnsaved(s, shownText, parse)
  {
    assert CurrentKind(s) == KindOf(s.currentGlobalConfig.value);
  }

  /** The page right after loading: nothing is reported unsaved, and the
      first `loadGlobalConfig('plugin-group')` opens the groups document (or
      `{}` when it is falsy) without asking. */
  lemma LoadedOpensGroups(plugins: Json, groups: Json, apps: Catalogue, fetched: Option<AppConfigs>,
                          proceed: bool, appText: string, globalText: string, parse: string -> Option<Json>)
    ensures var s := Loaded(plugins, groups, apps, fetched);
      && !HasUnsavedChanges(s, appText, globalText, parse)
      && !HasUnsavedChangesAsWritten(s, appText, globalText, parse)
      && LoadGlobalConfig(s, "plugin-group", proceed, appText, globalText, parse) ==
           (s.(currentGlobalConfig := Some("plugin-group")), Some(if Truthy(groups) then groups else EmptyObject))
  {
    var s := Loaded(plugins, groups, apps, fetched);
    assert KindOf("plugin-group") == Some(GroupsDoc);
  }

  // ---- the current app ----

  /** What the current id names, read the way `split('-')` and `parseInt`
      read it. */
  function CurrentRef(s: Store): AppRef
    requires Selected(s.currentAppId)
  {
    ParseAppId(s.currentAppId.value)
  }

  /** A current id that names an app of the catalogue. */
  predicate OnKnownApp(s: Store) {
    Selected(s.currentAppId) && Resolves(s.apps, CurrentRef(s).category, CurrentRef(s).index)
  }

  // ---- the app editor's unsaved check ----

  /** `apps[currentAppId]`: the catalogue indexed by the whole id. Only a
      category name is a key of the catalogue, so what comes back is that
      category's array of records, or nothing. */
  function AppByWholeId(s: Store): Option<Json>
    requires Selected(s.currentAppId)
  {
    var id := s.currentAppId.value;
    if id in s.apps then
      Some(Arr(seq(|s.apps[id]|, k requires 0 <= k < |s.apps[id]| => Obj(s.apps[id][k]))))
    else None
  }

  /** `app && app.config && app.config[currentAppConfigType]`: what the
      written check compares the editor with, when all three reads are
      truthy. */
  function WrittenSavedPart(s: Store): Option<Json>
    requires Selected(s.currentAppId)
  {
    var app := AppByWholeId(s);
    var config := if app.Some? then Property(app.value, "config") else None;
    var part := if config.Some? && Truthy(config.value) then Property(config.value, s.currentAppConfigType) else None;
    if part.Some? && Truthy(part.value) then part else None
  }

  /** The app half of `hasUnsavedChanges` as written: with an app current,
      the text fails to parse, or the looked-up saved sub-object is there
      and differs from the parsed value. */
  predicate AppUnsavedAsWritten(s: Store, appText: string, parse: string -> Option<Json>) {
    && Selected(s.currentAppId)
    && match parse(appText)
       case None => true
       case Some(v) =>
         var saved := WrittenSavedPart(s);
         saved.Some? && v != saved.value
  }

  /** The whole-id lookup finds an array of records or nothing, and neither
      has a `config` property, so the comparison never runs: the written
      app check reports exactly the texts that fail to parse. */
  lemma AppUnsavedAsWrittenOnlyParseFailures(s: Store, appText: string, parse: string -> Option<Json>)
    ensures AppUnsavedAsWritten(s, appText, parse) <==> Selected(s.currentAppId) && parse(appText).None?
  {
    if Selected(s.currentAppId) {
      assert WrittenSavedPart(s).None?;
    }
  }

  /** `hasUnsavedChanges` as written. */
  predicate HasUnsavedChangesAsWritten(s: Store, appText: string, globalText: string,
                                       parse: string -> Option<Json>) {
    AppUnsavedAsWritten(s, appText, parse) || GlobalUnsaved(s, globalText, parse)
  }

  /** What the app editor's content is saved as: the current sub-object of
      the app's first entry in `appConfigs`, the object `saveApp` writes and
      `updateAppEditorContent` shows. */
  function StoredAppPart(s: Store): Option<Json>
    requires Selected(s.currentAppId)
  {
    StoredPart(Entries(s.appConfigs, CurrentRef(s).category), s.currentAppId.value, s.currentAppConfigType)
  }

  /** The app half with the comparison it evidently intends: unparseable
      text, or text whose value differs from the truthy stored sub-object. */
  predicate AppUnsaved(s: Store, appText: string, parse: string -> Option<Json>) {
    && Selected(s.currentAppId)
    && match parse(appText)
       case None => true
       case Some(v) =>
         var saved := StoredAppPart(s);
         saved.Some? && Truthy(saved.value) && v != saved.value
  }

  /** `hasUnsavedChanges` with the corrected app half; the rest of the
      model asks this one. */
  predicate HasUnsavedChanges(s: Store, appText: string, globalText: string, parse: string -> Option<Json>) {
    AppUnsaved(s, appText, parse) || GlobalUnsaved(s, globalText, parse)
  }

  /** The store of the counterexamples below: of two web apps, `web-0` is
      current, its entry's `pluginGroups` is `{}` and the app editor is on
      it. */
  const EditedStore: Store :=
    Store(EmptyObject, EmptyObject, EmptyObject,
          map["web" := [map[], map[]]],
          map["web" := [ConfigEntry("web-0", Some(FreshConfig))]],
          Some("web-0"), None, "pluginGroups")

  /** As written, an edit that still parses is never reported for the app
      editor: with `{"g": 1}` typed over the stored `{}`, the written check
      says "saved" and the corrected one says "unsaved". */
  lemma AppUnsavedAsWrittenMissesEdits(parse: string -> Option<Json>)
    requires parse("edited") == Some(Obj(map["g" := Num(1)]))
    ensures !HasUnsavedChangesAsWritten(EditedStore, "edited", "", parse)
    ensures HasUnsavedChanges(EditedStore, "edited", "", parse)
  {
    EditedStoreHoldsEmpty();
    AppUnsavedAsWrittenOnlyParseFailures(EditedStore, "edited", parse);
    assert Obj(map["g" := Num(1)]) != EmptyObject by {
      assert "g" in Obj(map["g" := Num(1)]).fields;
    }
  }

  /** In the counterexample store, the app editor's saved content is `{}`. */
  lemma EditedStoreHoldsEmpty()
    ensures Selected(EditedStore.currentAppId) && !Selected(EditedStore.currentGlobalConfig)
    ensures StoredAppPart(EditedStore) == Some(EmptyObject)
  {
    FirstWebId();
    assert CurrentRef(EditedStore) == AppRef("web", Some(0));
    var e := ConfigEntry("web-0", Some(FreshConfig));
    assert Entries(EditedStore.appConfigs, "web") == [e];
    assert FindEntry([e], "web-0") == Some(0);
    assert Field(FreshConfig, "pluginGroups") == Some(EmptyObject);
  }

  /** "web-0" is the id of the first web app. */
  lemma FirstWebId()
    ensures FormatAppId("web", 0) == "web-0"
    ensures ParseAppId("web-0") == AppRef("web", Some(0))
  {
    ParseFormatRoundTrip("web", 0);
    assert NatToString(0) == "0";
  }

  /** "web-1" is the id of the second web app. */
  lemma SecondWebId()
    ensures FormatAppId("web", 1) == "web-1"
    ensures ParseAppId("web-1") == AppRef("web", Some(1))
  {
    ParseFormatRoundTrip("web", 1);
    assert NatToString(1) == "1";
  }

  /** Whenever the written check reports the app editor, so does the
      corrected one: the correction only adds reports, namely edits that
      still parse. */
  lemma AppUnsavedAsWrittenIsWeaker(s: Store, appText: string, parse: string -> Option<Json>)
    ensures AppUnsavedAsWritten(s, appText, parse) ==> AppUnsaved(s, appText, parse)
    ensures AppUnsaved(s, appText, parse) && !AppUnsavedAsWritten(s, appText, parse) ==>
      parse(appText).Some? && StoredAppPart(s).Some? && parse(appText).value != StoredAppPart(s).value
  {
    AppUnsavedAsWrittenOnlyParseFailures(s, appText, parse);
  }

  /** The corrected app check: unparseable text is unsaved; text that
      parses to the stored sub-object is not; text that parses to anything
      else is, whenever that sub-object is truthy; and with nothing stored
      only a parse failure counts. */
  lemma AppUnsavedCases(s: Store, appText: string, parse: string -> Option<Json>)
    requires Selected(s.currentAppId)
    ensures parse(appText).None? ==> AppUnsaved(s, appText, parse)
    ensures StoredAppPart(s).Some? && parse(appText) == StoredAppPart(s) ==> !AppUnsaved(s, appText, parse)
    ensures
      (parse(appText).Some? && StoredAppPart(s).Some? && Truthy(StoredAppPart(s).value) &&
       parse(appText).value != StoredAppPart(s).value)
      ==> AppUnsaved(s, appText, parse)
    ensures StoredAppPart(s).None? ==> (AppUnsaved(s, appText, parse) <==> parse(appText).None?)
  {
  }

  // ---- the app editor ----

  /** What the editor shows for a config: the current sub-object, or `{}`
      when it is falsy. */
  function Shown(cfg: map<string, Json>, key: string): (r: Json)
    ensures TruthyField(cfg, key) ==> r == cfg[key]
    ensures !TruthyField(cfg, key) ==> r == EmptyObject
  {
    if TruthyField(cfg, key) then cfg[key] else EmptyObject
  }

  /** `updateAppEditorContent`: for the app the current id names, find or
      create its entry, default its config's sub-objects, copy that config
      into the app record and show the current sub-object. With no current
      app, or one the catalogue does not have, nothing changes and the
      editor is left alone (`None`); otherwise only the catalogue and the
      app configs change. */
  function UpdateAppEditorContent(s: Store): (r: (Store, Option<Json>))
    ensures r.1.None? <==> !OnKnownApp(s)
    ensures r.1.None? ==> r.0 == s
    ensures r.0 == s.(apps := r.0.apps, appConfigs := r.0.appConfigs)
  {
    if !OnKnownApp(s) then (s, None)
    else
      var id := s.currentAppId.value;
      var c := CurrentRef(s).category;
      var i := CurrentRef(s).index.value;
      var cfg := WithDefaults(ConfigOf(Entries(s.appConfigs, c), id));
      var apps' := UpdateRecord(s.apps, c, i, s.apps[c][i]["config" := Obj(cfg)]);
      (s.(apps := apps', appConfigs := PutConfig(s.appConfigs, c, id, cfg)),
       Some(Shown(cfg, s.currentAppConfigType)))
  }

  /** On a known app, `updateAppEditorContent` leaves the app's first entry
      holding a complete config that keeps every truthy field of the old one
      (or of a fresh one when there was none), with no duplicate entry
      created, and changes no other category's entries. */
  lemma UpdateAppEditorContentFills(s: Store)
    requires OnKnownApp(s)
    ensures var r := UpdateAppEditorContent(s);
      var id := s.currentAppId.value;
      var c := CurrentRef(s).category;
      var before := Entries(s.appConfigs, c);
      && c in r.0.appConfigs
      && FindEntry(r.0.appConfigs[c], id).Some?
      && var cfg := r.0.appConfigs[c][FindEntry(r.0.appConfigs[c], id).value].config;
      && cfg.Some? && Complete(cfg.value)
      && (forall key :: TruthyField(ConfigOf(before, id), key) ==> cfg.value[key] == ConfigOf(before, id)[key])
      && CountEntries(r.0.appConfigs[c], id) == (if CountEntries(before, id) == 0 then 1 else CountEntries(before, id))
      && AgreeExcept(s.appConfigs, r.0.appConfigs, c)
  {
    var id := s.currentAppId.value;
    var c := CurrentRef(s).category;
    var cfg := WithDefaults(ConfigOf(Entries(s.appConfigs, c), id));
    assert UpdateAppEditorContent(s).0.appConfigs == PutConfig(s.appConfigs, c, id, cfg);
  }

  /** On a known app, `updateAppEditorContent` writes the config it put in
      the app's entry into the app record's `config` field, leaves every
      other field and every other record as it was, and shows the current
      sub-object of that config. */
  lemma UpdateAppEditorContentRecord(s: Store)
    requires OnKnownApp(s)
    ensures var r := UpdateAppEditorContent(s);
      var id := s.currentAppId.value;
      var c := CurrentRef(s).category;
      var i := CurrentRef(s).index.value;
      var cfg := ConfigOf(Entries(r.0.appConfigs, c), id);
      && OnlyRecordChanged(s.apps, r.0.apps, c, i)
      && Field(r.0.apps[c][i], "config") == Some(Obj(cfg))
      && AgreeExcept(s.apps[c][i], r.0.apps[c][i], "config")
      && r.1 == Some(Shown(cfg, s.currentAppConfigType))
  {
    var id := s.currentAppId.value;
    var c := CurrentRef(s).category;
    var i := CurrentRef(s).index.value;
    var cfg := WithDefaults(ConfigOf(Entries(s.appConfigs, c), id));
    ConfigOfPut(s.appConfigs, c, id, cfg);
    AgreeExceptWrite(s.apps[c][i], "config", Obj(cfg));
    assert UpdateAppEditorContent(s).0.apps == UpdateRecord(s.apps, c, i, s.apps[c][i]["config" := Obj(cfg)]);
  }

  /** Showing the same app twice is showing it once: the second call finds
      the entry the first one completed and changes nothing further. */
  lemma UpdateAppEditorContentIdempotent(s: Store)
    ensures UpdateAppEditorContent(UpdateAppEditorContent(s).0) == UpdateAppEditorContent(s)
  {
    if OnKnownApp(s) {
      var c := CurrentRef(s).category;
      var id := s.currentAppId.value;
      var cfg := WithDefaults(ConfigOf(Entries(s.appConfigs, c), id));
      UpdateOnce(s);
      WithDefaultsIdempotent(ConfigOf(Entries(s.appConfigs, c), id));
      UpdateAgain(UpdateAppEditorContent(s).0, cfg);
    }
  }

  /** What one `updateAppEditorContent` leaves behind: the same app, whose
      first entry and record both hold the defaulted config. */
  lemma UpdateOnce(s: Store)
    requires OnKnownApp(s)
    ensures var s1 := UpdateAppEditorContent(s).0;
      var c := CurrentRef(s).category;
      var i := CurrentRef(s).index.value;
      var id := s.currentAppId.value;
      var cfg := WithDefaults(ConfigOf(Entries(s.appConfigs, c), id));
      && s1.currentAppId == s.currentAppId && s1.currentAppConfigType == s.currentAppConfigType
      && CurrentRef(s1) == CurrentRef(s) && OnKnownApp(s1)
      && c in s1.appConfigs && FindEntry(s1.appConfigs[c], id).Some?
      && s1.appConfigs[c][FindEntry(s1.appConfigs[c], id).value].config == Some(cfg)
      && ConfigOf(Entries(s1.appConfigs, c), id) == cfg
      && Field(s1.apps[c][i], "config") == Some(Obj(cfg))
      && UpdateAppEditorContent(s).1 == Some(Shown(cfg, s.currentAppConfigType))
  {
    var c := CurrentRef(s).category;
    var id := s.currentAppId.value;
    ConfigOfPut(s.appConfigs, c, id, WithDefaults(ConfigOf(Entries(s.appConfigs, c), id)));
  }

  /** On an app whose first entry and record already hold the same complete
      config, `updateAppEditorContent` changes nothing. */
  lemma UpdateAgain(s: Store, cfg: map<string, Json>)
    requires OnKnownApp(s)
    requires var c := CurrentRef(s).category;
      var i := CurrentRef(s).index.value;
      var id := s.currentAppId.value;
      && c in s.appConfigs && FindEntry(s.appConfigs[c], id).Some?
      && s.appConfigs[c][FindEntry(s.appConfigs[c], id).value].config == Some(cfg)
      && ConfigOf(Entries(s.appConfigs, c), id) == cfg
      && Field(s.apps[c][i], "config") == Some(Obj(cfg))
      && WithDefaults(cfg) == cfg
    ensures UpdateAppEditorContent(s) == (s, Some(Shown(cfg, s.currentAppConfigType)))
  {
    var c := CurrentRef(s).category;
    var i := CurrentRef(s).index.value;
    var id := s.currentAppId.value;
    PutConfigStable(s.appConfigs, c, id, cfg);
    assert s.apps[c][i]["config" := Obj(cfg)] == s.apps[c][i];
  }

  /** Right after the editor is filled, its unedited text is not reported
      as unsaved by the corrected check. */
  lemma ShownContentIsClean(s: Store, appText: string, parse: string -> Option<Json>)
    requires OnKnownApp(s)
    requires parse(appText) == UpdateAppEditorContent(s).1
    ensures !AppUnsaved(UpdateAppEditorContent(s).0, appText, parse)
  {
    var r := UpdateAppEditorContent(s);
    UpdateOnce(s);
    assert CurrentRef(r.0) == CurrentRef(s);
  }

  /** `loadApp(appId, category, index)` with the user's answer to the
      unsaved-changes prompt: re-selecting the current id does nothing; with
      another app current and unsaved changes by the written check, a
      refusal does nothing; the index is re-read from the id unless the
      category given is `web`, and a missing web app stops there. Otherwise
      the id becomes current, the web record gets a config if it had none,
      and the editor is filled when the id itself names a known app. */
  function LoadApp(s: Store, appId: string, category: string, index: Option<nat>, proceed: bool,
                   appText: string, globalText: string, parse: string -> Option<Json>): (r: (Store, Option<Json>))
    ensures s.currentAppId == Some(appId) ==> r == (s, None)
    ensures
      (s.currentAppId != Some(appId) && Selected(s.currentAppId) && !proceed &&
       HasUnsavedChangesAsWritten(s, appText, globalText, parse))
      ==> r == (s, None)
    ensures !Resolves(s.apps, "web", WebIndex(appId, category, index)) ==> r == (s, None)
    ensures
      (s.currentAppId != Some(appId) &&
       (proceed || !Selected(s.currentAppId) || !HasUnsavedChangesAsWritten(s, appText, globalText, parse)) &&
       Resolves(s.apps, "web", WebIndex(appId, category, index)))
      ==> && r.0.currentAppId == Some(appId)
          && r.0 == s.(currentAppId := r.0.currentAppId, apps := r.0.apps, appConfigs := r.0.appConfigs)
          && (r.1.Some? <==> appId != "" && Resolves(s.apps, ParseAppId(appId).category, ParseAppId(appId).index))
    ensures r.1.Some? ==> r.0.currentAppId == Some(appId)
  {
    if s.currentAppId == Some(appId) then (s, None)
    else if Selected(s.currentAppId) && HasUnsavedChangesAsWritten(s, appText, globalText, parse) && !proceed then (s, None)
    else
      var idx := WebIndex(appId, category, index);
      if !Resolves(s.apps, "web", idx) then (s, None)
      else UpdateAppEditorContent(SelectWebApp(s, appId, idx.value))
  }

  /** `loadApp` asking the corrected check: with another app current and
      unsaved changes, a refusal does nothing; otherwise it is `loadApp`.
      So a switch the user did not agree to never drops an unsaved edit. */
  function LoadAppCorrected(s: Store, appId: string, category: string, index: Option<nat>, proceed: bool,
                            appText: string, globalText: string, parse: string -> Option<Json>): (r: (Store, Option<Json>))
    ensures r.0.currentAppId != s.currentAppId && Selected(s.currentAppId) && !proceed ==>
      !HasUnsavedChanges(s, appText, globalText, parse)
    ensures (s.currentAppId != Some(appId) && Selected(s.currentAppId) && !proceed &&
             HasUnsavedChanges(s, appText, globalText, parse)) ==> r == (s, None)
  {
    if s.currentAppId != Some(appId) && Selected(s.currentAppId) && HasUnsavedChanges(s, appText, globalText, parse) && !proceed
    then (s, None)
    else LoadApp(s, appId, category, index, true, appText, globalText, parse)
  }

  /** As written, with `{"g": 1}` typed over the stored `{}` of `web-0`,
      clicking `web-1` switches to it without asking, and the edit is
      lost; the corrected `loadApp` keeps the store as it was and waits for
      an answer. */
  lemma LoadAppAsWrittenDropsEdits(parse: string -> Option<Json>)
    requires parse("edited") == Some(Obj(map["g" := Num(1)]))
    ensures AppUnsaved(EditedStore, "edited", parse)
    ensures LoadApp(EditedStore, "web-1", "web", Some(1), false, "edited", "", parse).0.currentAppId == Some("web-1")
    ensures LoadAppCorrected(EditedStore, "web-1", "web", Some(1), false, "edited", "", parse) == (EditedStore, None)
  {
    AppUnsavedAsWrittenMissesEdits(parse);
    SecondWebId();
  }

  /** The part of `loadApp` before the editor is filled: the id becomes
      current and a web record without a truthy `config` gets a fresh one. */
  function SelectWebApp(s: Store, appId: string, i: nat): (r: Store)
    requires i < |Records(s.apps, "web")|
    ensures r.currentAppId == Some(appId)
    ensures r == s.(currentAppId := r.currentAppId, apps := r.apps)
    ensures OnlyRecordChanged(s.apps, r.apps, "web", i)
    ensures TruthyField(r.apps["web"][i], "config")
    ensures TruthyField(s.apps["web"][i], "config") ==> r.apps == s.apps
    ensures !TruthyField(s.apps["web"][i], "config") ==>
              r.apps["web"][i] == s.apps["web"][i]["config" := Obj(FreshConfig)]
  {
    var rec := s.apps["web"][i];
    var s1 := s.(currentAppId := Some(appId));
    if TruthyField(rec, "config") then s1
    else s1.(apps := UpdateRecord(s1.apps, "web", i, rec["config" := Obj(FreshConfig)]))
  }

  /** The web index `loadApp` uses: the one given when the category given
      is `web`, otherwise the number after the id's first dash. */
  function WebIndex(appId: string, category: string, index: Option<nat>): Option<nat> {
    if category == "web" then index else ParseAppId(appId).index
  }

  /** Clicking a listed web app (id `web-i`, category `web`, index `i`)
      when the written check does not stand in the way selects it and fills the
      editor from its first entry, which afterwards holds a complete config;
      the record's `config` is that same object. */
  lemma LoadAppShowsApp(s: Store, i: nat, proceed: bool, appText: string, globalText: string,
                        parse: string -> Option<Json>)
    requires i < |Records(s.apps, "web")|
    requires s.currentAppId != Some(FormatAppId("web", i))
    requires proceed || !Selected(s.currentAppId) || !HasUnsavedChangesAsWritten(s, appText, globalText, parse)
    ensures var r := LoadApp(s, FormatAppId("web", i), "web", Some(i), proceed, appText, globalText, parse);
      && r.1.Some?
      && r.0.currentAppId == Some(FormatAppId("web", i))
      && "web" in r.0.appConfigs
      && FindEntry(r.0.appConfigs["web"], FormatAppId("web", i)).Some?
      && var e := r.0.appConfigs["web"][FindEntry(r.0.appConfigs["web"], FormatAppId("web", i)).value];
      && e.config.Some? && Complete(e.config.value)
      && "web" in r.0.apps && i < |r.0.apps["web"]|
      && Field(r.0.apps["web"][i], "config") == Some(Obj(e.config.value))
  {
    var id := FormatAppId("web", i);
    ParseFormatRoundTrip("web", i);
    SelectedWebAppShows(s, id, i);
  }

  /** Filling the editor right after selecting web app `i` under an id
      that reads as `web-i`. */
  lemma SelectedWebAppShows(s: Store, id: string, i: nat)
    requires ParseAppId(id) == AppRef("web", Some(i))
    requires i < |Records(s.apps, "web")|
    ensures var r := UpdateAppEditorContent(SelectWebApp(s, id, i));
      && r.1.Some?
      && r.0.currentAppId == Some(id)
      && "web" in r.0.appConfigs
      && FindEntry(r.0.appConfigs["web"], id).Some?
      && var e := r.0.appConfigs["web"][FindEntry(r.0.appConfigs["web"], id).value];
      && e.config.Some? && Complete(e.config.value)
      && "web" in r.0.apps && i < |r.0.apps["web"]|
      && Field(r.0.apps["web"][i], "config") == Some(Obj(e.config.value))
  {
    var s2 := SelectWebApp(s, id, i);
    assert CurrentRef(s2) == AppRef("web", Some(i));
    UpdateOnce(s2);
  }

  /** The app editor's reset button as written: `loadApp(currentAppId,
      null, null)` asks for the app already current (or for `null` when none
      is), and that returns at once. */
  function ResetAppAsWritten(s: Store, proceed: bool, appText: string, globalText: string,
                             parse: string -> Option<Json>): (r: (Store, Option<Json>))
    ensures s.currentAppId.Some? ==>
      r == LoadApp(s, s.currentAppId.value, "", None, proceed, appText, globalText, parse)
  {
    if s.currentAppId.Some? then LoadApp(s, s.currentAppId.value, "", None, proceed, appText, globalText, parse)
    else (s, None)
  }

  /** As written, the app reset button never does anything: the store stays
      as it was and the editor keeps whatever was typed. */
  lemma ResetAppAsWrittenDoesNothing(s: Store, proceed: bool, appText: string, globalText: string,
                                     parse: string -> Option<Json>)
    ensures ResetAppAsWritten(s, proceed, appText, globalText, parse) == (s, None)
  {
  }

  /** The app reset button as evidently intended: on a known app, the
      editor is filled again from the app's entry, as `loadApp` fills it;
      only the catalogue and the app configs may change. */
  function ResetApp(s: Store): (r: (Store, Option<Json>))
    ensures r.1.Some? <==> OnKnownApp(s)
    ensures r.0 == s.(apps := r.0.apps, appConfigs := r.0.appConfigs)
    ensures r.1.Some? ==> r.0.currentAppId == s.currentAppId && OnKnownApp(r.0)
  {
    if OnKnownApp(s) then UpdateOnce(s); UpdateAppEditorContent(s) else (s, None)
  }

  /** After the corrected reset, the text it shows is not reported as
      unsaved, whatever had been typed before. */
  lemma ResetAppIsClean(s: Store, shownText: string, parse: string -> Option<Json>)
    requires OnKnownApp(s)
    requires parse(shownText) == ResetApp(s).1
    ensures !AppUnsaved(ResetApp(s).0, shownText, parse)
  {
    ShownContentIsClean(s, shownText, parse);
  }

  // ---- the tabs ----

  /** The global tab once the switch goes through: the current app is
      forgotten; with no document open, `plugin-group` is opened, otherwise
      reloading the open key returns at once. */
  function OpenGlobalTab(s: Store, appText: string, globalText: string, parse: string -> Option<Json>): (r: (Store, Option<Json>))
    ensures r.0 == s.(currentAppId := None, currentGlobalConfig := r.0.currentGlobalConfig)
    ensures Selected(s.currentGlobalConfig) ==> r == (s.(currentAppId := None), None)
    ensures !Selected(s.currentGlobalConfig) ==>
      r.0.currentGlobalConfig == Some("plugin-group") && r.1 == Some(GlobalShown(s, "plugin-group"))
  {
    var s1 := s.(currentAppId := None);
    if Selected(s.currentGlobalConfig) then (s1, None)
    else LoadGlobalConfig(s1, "plugin-group", true, appText, globalText, parse)
  }

  /** The app tab once the switch goes through: the open document is
      forgotten; a current app is shown again, otherwise the first web app
      is opened when there is one. */
  function OpenAppTab(s: Store, appText: string, globalText: string, parse: string -> Option<Json>): (r: (Store, Option<Json>))
    ensures r.0 == s.(currentGlobalConfig := None, currentAppId := r.0.currentAppId, apps := r.0.apps,
                      appConfigs := r.0.appConfigs)
    ensures Selected(s.currentAppId) ==> r.0.currentAppId == s.currentAppId && (r.1.Some? <==> OnKnownApp(s))
    ensures !Selected(s.currentAppId) && |Records(s.apps, "web")| > 0 ==>
      r.0.currentAppId == Some("web-0") && r.1.Some?
    ensures !Selected(s.currentAppId) && |Records(s.apps, "web")| == 0 ==> r == (s.(currentGlobalConfig := None), None)
  {
    var s1 := s.(currentGlobalConfig := None);
    if Selected(s.currentAppId) then UpdateAppEditorContent(s1)
    else if |Records(s.apps, "web")| > 0 then
      FirstWebId();
      LoadApp(s1, "web-0", "web", Some(0), true, appText, globalText, parse)
    else (s1, None)
  }

  /** `resetEditorsToOriginalState`: what it gives the global editor and
      the app editor. The global editor gets the open document back when
      that document is recognised and truthy. The app editor would get
      `apps[currentAppId].config[currentAppConfigType]`, but the whole-id
      lookup never finds a `config`, so it gets nothing. */
  function ResetEditors(s: Store): (r: (Option<Json>, Option<Json>))
    ensures r.0.Some? <==>
      Selected(s.currentGlobalConfig) && CurrentKind(s).Some? && Truthy(Document(s, CurrentKind(s).value))
    ensures r.0.Some? ==> r.0 == Some(Document(s, CurrentKind(s).value))
    ensures r.1.None?
  {
    var global :=
      if Selected(s.currentGlobalConfig) && CurrentKind(s).Some? && Truthy(Document(s, CurrentKind(s).value))
      then Some(Document(s, CurrentKind(s).value)) else None;
    var app := if Selected(s.currentAppId) then WrittenSavedPart(s) else None;
    (global, app)
  }

  /** A tab click with the user's answer to the unsaved-changes prompt
      (`initTabs`, then `performTabSwitch`): with unsaved changes by the
      written check, a refusal does nothing. Otherwise, when the written
      check reports changes, the editors are first reset to the stored
      contents, and then the global or the app tab opens. The value
      returned is what the opened tab's editor was given last. Any other
      tab changes nothing. */
  function SwitchTab(s: Store, tabId: string, proceed: bool, appText: string, globalText: string,
                     parse: string -> Option<Json>): (r: (Store, Option<Json>))
    ensures HasUnsavedChangesAsWritten(s, appText, globalText, parse) && !proceed ==> r == (s, None)
    ensures tabId != "global-config-tab" && tabId != "app-tab" ==> r == (s, None)
    ensures (proceed || !HasUnsavedChangesAsWritten(s, appText, globalText, parse)) && tabId == "global-config-tab" ==>
      && r.0 == OpenGlobalTab(s, appText, globalText, parse).0
      && (OpenGlobalTab(s, appText, globalText, parse).1.Some? ==> r.1 == OpenGlobalTab(s, appText, globalText, parse).1)
    ensures (proceed || !HasUnsavedChangesAsWritten(s, appText, globalText, parse)) && tabId == "global-config-tab" &&
            !(HasUnsavedChangesAsWritten(s, appText, globalText, parse) && ResetEditors(s).0.Some?) ==>
      r == OpenGlobalTab(s, appText, globalText, parse)
    ensures proceed && tabId == "global-config-tab" && HasUnsavedChangesAsWritten(s, appText, globalText, parse) &&
            Selected(s.currentGlobalConfig) && CurrentKind(s).Some? && Truthy(Document(s, CurrentKind(s).value)) ==>
      r.1 == Some(Document(s, CurrentKind(s).value))
    ensures (proceed || !HasUnsavedChangesAsWritten(s, appText, globalText, parse)) && tabId == "app-tab" ==>
      r == OpenAppTab(s, appText, globalText, parse)
  {
    if HasUnsavedChangesAsWritten(s, appText, globalText, parse) && !proceed then (s, None)
    else
      var restored := if HasUnsavedChangesAsWritten(s, appText, globalText, parse) then ResetEditors(s).0 else None;
      var global := OpenGlobalTab(s, appText, globalText, parse);
      if tabId == "global-config-tab" then
        // the animation-frame step shows nothing when a document is open
        (global.0, if global.1.Some? then global.1 else restored)
      else if tabId == "app-tab" then
        // the reset app editor is refilled, or given nothing, by the step
        OpenAppTab(s, appText, globalText, parse)
      else (s, None)
  }

  /** Confirming a switch to the global tab over unsaved global text puts
      the open, truthy document back in the editor, and that text is then
      not reported as unsaved, nor is anything typed in the app editor. */
  lemma SwitchTabDiscardsGlobalEdit(s: Store, appText: string, globalText: string, parse: string -> Option<Json>,
                                    shownText: string, laterAppText: string)
    requires GlobalUnsaved(s, globalText, parse)
    requires CurrentKind(s).Some? && Truthy(Document(s, CurrentKind(s).value))
    requires parse(shownText) == SwitchTab(s, "global-config-tab", true, appText, globalText, parse).1
    ensures var r := SwitchTab(s, "global-config-tab", true, appText, globalText, parse);
      && r.0 == s.(currentAppId := None)
      && !HasUnsavedChangesAsWritten(r.0, laterAppText, shownText, parse)
      && !HasUnsavedChanges(r.0, laterAppText, shownText, parse)
  {
    var r := SwitchTab(s, "global-config-tab", true, appText, globalText, parse);
    assert CurrentKind(r.0) == CurrentKind(s);
  }

  /** A switch that goes through leaves the other tab's editor out of the
      unsaved check: after the global tab no app is current, and after the
      app tab no document is open, so nothing typed there can be reported. */
  lemma SwitchTabIsolatesEditors(s: Store, tabId: string, proceed: bool, appText: string, globalText: string,
                                 parse: string -> Option<Json>, text: string)
    requires proceed || !HasUnsavedChangesAsWritten(s, appText, globalText, parse)
    ensures var r := SwitchTab(s, tabId, proceed, appText, globalText, parse);
      && (tabId == "global-config-tab" ==>
            !AppUnsaved(r.0, text, parse) && !AppUnsavedAsWritten(r.0, text, parse))
      && (tabId == "app-tab" ==> !GlobalUnsaved(r.0, text, parse))
  {
  }

  /** Opening the app tab with no app current and a non-empty web list
      shows the first web app from a complete entry, and that text is not
      reported as unsaved. */
  lemma SwitchToAppTabShowsFirstApp(s: Store, proceed: bool, appText: string, globalText: string,
                                    parse: string -> Option<Json>, shownText: string)
    requires proceed || !HasUnsavedChangesAsWritten(s, appText, globalText, parse)
    requires !Selected(s.currentAppId) && |Records(s.apps, "web")| > 0
    requires parse(shownText) == SwitchTab(s, "app-tab", proceed, appText, globalText, parse).1
    ensures var r := SwitchTab(s, "app-tab", proceed, appText, globalText, parse);
      && r.0.currentAppId == Some("web-0")
      && !HasUnsavedChanges(r.0, shownText, globalText, parse)
  {
    FirstWebId();
    var s1 := s.(currentGlobalConfig := None);
    var s2 := SelectWebApp(s1, "web-0", 0);
    assert CurrentRef(s2) == AppRef("web", Some(0));
    assert OpenAppTab(s, appText, globalText, parse) == UpdateAppEditorContent(s2);
    ShownContentIsClean(s2, shownText, parse);
  }

  /** `saveApp`: nothing changes when no app is current, the text does not
      parse, the id names no app, the app is a tunnel app, or its existing
      entry has no config (writing into it throws). Otherwise only the app
      configs change, and only in the app's category. */
  function SaveApp(s: Store, text: string, parse: string -> Option<Json>): (r: Store)
    ensures !OnKnownApp(s) || parse(text).None? ==> r == s
    ensures OnKnownApp(s) && CurrentRef(s).category == "tunnel" ==> r == s
    ensures OnKnownApp(s) && EntryWithoutConfig(s) ==> r == s
    ensures r == s.(appConfigs := r.appConfigs)
    ensures OnKnownApp(s) ==> AgreeExcept(s.appConfigs, r.appConfigs, CurrentRef(s).category)
  {
    if !OnKnownApp(s) then s
    else
      match parse(text)
      case None => s
      case Some(v) =>
        var id := s.currentAppId.value;
        var c := CurrentRef(s).category;
        if c == "tunnel" || EntryWithoutConfig(s) then s
        else
          var cfg := Overwrite(ConfigOf(Entries(s.appConfigs, c), id), s.currentAppConfigType, v);
          s.(appConfigs := PutConfig(s.appConfigs, c, id, cfg))
  }

  /** The current app already has an entry, and that entry has no config. */
  predicate EntryWithoutConfig(s: Store)
    requires Selected(s.currentAppId)
  {
    var entries := Entries(s.appConfigs, CurrentRef(s).category);
    var k := FindEntry(entries, s.currentAppId.value);
    k.Some? && entries[k.value].config.None?
  }

  /** A save that goes through: the app's first entry (created if missing,
      never duplicated) holds a complete config whose current sub-object is
      the parsed value (unless that value is falsy and the sub-object one of
      the defaulted three), whose other truthy sub-objects and other fields
      are as before, and every other entry of the category is unchanged. */
  lemma SaveAppStores(s: Store, text: string, parse: string -> Option<Json>)
    requires OnKnownApp(s) && parse(text).Some?
    requires CurrentRef(s).category != "tunnel" && !EntryWithoutConfig(s)
    ensures var r := SaveApp(s, text, parse);
      var id := s.currentAppId.value;
      var c := CurrentRef(s).category;
      var before := Entries(s.appConfigs, c);
      var prev := ConfigOf(before, id);
      var v := parse(text).value;
      var t := s.currentAppConfigType;
      && c in r.appConfigs
      && FindEntry(r.appConfigs[c], id).Some?
      && var cfg := r.appConfigs[c][FindEntry(r.appConfigs[c], id).value].config;
      && cfg.Some? && Complete(cfg.value)
      && (t !in ConfigKeys || Truthy(v) ==> cfg.value[t] == v)
      && (forall key :: key != t && TruthyField(prev, key) ==> cfg.value[key] == prev[key])
      && (forall key :: key != t && key !in ConfigKeys ==> Field(cfg.value, key) == Field(prev, key))
      && CountEntries(r.appConfigs[c], id) == (if CountEntries(before, id) == 0 then 1 else CountEntries(before, id))
      && (forall j :: 0 <= j < |before| && Some(j) != FindEntry(before, id) ==> r.appConfigs[c][j] == before[j])
  {
    var id := s.currentAppId.value;
    var c := CurrentRef(s).category;
    var cfg := Overwrite(ConfigOf(Entries(s.appConfigs, c), id), s.currentAppConfigType, parse(text).value);
    assert SaveApp(s, text, parse).appConfigs == PutConfig(s.appConfigs, c, id, cfg);
  }

  /** Right after a save of a truthy value, the app editor's text is not
      reported as unsaved. */
  lemma SavedAppIsClean(s: Store, text: string, parse: string -> Option<Json>)
    requires OnKnownApp(s) && parse(text).Some? && Truthy(parse(text).value)
    requires CurrentRef(s).category != "tunnel" && !EntryWithoutConfig(s)
    ensures !AppUnsaved(SaveApp(s, text, parse), text, parse)
  {
    var r := SaveApp(s, text, parse);
    SaveAppStores(s, text, parse);
    assert CurrentRef(r) == CurrentRef(s);
  }

  /** `applyGroupToCurrentApp`, as in the first variant; the trailing
      `loadApp(currentAppId, ...)` re-selects the current id and so does
      nothing. */
  function ApplyGroupToCurrentApp(s: Store, selected: string): (r: Store)
    ensures !OnKnownApp(s) ==> r == s
    ensures OnKnownApp(s) ==>
      var c := CurrentRef(s).category;
      var i := CurrentRef(s).index.value;
      && r == s.(apps := r.apps)
      && OnlyRecordChanged(s.apps, r.apps, c, i)
      && AgreeExcept(s.apps[c][i], r.apps[c][i], GroupKey)
      && (selected != "" ==> Field(r.apps[c][i], GroupKey) == Some(Str(selected)))
      && (selected == "" ==> GroupKey !in r.apps[c][i])
  {
    if !Selected(s.currentAppId) then s
    else
      match BindGroup(s.apps, s.currentAppId.value, selected)
      case None => s
      case Some(apps') => s.(apps := apps')
  }

  // ---- the web app list ----

  /** demo3's notion of configured, per web app: its entry (looked up by
      `web-${index}`) has a non-empty sub-object. */
  function ConfiguredFlags(n: nat, entries: seq<ConfigEntry>): (r: seq<bool>)
    ensures |r| == n
    ensures forall i :: 0 <= i < n ==> r[i] == Configured(entries, FormatAppId("web", i))
  {
    seq(n, i requires 0 <= i < n => Configured(entries, FormatAppId("web", i)))
  }

  /** `handleSearchFilter` then `updateAppList`: the search box's value is
      trimmed, and only web apps are listed. */
  function WebAppRows(s: Store, searchInput: string, filter: string, lower: string -> string): (r: seq<nat>)
    ensures forall i: nat :: i in r <==>
      && i < |Records(s.apps, "web")|
      && MatchesSearch(DisplayName(Records(s.apps, "web")[i], i, "Web应用"), Trim(searchInput), lower)
      && PassesFilter(filter, Configured(Entries(s.appConfigs, "web"), FormatAppId("web", i)))
    ensures forall a, b :: 0 <= a < b < |r| ==> r[a] < r[b]
  {
    var recs := Records(s.apps, "web");
    Listed(Names(recs, "Web应用"), ConfiguredFlags(|recs|, Entries(s.appConfigs, "web")),
           Trim(searchInput), filter, lower)
  }

  /** For a fixed search, `configured` shows exactly the listed web apps
      whose entry has a non-empty `pluginGroups`, `plugins` or `routes`,
      `unconfigured` exactly the others, and together they are the `all`
      list. */
  lemma WebAppRowsPartition(s: Store, searchInput: string, lower: string -> string)
    ensures var all := WebAppRows(s, searchInput, "all", lower);
      var on := WebAppRows(s, searchInput, "configured", lower);
      var off := WebAppRows(s, searchInput, "unconfigured", lower);
      && |on| + |off| == |all|
      && (forall i :: i in on ==> i !in off)
      && (forall i :: i in all <==> i in on || i in off)
      && (forall i: nat :: i in on <==> i in all && Configured(Entries(s.appConfigs, "web"), FormatAppId("web", i)))
      && (forall i: nat :: i in off <==> i in all && !Configured(Entries(s.appConfigs, "web"), FormatAppId("web", i)))
  {
    var recs := Records(s.apps, "web");
    FilterPartition(Names(recs, "Web应用"), ConfiguredFlags(|recs|, Entries(s.appConfigs, "web")),
                    Trim(searchInput), lower);
  }

  /** A save that goes through with a non-empty value under one of the
      three sub-objects leaves the app configured. */
  lemma SaveConfigures(s: Store, text: string, parse: string -> Option<Json>)
    requires OnKnownApp(s) && parse(text).Some? && HasEntries(parse(text).value)
    requires CurrentRef(s).category != "tunnel" && !EntryWithoutConfig(s)
    requires s.currentAppConfigType in ConfigKeys
    ensures Configured(Entries(SaveApp(s, text, parse).appConfigs, CurrentRef(s).category), s.currentAppId.value)
  {
    var c := CurrentRef(s).category;
    var id := s.currentAppId.value;
    var v := parse(text).value;
    var t := s.currentAppConfigType;
    var cfg := Overwrite(ConfigOf(Entries(s.appConfigs, c), id), t, v);
    var after := PutConfig(s.appConfigs, c, id, cfg);
    assert SaveApp(s, text, parse).appConfigs == after;
    OverwriteNonEmpty(ConfigOf(Entries(s.appConfigs, c), id), t, v);
    PutConfigConfigures(s.appConfigs, c, id, cfg);
  }

  /** Saving a non-empty object, array or string into one of the three
      sub-objects of a web app makes that app configured: wherever it is
      listed it is listed under `configured`. */
  lemma SaveMakesConfigured(s: Store, text: string, parse: string -> Option<Json>, index: nat,
                            searchInput: string, lower: string -> string)
    requires s.currentAppId == Some(FormatAppId("web", index))
    requires index < |Records(s.apps, "web")|
    requires s.currentAppConfigType in ConfigKeys
    requires parse(text).Some? && HasEntries(parse(text).value)
    requires !EntryWithoutConfig(s)
    ensures var r := SaveApp(s, text, parse);
      Configured(Entries(r.appConfigs, "web"), FormatAppId("web", index)) &&
      (index in WebAppRows(r, searchInput, "all", lower) <==>
         index in WebAppRows(r, searchInput, "configured", lower))
  {
    ParseFormatRoundTrip("web", index);
    assert CurrentRef(s) == AppRef("web", Some(index));
    SaveConfigures(s, text, parse);
    WebAppRowsPartition(SaveApp(s, text, parse), searchInput, lower);
  }
}
