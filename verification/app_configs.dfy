/** demo3's per-app configuration store `appConfigs`: for each category a
    list of `{id, config}` entries, where `config` holds the three
    sub-objects `pluginGroups`, `plugins` and `routes`. */
module AppConfigs {
  import opened Wrappers
  import opened Json
  import opened Maps

  /** One entry. `config` is `None` when the field is missing or falsy;
      when present it is an object. */
  datatype ConfigEntry = ConfigEntry(id: string, config: Option<map<string, Json>>)

  type AppConfigs = map<string, seq<ConfigEntry>>

  /** The three sub-objects every complete config carries. */
  const ConfigKeys: set<string> := {"pluginGroups", "plugins", "routes"}

  /** `{pluginGroups: {}, plugins: {}, routes: {}}` */
  const FreshConfig: map<string, Json> :=
    map["pluginGroups" := EmptyObject, "plugins" := EmptyObject, "routes" := EmptyObject]

  /** `appConfigs[category]`, with a missing category read as no entries. */
  function Entries(configs: AppConfigs, category: string): seq<ConfigEntry> {
    if category in configs then configs[category] else []
  }

  /** `entries.find(c => c.id === id)`, as a position: the first entry with
      that id, or `None` when there is none. */
  function FindEntry(entries: seq<ConfigEntry>, id: string): (r: Option<nat>)
    ensures r.None? <==> forall k :: 0 <= k < |entries| ==> entries[k].id != id
    ensures r.Some? ==> r.value < |entries| && entries[r.value].id == id
    ensures r.Some? ==> forall k :: 0 <= k < r.value ==> entries[k].id != id
    decreases |entries|
  {
    if entries == [] then None
    else if entries[0].id == id then Some(0)
    else
      match FindEntry(entries[1..], id)
      case None => None
      case Some(k) => Some(k + 1)
  }

  /** How many entries carry the id. */
  function CountEntries(entries: seq<ConfigEntry>, id: string): nat
    decreases |entries|
  {
    if entries == [] then 0
    else (if entries[0].id == id then 1 else 0) + CountEntries(entries[1..], id)
  }

  lemma {:induction false} CountAppend(entries: seq<ConfigEntry>, e: ConfigEntry, id: string)
    ensures CountEntries(entries + [e], id) == CountEntries(entries, id) + (if e.id == id then 1 else 0)
    decreases |entries|
  {
    if entries != [] {
      assert (entries + [e])[1..] == entries[1..] + [e];
      CountAppend(entries[1..], e, id);
    } else {
      assert [] + [e] == [e];
    }
  }

  lemma {:induction false} CountReplace(entries: seq<ConfigEntry>, k: nat, e: ConfigEntry, id: string)
    requires k < |entries| && e.id == entries[k].id
    ensures CountEntries(entries[k := e], id) == CountEntries(entries, id)
    decreases |entries|
  {
    if k > 0 {
      assert entries[k := e][1..] == entries[1..][k - 1 := e];
      CountReplace(entries[1..], k - 1, e, id);
    }
  }

  lemma {:induction false} CountNone(entries: seq<ConfigEntry>, id: string)
    requires forall k :: 0 <= k < |entries| ==> entries[k].id != id
    ensures CountEntries(entries, id) == 0
    decreases |entries|
  {
    if entries != [] {
      CountNone(entries[1..], id);
    }
  }

  lemma {:induction false} CountSome(entries: seq<ConfigEntry>, k: nat, id: string)
    requires k < |entries| && entries[k].id == id
    ensures CountEntries(entries, id) >= 1
    decreases |entries|
  {
    if k > 0 {
      CountSome(entries[1..], k - 1, id);
    }
  }

  /** The find-or-create step of `updateAppEditorContent` and `saveApp`: the
      first entry for `id` in the category, appending a fresh one (and
      creating the list) when there is none. Afterwards the category holds
      at least one such entry and exactly one if it held none; an existing
      entry leaves the store untouched, and nothing else changes. */
  function EnsureEntry(configs: AppConfigs, category: string, id: string): (r: (AppConfigs, nat))
    ensures category in r.0 && r.1 < |r.0[category]|
    ensures FindEntry(r.0[category], id) == Some(r.1)
    ensures FindEntry(Entries(configs, category), id).Some? ==> r.0 == configs
    ensures FindEntry(Entries(configs, category), id).None? ==>
      r.0[category] == Entries(configs, category) + [ConfigEntry(id, Some(FreshConfig))]
    ensures AgreeExcept(configs, r.0, category)
    ensures CountEntries(r.0[category], id) ==
      if CountEntries(Entries(configs, category), id) == 0 then 1 else CountEntries(Entries(configs, category), id)
    ensures FindEntry(Entries(configs, category), id).Some? ==> r.1 == FindEntry(Entries(configs, category), id).value
    ensures FindEntry(Entries(configs, category), id).None? ==> r.1 == |Entries(configs, category)|
    ensures |r.0[category]| == |Entries(configs, category)| + (if FindEntry(Entries(configs, category), id).None? then 1 else 0)
    ensures forall j :: 0 <= j < |Entries(configs, category)| ==> r.0[category][j] == Entries(configs, category)[j]
  {
    var entries := Entries(configs, category);
    match FindEntry(entries, id)
    case Some(k) =>
      CountSome(entries, k, id);
      (configs, k)
    case None =>
      var e := ConfigEntry(id, Some(FreshConfig));
      var entries' := entries + [e];
      CountNone(entries, id);
      CountAppend(entries, e, id);
      assert FindEntry(entries', id) == Some(|entries|) by {
        var f := FindEntry(entries', id);
        assert entries'[|entries|].id == id;
        assert f.Some?;
        assert forall k :: 0 <= k < |entries| ==> entries'[k].id != id by {
          assert forall k :: 0 <= k < |entries| ==> entries'[k] == entries[k];
        }
      }
      (configs[category := entries'], |entries|)
  }

  /** The config of the first entry for `id`, with a fresh one standing in
      when there is no entry or the entry has no config. */
  function ConfigOf(entries: seq<ConfigEntry>, id: string): map<string, Json> {
    match FindEntry(entries, id)
    case None => FreshConfig
    case Some(k) => entries[k].config.GetOr(FreshConfig)
  }

  /** Find-or-create the first entry for `id`, then give it the config
      `cfg`. Afterwards that entry is still the first one for `id` and holds
      `cfg`; every other entry of the category keeps its place and value, a
      new entry goes at the end, and the other categories are untouched. */
  function PutConfig(configs: AppConfigs, category: string, id: string, cfg: map<string, Json>): (r: AppConfigs)
    ensures category in r
    ensures FindEntry(r[category], id).Some?
    ensures r[category][FindEntry(r[category], id).value].config == Some(cfg)
    ensures FindEntry(Entries(configs, category), id).Some? ==>
      FindEntry(r[category], id) == FindEntry(Entries(configs, category), id)
    ensures |r[category]| ==
      |Entries(configs, category)| + (if FindEntry(Entries(configs, category), id).None? then 1 else 0)
    ensures forall j :: 0 <= j < |Entries(configs, category)| && Some(j) != FindEntry(Entries(configs, category), id) ==>
      r[category][j] == Entries(configs, category)[j]
    ensures CountEntries(r[category], id) ==
      if CountEntries(Entries(configs, category), id) == 0 then 1 else CountEntries(Entries(configs, category), id)
    ensures AgreeExcept(configs, r, category)
  {
    var before := Entries(configs, category);
    var ensured := EnsureEntry(configs, category, id);
    var entries := ensured.0[category];
    var k := ensured.1;
    var e := entries[k].(config := Some(cfg));
    KeepFirst(entries, k, e, id);
    CountReplace(entries, k, e, id);
    var r := ensured.0[category := entries[k := e]];
    assert r - {category} == ensured.0 - {category};
    r
  }

  /** Putting the config the first entry for `id` already holds changes
      nothing. */
  lemma PutConfigStable(configs: AppConfigs, category: string, id: string, cfg: map<string, Json>)
    requires category in configs
    requires FindEntry(configs[category], id).Some?
    requires configs[category][FindEntry(configs[category], id).value].config == Some(cfg)
    ensures PutConfig(configs, category, id, cfg) == configs
  {
    var r := PutConfig(configs, category, id, cfg);
    var entries := configs[category];
    assert r[category] == entries by {
      assert |r[category]| == |entries|;
      forall j | 0 <= j < |entries|
        ensures r[category][j] == entries[j]
      {
        if Some(j) == FindEntry(entries, id) {
          assert r[category][j].config == entries[j].config;
          assert r[category][j].id == id == entries[j].id;
        }
      }
    }
    assert r.Keys == configs.Keys;
  }

  /** Overwriting one of the three sub-objects with a non-empty value gives
      a config with a non-empty sub-object. */
  lemma OverwriteNonEmpty(config: map<string, Json>, key: string, v: Json)
    requires key in ConfigKeys && HasEntries(v)
    ensures HasNonEmptyConfig(Overwrite(config, key, v))
  {
    var r := Overwrite(config, key, v);
    assert r[key] == v;
    if key == "pluginGroups" {
      assert TruthyField(r, "pluginGroups") && HasEntries(r["pluginGroups"]);
    } else if key == "plugins" {
      assert TruthyField(r, "plugins") && HasEntries(r["plugins"]);
    } else {
      assert TruthyField(r, "routes") && HasEntries(r["routes"]);
    }
  }

  /** After a put, the config of the first entry for the id is the one put. */
  lemma ConfigOfPut(configs: AppConfigs, category: string, id: string, cfg: map<string, Json>)
    ensures ConfigOf(Entries(PutConfig(configs, category, id, cfg), category), id) == cfg
  {
    var r := PutConfig(configs, category, id, cfg);
    assert Entries(r, category) == r[category];
  }

  /** Putting a config with a non-empty sub-object makes the app configured. */
  lemma PutConfigConfigures(configs: AppConfigs, category: string, id: string, cfg: map<string, Json>)
    requires HasNonEmptyConfig(cfg)
    ensures Configured(Entries(PutConfig(configs, category, id, cfg), category), id)
  {
    var r := PutConfig(configs, category, id, cfg);
    assert Entries(r, category) == r[category];
  }

  /** Replacing the first entry for an id by one with the same id keeps it
      the first. */
  lemma KeepFirst(entries: seq<ConfigEntry>, k: nat, e: ConfigEntry, id: string)
    requires k < |entries| && FindEntry(entries, id) == Some(k) && e.id == id
    ensures FindEntry(entries[k := e], id) == Some(k)
  {
    var entries' := entries[k := e];
    assert entries'[k].id == id;
    assert forall j :: 0 <= j < k ==> entries'[j].id != id by {
      assert forall j :: 0 <= j < k ==> entries'[j] == entries[j];
    }
  }

  /** `if (!config[key]) config[key] = {}` */
  function Default(config: map<string, Json>, key: string): map<string, Json> {
    if TruthyField(config, key) then config else config[key := EmptyObject]
  }

  /** All three sub-objects present and truthy. */
  predicate Complete(config: map<string, Json>) {
    forall key :: key in ConfigKeys ==> TruthyField(config, key)
  }

  /** The three defaulting statements: every missing or falsy sub-object
      becomes `{}`; truthy ones and every other field keep their values. */
  function WithDefaults(config: map<string, Json>): (r: map<string, Json>)
    ensures Complete(r)
    ensures r.Keys == config.Keys + ConfigKeys
    ensures forall key :: TruthyField(config, key) ==> r[key] == config[key]
    ensures forall key :: key in ConfigKeys && !TruthyField(config, key) ==> r[key] == EmptyObject
    ensures forall key :: key !in ConfigKeys ==> Field(r, key) == Field(config, key)
  {
    Default(Default(Default(config, "pluginGroups"), "plugins"), "routes")
  }

  /** Defaulting a complete config changes nothing, so defaulting twice is
      defaulting once. */
  lemma WithDefaultsIdempotent(config: map<string, Json>)
    ensures Complete(config) ==> WithDefaults(config) == config
    ensures WithDefaults(WithDefaults(config)) == WithDefaults(config)
  {
    var r := WithDefaults(config);
    assert WithDefaults(r).Keys == r.Keys;
    if Complete(config) {
      assert r.Keys == config.Keys;
    }
  }

  /** `config[key] = v` followed by the three defaulting statements, as
      `saveApp` does: `key` holds `v` unless `v` is falsy and `key` is one
      of the defaulted three, and every other truthy sub-object and every
      other field keeps its value. */
  function Overwrite(config: map<string, Json>, key: string, v: Json): (r: map<string, Json>)
    ensures Complete(r) && key in r && config.Keys <= r.Keys
    ensures key !in ConfigKeys || Truthy(v) ==> r[key] == v
    ensures key in ConfigKeys && !Truthy(v) ==> r[key] == EmptyObject
    ensures forall k :: k != key && TruthyField(config, k) ==> r[k] == config[k]
    ensures forall k :: k != key && k !in ConfigKeys ==> Field(r, k) == Field(config, k)
  {
    var c := config[key := v];
    assert Field(c, key) == Some(v);
    assert forall k :: k != key ==> Field(c, k) == Field(config, k);
    assert forall k :: k != key && TruthyField(config, k) ==> TruthyField(c, k) && c[k] == config[k];
    WithDefaults(c)
  }

  /** `pluginGroups`, `plugins` or `routes` holds something. */
  predicate HasNonEmptyConfig(config: map<string, Json>) {
    || (TruthyField(config, "pluginGroups") && HasEntries(config["pluginGroups"]))
    || (TruthyField(config, "plugins") && HasEntries(config["plugins"]))
    || (TruthyField(config, "routes") && HasEntries(config["routes"]))
  }

  /** demo3's notion of a configured app: its first entry exists, has a
      config, and that config has a non-empty sub-object. */
  predicate Configured(entries: seq<ConfigEntry>, id: string) {
    match FindEntry(entries, id)
    case None => false
    case Some(k) => entries[k].config.Some? && HasNonEmptyConfig(entries[k].config.value)
  }

  /** What the first entry for `id` stores under `key`, if anything. */
  function StoredPart(entries: seq<ConfigEntry>, id: string, key: string): Option<Json> {
    match FindEntry(entries, id)
    case None => None
    case Some(k) => if entries[k].config.Some? then Field(entries[k].config.value, key) else None
  }
}
