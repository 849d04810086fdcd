/** `applyPluginGroupToSelectedApps`: write one plugin group into the
    `plugin_group_id` of every checked app, or of every app listed by a
    checked app-group. The two console variants carry the same handler. */
module BulkApply {
  import opened Wrappers
  import opened Json
  import opened AppIds
  import opened Maps
  import opened Catalogue

  /** One entry of `selectedApps`: a checked app of a category, or a
      checked app-group (its index in `apps.groups`). */
  datatype Target = Direct(category: string, index: nat) | AppGroup(index: nat)

  /** `selectedApps` as built from the active radio (`web`, `tunnel` or
      `app-group`) and the `data-index` of each checked box, in order; any
      other radio value selects nothing. */
  function Selection(activeType: string, checked: seq<nat>): (r: seq<Target>)
    ensures activeType == "web" || activeType == "tunnel" ==>
      |r| == |checked| && forall k :: 0 <= k < |checked| ==> r[k] == Direct(activeType, checked[k])
    ensures activeType == "app-group" ==>
      |r| == |checked| && forall k :: 0 <= k < |checked| ==> r[k] == AppGroup(checked[k])
    ensures activeType != "web" && activeType != "tunnel" && activeType != "app-group" ==> r == []
  {
    if activeType == "web" || activeType == "tunnel" then
      seq(|checked|, k requires 0 <= k < |checked| => Direct(activeType, checked[k]))
    else if activeType == "app-group" then
      seq(|checked|, k requires 0 <= k < |checked| => AppGroup(checked[k]))
    else []
  }

  /** The body of the inner `forEach` over an app-group's `apps` list:
      every entry must be a string (`groupApp.split` throws a TypeError on
      anything else, stopping the handler); the result is the parsed
      references up to that point and whether the handler stopped. */
  function MemberRefs(items: seq<Json>): (r: (seq<AppRef>, bool))
    ensures |r.0| <= |items|
    ensures !r.1 ==> |r.0| == |items|
    ensures forall k :: 0 <= k < |r.0| ==> items[k].Str? && r.0[k] == ParseAppId(items[k].s)
    ensures r.1 ==> |r.0| < |items| && !items[|r.0|].Str?
    decreases |items|
  {
    if items == [] then ([], false)
    else if !items[0].Str? then ([], true)
    else
      var rest := MemberRefs(items[1..]);
      ([ParseAppId(items[0].s)] + rest.0, rest.1)
  }

  /** The references one selected entry stands for, read from `apps`, and
      whether reading them throws. An app-group is skipped when it does
      not exist or its `apps` field is falsy; a truthy `apps` field that is
      not an array has no `forEach` and throws. */
  function Expand(apps: Catalogue, t: Target): (seq<AppRef>, bool) {
    match t
    case Direct(c, i) => ([AppRef(c, Some(i))], false)
    case AppGroup(g) =>
      if "groups" in apps && g < |apps["groups"]| && TruthyField(apps["groups"][g], "apps") then
        match apps["groups"][g]["apps"]
        case Arr(items) => MemberRefs(items)
        case _ => ([], true)
      else ([], false)
  }

  /** One assignment `apps[category][index].plugin_group_id = group`,
      skipped when the reference does not resolve. */
  function Stamp(apps: Catalogue, ref: AppRef, group: string): Catalogue {
    if Resolves(apps, ref.category, ref.index) then
      var rec := apps[ref.category][ref.index.value];
      UpdateRecord(apps, ref.category, ref.index.value, rec[GroupKey := Str(group)])
    else apps
  }

  /** The assignments for a list of references, in order. */
  function StampAll(apps: Catalogue, refs: seq<AppRef>, group: string): Catalogue
    decreases |refs|
  {
    if refs == [] then apps else StampAll(Stamp(apps, refs[0], group), refs[1..], group)
  }

  /** The outer `forEach`, in place: each entry is read from the catalogue
      as the earlier entries left it; a throw keeps the assignments made so
      far and skips the rest. The flag tells whether the handler threw. */
  function ApplyTargets(apps: Catalogue, ts: seq<Target>, group: string): (Catalogue, bool)
    decreases |ts|
  {
    if ts == [] then (apps, false)
    else
      var e := Expand(apps, ts[0]);
      var apps' := StampAll(apps, e.0, group);
      if e.1 then (apps', true) else ApplyTargets(apps', ts[1..], group)
  }

  /** Every reference the selection reaches, read from the catalogue as it
      was before the click, up to the first throw; the flag tells whether a
      throw cut the list short. */
  function Reached(apps: Catalogue, ts: seq<Target>): (seq<AppRef>, bool)
    decreases |ts|
  {
    if ts == [] then ([], false)
    else
      var e := Expand(apps, ts[0]);
      if e.1 then e
      else
        var rest := Reached(apps, ts[1..]);
        (e.0 + rest.0, rest.1)
  }

  /** `after` is `before` with the group written into exactly the records
      that `refs` names, and nothing else changed. */
  predicate StampedExactly(before: Catalogue, after: Catalogue, refs: seq<AppRef>, group: string) {
    && after.Keys == before.Keys
    && (forall c :: c in before ==> |after[c]| == |before[c]|)
    && (forall c, i :: c in before && 0 <= i < |before[c]| ==>
          after[c][i] == (if AppRef(c, Some(i)) in refs then before[c][i][GroupKey := Str(group)]
                          else before[c][i]))
  }

  /** The two catalogues differ at most in `plugin_group_id` fields. */
  predicate SameButBindings(a: Catalogue, b: Catalogue) {
    && a.Keys == b.Keys
    && (forall c :: c in a ==> |a[c]| == |b[c]|)
    && (forall c, i :: c in a && 0 <= i < |a[c]| ==> AgreeExcept(a[c][i], b[c][i], GroupKey))
  }

  /** `applyPluginGroupToSelectedApps`, given the dropdown's value, the
      active radio and the checked indices. No group chosen, or nothing
      checked, leaves the catalogue as it was; otherwise the group is
      written into exactly the apps the selection reaches (each checked
      app, or each resolvable member of each checked app-group, up to the
      first entry that throws) and nothing else changes. */
  function ApplyPluginGroupToSelectedApps(apps: Catalogue, selectedGroupId: string,
                                          activeType: string, checked: seq<nat>): (r: Catalogue)
    ensures selectedGroupId == "" || Selection(activeType, checked) == [] ==> r == apps
    ensures selectedGroupId != "" ==>
      StampedExactly(apps, r, Reached(apps, Selection(activeType, checked)).0, selectedGroupId)
  {
    var ts := Selection(activeType, checked);
    if selectedGroupId == "" then
      apps
    else if ts == [] then
      StampedExactlyNothing(apps, [], selectedGroupId);
      apps
    else
      ApplyTargetsReachesExactly(apps, ts, selectedGroupId);
      ApplyTargets(apps, ts, selectedGroupId).0
  }

  /** With the web or tunnel list active nothing can throw, and the apps
      reached are exactly the checked ones of that category. */
  lemma DirectSelectionReached(apps: Catalogue, activeType: string, checked: seq<nat>, c: string, i: nat)
    requires activeType == "web" || activeType == "tunnel"
    ensures !Reached(apps, Selection(activeType, checked)).1
    ensures AppRef(c, Some(i)) in Reached(apps, Selection(activeType, checked)).0 <==>
            c == activeType && i in checked
  {
    DirectReached(apps, Selection(activeType, checked), activeType, c, i);
    var ts := Selection(activeType, checked);
    if c == activeType && i in checked {
      var k :| 0 <= k < |checked| && checked[k] == i;
      assert ts[k] == Direct(c, i);
    }
  }

  /** Targets that are all direct picks of one category reach exactly the
      apps picked, and none of them throws. */
  lemma {:induction false} DirectReached(apps: Catalogue, ts: seq<Target>, cat: string, c: string, i: nat)
    requires forall k :: 0 <= k < |ts| ==> ts[k].Direct? && ts[k].category == cat
    ensures !Reached(apps, ts).1
    ensures AppRef(c, Some(i)) in Reached(apps, ts).0 <==> c == cat && Direct(cat, i) in ts
    decreases |ts|
  {
    if ts != [] {
      DirectReached(apps, ts[1..], cat, c, i);
      assert ts == [ts[0]] + ts[1..];
    }
  }

  // ---- proof of ApplyPluginGroupToSelectedApps ----

  lemma StampedExactlyNothing(apps: Catalogue, refs: seq<AppRef>, group: string)
    requires refs == []
    ensures StampedExactly(apps, apps, refs, group)
  {
  }

  lemma StampSpec(apps: Catalogue, ref: AppRef, group: string)
    ensures StampedExactly(apps, Stamp(apps, ref, group), [ref], group)
  {
    var r := Stamp(apps, ref, group);
    forall c, i | c in apps && 0 <= i < |apps[c]|
      ensures r[c][i] == (if AppRef(c, Some(i)) in [ref] then apps[c][i][GroupKey := Str(group)]
                          else apps[c][i])
    {
      if AppRef(c, Some(i)) == ref {
        assert Resolves(apps, ref.category, ref.index);
      }
    }
  }

  /** Writing the same group twice is writing it once, so stamps compose. */
  lemma StampedCompose(a: Catalogue, b: Catalogue, c: Catalogue, r1: seq<AppRef>, r2: seq<AppRef>, group: string)
    requires StampedExactly(a, b, r1, group)
    requires StampedExactly(b, c, r2, group)
    ensures StampedExactly(a, c, r1 + r2, group)
  {
    forall k, i | k in a && 0 <= i < |a[k]|
      ensures c[k][i] == (if AppRef(k, Some(i)) in r1 + r2 then a[k][i][GroupKey := Str(group)]
                          else a[k][i])
    {
      var rec := a[k][i];
      if AppRef(k, Some(i)) in r1 && AppRef(k, Some(i)) in r2 {
        assert rec[GroupKey := Str(group)][GroupKey := Str(group)] == rec[GroupKey := Str(group)];
      }
    }
  }

  lemma {:induction false} StampAllSpec(apps: Catalogue, refs: seq<AppRef>, group: string)
    ensures StampedExactly(apps, StampAll(apps, refs, group), refs, group)
    decreases |refs|
  {
    if refs == [] {
      StampedExactlyNothing(apps, refs, group);
    } else {
      var a1 := Stamp(apps, refs[0], group);
      StampSpec(apps, refs[0], group);
      StampAllSpec(a1, refs[1..], group);
      StampedCompose(apps, a1, StampAll(a1, refs[1..], group), [refs[0]], refs[1..], group);
      assert [refs[0]] + refs[1..] == refs;
    }
  }

  lemma StampedSameButBindings(a: Catalogue, b: Catalogue, refs: seq<AppRef>, group: string)
    requires StampedExactly(a, b, refs, group)
    ensures SameButBindings(a, b)
  {
    forall c, i | c in a && 0 <= i < |a[c]|
      ensures AgreeExcept(a[c][i], b[c][i], GroupKey)
    {
      var rec := a[c][i];
      if AppRef(c, Some(i)) in refs {
        assert b[c][i] == rec[GroupKey := Str(group)];
        assert rec[GroupKey := Str(group)] - {GroupKey} == rec - {GroupKey};
      } else {
        assert b[c][i] == rec;
      }
    }
  }

  /** Reading a selected entry only looks at `apps.groups` and its records'
      `apps` fields, which writing bindings does not touch. */
  lemma ExpandStable(a: Catalogue, b: Catalogue, t: Target)
    requires SameButBindings(a, b)
    ensures Expand(a, t) == Expand(b, t)
  {
    if t.AppGroup? && "groups" in a && t.index < |a["groups"]| {
      AgreeExceptPointwise(a["groups"][t.index], b["groups"][t.index], GroupKey, "apps");
    }
  }

  /** The apps a selection reaches, and whether it throws, depend only on
      the records' fields other than `plugin_group_id`. */
  lemma {:induction false} ReachedStable(a: Catalogue, b: Catalogue, ts: seq<Target>)
    requires SameButBindings(a, b)
    ensures Reached(a, ts) == Reached(b, ts)
    decreases |ts|
  {
    if ts != [] {
      ExpandStable(a, b, ts[0]);
      ReachedStable(a, b, ts[1..]);
    }
  }

  lemma {:induction false} ApplyTargetsReachesExactly(a: Catalogue, ts: seq<Target>, group: string)
    ensures StampedExactly(a, ApplyTargets(a, ts, group).0, Reached(a, ts).0, group)
    ensures ApplyTargets(a, ts, group).1 == Reached(a, ts).1
    decreases |ts|
  {
    if ts == [] {
      StampedExactlyNothing(a, [], group);
    } else {
      var e := Expand(a, ts[0]);
      var a1 := StampAll(a, e.0, group);
      StampAllSpec(a, e.0, group);
      if !e.1 {
        var rest := Reached(a, ts[1..]);
        StampedSameButBindings(a, a1, e.0, group);
        ReachedStable(a, a1, ts[1..]);
        ApplyTargetsReachesExactly(a1, ts[1..], group);
        StampedCompose(a, a1, ApplyTargets(a1, ts[1..], group).0, e.0, rest.0, group);
      }
    }
  }
}
