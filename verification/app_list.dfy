/** The rows `updateAppList` renders for one category: each app's display
    name must contain the search term (case-insensitively) and the app must
    pass the `all` / `configured` / `unconfigured` filter. What "configured"
    means differs between the two console variants, so it comes in as one
    flag per app. */
module AppList {
  import opened Wrappers
  import opened Json
  import opened Decimal
  import opened Text
  import opened Catalogue

  /** An app with a non-empty string name is listed under that name. */
  predicate HasOwnName(rec: Record) {
    "name" in rec && rec["name"].Str? && rec["name"].s != ""
  }

  /** `app.name || `${prefix}${index+1}``: the app's own name when it is a
      non-empty string, otherwise the numbered default. */
  function DisplayName(rec: Record, index: nat, prefix: string): (r: string)
    ensures HasOwnName(rec) ==> r == rec["name"].s
    ensures !HasOwnName(rec) ==> StartsWith(r, prefix) && ParseInt(r[|prefix|..]) == Some(index + 1)
  {
    ParseIntOfNatToString(index + 1);
    if HasOwnName(rec) then rec["name"].s
    else prefix + NatToString(index + 1)
  }

  /** Apps without a name of their own get distinct default names within a
      list: the numbers after the prefix read back as their positions plus
      one. */
  lemma DefaultNamesDistinct(r1: Record, i: nat, r2: Record, j: nat, prefix: string)
    requires !HasOwnName(r1) && !HasOwnName(r2)
    requires i != j
    ensures DisplayName(r1, i, prefix) != DisplayName(r2, j, prefix)
  {
  }

  /** The display names of a category's records. */
  function Names(recs: seq<Record>, prefix: string): (r: seq<string>)
    ensures |r| == |recs|
    ensures forall i :: 0 <= i < |recs| ==> r[i] == DisplayName(recs[i], i, prefix)
  {
    seq(|recs|, i requires 0 <= i < |recs| => DisplayName(recs[i], i, prefix))
  }

  /** The search test: an empty term keeps everything, otherwise the
      lowercased term must occur in the lowercased name. `lower` stands for
      `toLowerCase`. */
  predicate MatchesSearch(name: string, term: string, lower: string -> string) {
    term == "" || Contains(lower(name), lower(term))
  }

  /** The filter test: `configured` drops unconfigured apps, `unconfigured`
      drops configured ones, any other value (`all`) drops nothing. */
  predicate PassesFilter(filter: string, configured: bool) {
    !(filter == "configured" && !configured) && !(filter == "unconfigured" && configured)
  }

  predicate Shown(name: string, configured: bool, term: string, filter: string, lower: string -> string) {
    MatchesSearch(name, term, lower) && PassesFilter(filter, configured)
  }

  /** The indices of the rendered rows, in list order: exactly the apps that
      pass both tests, each once, ascending. */
  function Listed(names: seq<string>, configured: seq<bool>, term: string, filter: string,
                  lower: string -> string): (r: seq<nat>)
    requires |names| == |configured|
    ensures forall i: nat :: i in r <==> i < |names| && Shown(names[i], configured[i], term, filter, lower)
    ensures forall k :: 0 <= k < |r| ==> r[k] < |names|
    ensures forall a, b :: 0 <= a < b < |r| ==> r[a] < r[b]
    decreases |names|
  {
    if names == [] then []
    else
      var n := |names| - 1;
      var front := Listed(names[..n], configured[..n], term, filter, lower);
      front + (if Shown(names[n], configured[n], term, filter, lower) then [n] else [])
  }

  /** For a fixed search term, the `configured` and `unconfigured` lists
      split the `all` list: no app is in both, every listed app is in one,
      the lengths add up, and an app is in the `configured` list exactly
      when it is listed and configured. */
  lemma {:induction false} FilterPartition(names: seq<string>, configured: seq<bool>, term: string,
                                           lower: string -> string)
    requires |names| == |configured|
    ensures var all := Listed(names, configured, term, "all", lower);
      var on := Listed(names, configured, term, "configured", lower);
      var off := Listed(names, configured, term, "unconfigured", lower);
      && |on| + |off| == |all|
      && (forall i :: i in on ==> i !in off)
      && (forall i :: i in all <==> i in on || i in off)
      && (forall i: nat :: i in on <==> i in all && configured[i])
    decreases |names|
  {
    if names != [] {
      var n := |names| - 1;
      FilterPartition(names[..n], configured[..n], term, lower);
    }
  }

  /** With an empty search term and the `all` filter, every app is listed,
      in order. */
  lemma {:induction false} EmptySearchListsAll(names: seq<string>, configured: seq<bool>,
                                               lower: string -> string)
    requires |names| == |configured|
    ensures |Listed(names, configured, "", "all", lower)| == |names|
    ensures forall i :: 0 <= i < |names| ==> Listed(names, configured, "", "all", lower)[i] == i
    decreases |names|
  {
    if names != [] {
      var n := |names| - 1;
      EmptySearchListsAll(names[..n], configured[..n], lower);
    }
  }
}
