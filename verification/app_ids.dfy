/** The string ids the console gives apps, `${category}-${index}`, and the
    way every handler reads them back: `id.split('-')`, the category from
    the first part and `parseInt` of the second. */
module AppIds {
  import opened Wrappers
  import opened Decimal
  import opened Text

  /** `s.split('-')[0]`: everything before the first dash, all of `s` when
      there is none. */
  function BeforeDash(s: string): (r: string)
    ensures |r| <= |s| && r == s[..|r|]
    ensures '-' !in r
    ensures |r| == |s| || s[|r|] == '-'
    decreases |s|
  {
    if s == [] || s[0] == '-' then [] else [s[0]] + BeforeDash(s[1..])
  }

  /** The text after the first dash, `None` when there is no dash (then
      `split('-')[1]` is `undefined`). */
  function AfterDash(s: string): (r: Option<string>)
    ensures r.None? <==> '-' !in s
    ensures r.Some? ==> s == BeforeDash(s) + "-" + r.value
    decreases |s|
  {
    if s == [] then None
    else if s[0] == '-' then Some(s[1..])
    else AfterDash(s[1..])
  }

  /** What a handler makes of an app id: the category key, and the index
      (`None` when `parseInt` gives NaN). */
  datatype AppRef = AppRef(category: string, index: Option<nat>)

  /** `const parts = id.split('-'); [parts[0], parseInt(parts[1])]`. */
  function ParseAppId(id: string): (r: AppRef)
    ensures '-' !in r.category && StartsWith(id, r.category)
    ensures |r.category| < |id| <==> '-' in id
    ensures r.index.Some? <==> AfterDash(id).Some? && |AfterDash(id).value| > 0 && IsDigit(AfterDash(id).value[0])
  {
    AppRef(BeforeDash(id),
           match AfterDash(id)
           case None => None
           case Some(rest) => ParseInt(BeforeDash(rest)))
  }

  /** `${category}-${index}`, as the list items and checkboxes are labelled. */
  function FormatAppId(category: string, index: nat): string {
    category + "-" + NatToString(index)
  }

  /** Reading back an id the console wrote gives the category and index it
      was written from, for every category name without a dash ("web",
      "tunnel", "groups"). */
  lemma ParseFormatRoundTrip(category: string, index: nat)
    requires '-' !in category
    ensures ParseAppId(FormatAppId(category, index)) == AppRef(category, Some(index))
  {
    var id := FormatAppId(category, index);
    var digits := NatToString(index);
    assert id == category + ("-" + digits);
    BeforeDashStops(category, "-" + digits);
    assert AfterDash(id) == Some(digits) by {
      AfterDashSkips(category, digits);
    }
    assert '-' !in digits by {
      forall k | 0 <= k < |digits| ensures digits[k] != '-' {
        assert IsDigit(digits[k]);
      }
    }
    BeforeDashStops(digits, "");
    assert digits + "" == digits;
    ParseIntOfNatToString(index);
  }

  /** Two ids the console writes are equal only when category and index are. */
  lemma FormatAppIdInjective(c1: string, i1: nat, c2: string, i2: nat)
    requires '-' !in c1 && '-' !in c2
    requires FormatAppId(c1, i1) == FormatAppId(c2, i2)
    ensures c1 == c2 && i1 == i2
  {
    ParseFormatRoundTrip(c1, i1);
    ParseFormatRoundTrip(c2, i2);
  }

  lemma {:induction false} BeforeDashStops(a: string, b: string)
    requires '-' !in a
    requires b == [] || b[0] == '-'
    ensures BeforeDash(a + b) == a
    decreases |a|
  {
    if a != [] {
      assert (a + b)[1..] == a[1..] + b;
      BeforeDashStops(a[1..], b);
    } else {
      assert a + b == b;
    }
  }

  lemma {:induction false} AfterDashSkips(a: string, rest: string)
    requires '-' !in a
    ensures AfterDash(a + "-" + rest) == Some(rest)
    decreases |a|
  {
    if a != [] {
      assert (a + "-" + rest)[1..] == a[1..] + "-" + rest;
      AfterDashSkips(a[1..], rest);
    } else {
      assert a + "-" + rest == "-" + rest;
    }
  }
}
