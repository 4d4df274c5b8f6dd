/**
 * The tier table view: the top three items by value, and the catalog split
 * into five tier groups, each ordered by value from highest to lowest.
 * The order among items of equal value is left open.
 */
module Ranking {
  import opened Tiers
  import opened Catalog

  /** Values never increase along the sequence. */
  predicate SortedDesc(s: seq<Item>) {
    forall i, j :: 0 <= i < j < |s| ==> s[j].value <= s[i].value
  }

  /** Inserts an item into a descending sequence before the first smaller-or-equal value. */
  function Insert(x: Item, s: seq<Item>): (r: seq<Item>)
    requires SortedDesc(s)
    ensures SortedDesc(r)
    ensures multiset(r) == multiset(s) + multiset{x}
    ensures |r| == |s| + 1 && (r[0] == x || (s != [] && r[0] == s[0]))
  {
    if s == [] then [x]
    else if s[0].value <= x.value then [x] + s
    else
      assert s == [s[0]] + s[1..];
      [s[0]] + Insert(x, s[1..])
  }

  /** Sorts by value, highest first; one admissible order among equal values. */
  function SortDesc(s: seq<Item>): (r: seq<Item>)
    ensures SortedDesc(r)
    ensures multiset(r) == multiset(s)
  {
    if s == [] then []
    else
      assert s == [s[0]] + s[1..];
      Insert(s[0], SortDesc(s[1..]))
  }

  function Min(a: int, b: int): int {
    if a <= b then a else b
  }

  /**
   * The head of ANY descending arrangement of the catalog: it holds
   * min(n, |catalog|) items in descending order, together with the tail it is
   * the whole catalog, and no item of the tail is worth more than any item
   * of the head.
   */
  lemma HeadOfSorted(catalog: seq<Item>, sorted: seq<Item>, n: nat)
    requires SortedDesc(sorted)
    requires multiset(sorted) == multiset(catalog)
    ensures |sorted| == |catalog|
    ensures var k := Min(n, |catalog|);
      && SortedDesc(sorted[..k])
      && multiset(sorted[..k]) + multiset(sorted[k..]) == multiset(catalog)
      && forall x, y :: x in sorted[..k] && y in sorted[k..] ==> y.value <= x.value
  {
    assert |multiset(sorted)| == |multiset(catalog)|;
    var k := Min(n, |catalog|);
    assert sorted == sorted[..k] + sorted[k..];
    forall x, y | x in sorted[..k] && y in sorted[k..] ensures y.value <= x.value {
      var i :| 0 <= i < k && sorted[..k][i] == x;
      var j :| 0 <= j < |sorted| - k && sorted[k..][j] == y;
      assert sorted[i] == x && sorted[k + j] == y;
    }
  }

  /**
   * The three most valuable items, highest first: exactly min(3, |catalog|)
   * items drawn from the catalog, none worth less than any item left out.
   */
  function TopThree(catalog: seq<Item>): (top: seq<Item>)
    ensures |top| == Min(3, |catalog|)
    ensures SortedDesc(top)
    ensures multiset(top) <= multiset(catalog)
    ensures forall x, y :: x in top && y in multiset(catalog) - multiset(top) ==> y.value <= x.value
  {
    var sorted := SortDesc(catalog);
    HeadOfSorted(catalog, sorted, 3);
    var k := Min(3, |catalog|);
    assert multiset(catalog) - multiset(sorted[..k]) == multiset(sorted[k..]);
    sorted[..k]
  }

  /** The catalog items of one tier, in catalog order. */
  function TierFilter(catalog: seq<Item>, t: Tier): (r: seq<Item>)
    ensures forall x :: multiset(r)[x] == if x.tier == t then multiset(catalog)[x] else 0
  {
    if catalog == [] then []
    else
      assert catalog == [catalog[0]] + catalog[1..];
      var rest := TierFilter(catalog[1..], t);
      if catalog[0].tier == t then [catalog[0]] + rest else rest
  }

  /**
   * One tab of the tier table: every catalog item of tier `t`, each as often
   * as it occurs in the catalog, and no other item, highest value first.
   */
  function TierGroup(catalog: seq<Item>, t: Tier): (g: seq<Item>)
    ensures SortedDesc(g)
    ensures forall x :: multiset(g)[x] == if x.tier == t then multiset(catalog)[x] else 0
  {
    SortDesc(TierFilter(catalog, t))
  }

  /** The five tier groups together hold exactly the catalog. */
  lemma TierGroupsPartition(catalog: seq<Item>)
    ensures multiset(TierGroup(catalog, SS)) + multiset(TierGroup(catalog, S))
          + multiset(TierGroup(catalog, A)) + multiset(TierGroup(catalog, B))
          + multiset(TierGroup(catalog, C)) == multiset(catalog)
  {
    var m := multiset(catalog);
    var gSS, gS, gA := multiset(TierGroup(catalog, SS)), multiset(TierGroup(catalog, S)), multiset(TierGroup(catalog, A));
    var gB, gC := multiset(TierGroup(catalog, B)), multiset(TierGroup(catalog, C));
    var u := gSS + gS + gA + gB + gC;
    forall x ensures u[x] == m[x] {
      assert gSS[x] == if x.tier == SS then m[x] else 0;
      assert gS[x] == if x.tier == S then m[x] else 0;
      assert gA[x] == if x.tier == A then m[x] else 0;
      assert gB[x] == if x.tier == B then m[x] else 0;
      assert gC[x] == if x.tier == C then m[x] else 0;
    }
    MultisetExt(u, m);
  }

  /** Two multisets with the same count for every element are equal. */
  lemma MultisetExt(u: multiset<Item>, m: multiset<Item>)
    requires forall x :: u[x] == m[x]
    ensures u == m
  {
  }

  /** Each catalog item appears in the group of its own tier and in no other. */
  lemma ExactlyOneGroup(catalog: seq<Item>, x: Item)
    requires x in catalog
    ensures x in TierGroup(catalog, x.tier)
    ensures forall t :: t != x.tier ==> x !in TierGroup(catalog, t)
  {
  }

  /** A member of a tier group is a catalog item of that tier. */
  lemma GroupMember(catalog: seq<Item>, t: Tier, x: Item)
    requires x in TierGroup(catalog, t)
    ensures x in catalog && x.tier == t
  {
  }

  /**
   * In a normalised catalog the groups are ordered among themselves: every
   * item of a higher tier is worth strictly more than every item of a lower one.
   */
  lemma TierGroupsSeparated(catalog: seq<Item>, hi: Tier, lo: Tier)
    requires forall it :: it in catalog ==> WellFormed(it)
    requires Rank(lo) < Rank(hi)
    ensures forall x, y :: x in TierGroup(catalog, hi) && y in TierGroup(catalog, lo) ==> y.value < x.value
  {
    forall x, y | x in TierGroup(catalog, hi) && y in TierGroup(catalog, lo) ensures y.value < x.value {
      GroupMember(catalog, hi, x);
      GroupMember(catalog, lo, y);
      HigherTierLargerValue(x.value, y.value);
    }
  }

  /** An empty catalog has no top items and five empty groups. */
  lemma EmptyCatalogViews()
    ensures TopThree([]) == []
    ensures forall t :: TierGroup([], t) == []
  {
  }
}
