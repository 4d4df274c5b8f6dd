/**
 * The trade valuation: each side's selection of display names is resolved
 * against the catalog (first matching row), its values are summed with
 * repeats counted each time, and the signed difference "their total minus my
 * total" is classified as a gain, a loss or a fair trade for the user.
 */
module Valuation {
  import opened Tiers
  import opened Names
  import opened Catalog

  /**
   * The display names offered by the two selection widgets, in catalog order:
   * every row is offered, and every offered name resolves to a row.
   */
  function Options(catalog: seq<Item>): (opts: seq<string>)
    ensures forall i :: 0 <= i < |catalog| ==> catalog[i].displayName in opts
    ensures forall d :: d in opts ==> FirstMatch(catalog, d) < |catalog|
  {
    var opts := seq(|catalog|, i requires 0 <= i < |catalog| => catalog[i].displayName);
    assert forall i :: 0 <= i < |catalog| ==> opts[i] == catalog[i].displayName;
    opts
  }

  /** Every name of a selection is offered by the catalog. */
  predicate Resolvable(catalog: seq<Item>, selection: seq<string>) {
    forall d :: d in selection ==> d in Options(catalog)
  }

  /**
   * The row a display name resolves to: the index of the first item with that
   * display name, or |catalog| when there is none.
   */
  function FirstMatch(catalog: seq<Item>, d: string): (i: nat)
    ensures i <= |catalog|
    ensures i < |catalog| ==> catalog[i].displayName == d
    ensures forall j :: 0 <= j < i ==> catalog[j].displayName != d
  {
    if catalog == [] then 0
    else if catalog[0].displayName == d then 0
    else 1 + FirstMatch(catalog[1..], d)
  }

  /** The lookup finds a row exactly when the name is offered. */
  lemma FoundIffOffered(catalog: seq<Item>, d: string)
    ensures FirstMatch(catalog, d) < |catalog| <==> d in Options(catalog)
  {
    if d in Options(catalog) {
      var k :| 0 <= k < |catalog| && Options(catalog)[k] == d;
      assert catalog[k].displayName == d;
    }
  }

  /** The value of the first catalog row whose display name is the selected one. */
  function PriceOf(catalog: seq<Item>, d: string): (price: int)
    requires d in Options(catalog)
    ensures exists i :: (0 <= i < |catalog| && catalog[i].displayName == d && catalog[i].value == price
                         && forall j :: 0 <= j < i ==> catalog[j].displayName != d)
  {
    FoundIffOffered(catalog, d);
    catalog[FirstMatch(catalog, d)].value
  }

  /**
   * The value of a selection: the resolved values summed over the list, in
   * order. Nothing selected is worth 0, and items of non-negative value
   * never sum to a negative total.
   */
  function Total(catalog: seq<Item>, selection: seq<string>): (total: int)
    requires Resolvable(catalog, selection)
    ensures selection == [] ==> total == 0
    ensures (forall it :: it in catalog ==> it.value >= 0) ==> total >= 0
  {
    if selection == [] then 0
    else
      var d := selection[|selection| - 1];
      FoundIffOffered(catalog, d);
      assert catalog[FirstMatch(catalog, d)] in catalog;
      Total(catalog, selection[..|selection| - 1]) + PriceOf(catalog, d)
  }

  /** Summing from the front gives the same total: the first name's value plus the rest's total. */
  lemma {:induction false} TotalFront(catalog: seq<Item>, selection: seq<string>)
    requires Resolvable(catalog, selection)
    requires selection != []
    ensures Resolvable(catalog, selection[1..])
    ensures Total(catalog, selection) == PriceOf(catalog, selection[0]) + Total(catalog, selection[1..])
  {
    assert selection == [selection[0]] + selection[1..];
    TotalAppend(catalog, [selection[0]], selection[1..]);
    assert [selection[0]][..0] == [];
  }

  /**
   * Accumulates one side's total step by step over its selection, resolving
   * each name to the first catalog row with that display name.
   */
  method SideTotal(catalog: seq<Item>, selection: seq<string>) returns (total: int)
    requires Resolvable(catalog, selection)
    ensures total == Total(catalog, selection)
  {
    total := 0;
    var i := 0;
    while i < |selection|
      invariant 0 <= i <= |selection|
      invariant total == Total(catalog, selection[..i])
    {
      var d := selection[i];
      assert d in selection;
      FoundIffOffered(catalog, d);
      var row := catalog[FirstMatch(catalog, d)];
      total := total + row.value;
      assert selection[..i + 1][..i] == selection[..i];
      i := i + 1;
    }
    assert selection[..i] == selection;
  }

  /** Concatenating two selections adds their totals. */
  lemma {:induction false} TotalAppend(catalog: seq<Item>, s: seq<string>, t: seq<string>)
    requires Resolvable(catalog, s) && Resolvable(catalog, t)
    ensures Resolvable(catalog, s + t)
    ensures Total(catalog, s + t) == Total(catalog, s) + Total(catalog, t)
  {
    if t == [] {
      assert s + t == s;
    } else {
      var t' := t[..|t| - 1];
      assert (s + t)[..|s + t| - 1] == s + t';
      assert Resolvable(catalog, t') by {
        forall d | d in t' ensures d in Options(catalog) {
          var k :| 0 <= k < |t'| && t'[k] == d;
          assert t[k] == d;
        }
      }
      TotalAppend(catalog, s, t');
    }
  }

  /** A sub-multiset of a resolvable selection is resolvable. */
  lemma ResolvableSub(catalog: seq<Item>, u: seq<string>, v: seq<string>)
    requires Resolvable(catalog, v)
    requires multiset(u) <= multiset(v)
    ensures Resolvable(catalog, u)
  {
    forall d | d in u ensures d in Options(catalog) {
      assert d in multiset(u);
      assert d in multiset(v);
    }
  }

  /** Removing one occurrence of a name from a selection subtracts its value once. */
  lemma TotalRemoveOne(catalog: seq<Item>, t1: seq<string>, x: string, t2: seq<string>)
    requires Resolvable(catalog, t1 + [x] + t2)
    ensures Resolvable(catalog, t1 + t2) && x in Options(catalog)
    ensures Total(catalog, t1 + [x] + t2) == Total(catalog, t1 + t2) + PriceOf(catalog, x)
  {
    ResolvableSub(catalog, t1, t1 + [x] + t2);
    ResolvableSub(catalog, t2, t1 + [x] + t2);
    ResolvableSub(catalog, [x], t1 + [x] + t2);
    TotalAppend(catalog, t1, t2);
    TotalAppend(catalog, t1, [x]);
    TotalAppend(catalog, t1 + [x], t2);
    assert [x][..0] == [];
  }

  /** Multisets cancel a common element. */
  lemma MultisetCancel(s: seq<string>, x: string, t1: seq<string>, t2: seq<string>)
    requires multiset(s + [x]) == multiset(t1 + [x] + t2)
    ensures multiset(s) == multiset(t1 + t2)
  {
    assert multiset(s) == multiset(s + [x]) - multiset{x};
    assert multiset(t1 + t2) == multiset(t1 + [x] + t2) - multiset{x};
  }

  /**
   * A total depends only on how many times each name is selected, not on
   * the order: repeats count each time and reordering changes nothing.
   */
  lemma {:induction false} TotalPermutation(catalog: seq<Item>, s: seq<string>, t: seq<string>)
    requires Resolvable(catalog, s)
    requires multiset(s) == multiset(t)
    ensures Resolvable(catalog, t)
    ensures Total(catalog, s) == Total(catalog, t)
  {
    ResolvableSub(catalog, t, s);
    if s != [] {
      var n := |s| - 1;
      var x, s' := s[n], s[..n];
      assert s == s' + [x];
      assert x in multiset(t);
      var k :| 0 <= k < |t| && t[k] == x;
      var t1, t2 := t[..k], t[k + 1..];
      assert t == t1 + [x] + t2;
      MultisetCancel(s', x, t1, t2);
      TotalRemoveOne(catalog, t1, x, t2);
      TotalPermutation(catalog, s', t1 + t2);
    }
  }

  /** No two items share a display name. */
  predicate DistinctDisplayNames(catalog: seq<Item>) {
    forall i, j :: 0 <= i < j < |catalog| ==> catalog[i].displayName != catalog[j].displayName
  }

  /** With distinct display names, every item's own display name resolves to that item. */
  lemma ResolvesToOwnRow(catalog: seq<Item>, i: nat)
    requires DistinctDisplayNames(catalog)
    requires i < |catalog|
    ensures FirstMatch(catalog, catalog[i].displayName) == i
  {
  }

  /**
   * Distinct parenthesis-free names give distinct display names after
   * normalisation, so the first-match lookup is never ambiguous.
   */
  lemma NormalisedDisplayNamesDistinct(db: seq<Raw>)
    requires forall i, j :: 0 <= i < j < |db| ==> db[i].name != db[j].name
    requires forall i :: 0 <= i < |db| ==> ParenFree(db[i].name)
    ensures DistinctDisplayNames(NormaliseAll(db))
  {
    forall i, j | 0 <= i < j < |db|
      ensures NormaliseAll(db)[i].displayName != NormaliseAll(db)[j].displayName
    {
      DisplayNameInjective(db[i].name, db[j].name);
    }
  }

  /** The outcome of a trade for the user: what they gain or lose, or a fair trade. */
  datatype Outcome = Gain(amount: nat) | Loss(amount: nat) | Fair

  /**
   * Classifies the signed difference "their total minus my total": a positive
   * difference is a gain of that much, a negative one a loss of its absolute
   * value, zero a fair trade.
   */
  function Classify(diff: int): (o: Outcome)
    ensures o.Gain? <==> diff > 0
    ensures o.Loss? <==> diff < 0
    ensures o.Fair? <==> diff == 0
    ensures !o.Fair? ==> o.amount > 0
  {
    if diff > 0 then Gain(diff)
    else if diff < 0 then Loss(-diff)
    else Fair
  }

  /** The signed difference an outcome stands for. */
  function Signed(o: Outcome): int {
    match o
    case Gain(k) => k
    case Loss(k) => -(k as int)
    case Fair => 0
  }

  /** The outcome keeps the whole difference: its sign and its magnitude. */
  lemma ClassifyRoundTrip(diff: int)
    ensures Signed(Classify(diff)) == diff
  {
  }

  /** Swapping the two sides turns a gain into a loss of the same amount. */
  lemma ClassifySwap(myTotal: int, theirTotal: int)
    ensures Classify(theirTotal - myTotal).Gain? <==> Classify(myTotal - theirTotal).Loss?
    ensures Classify(theirTotal - myTotal).Fair? <==> Classify(myTotal - theirTotal).Fair?
    ensures Signed(Classify(theirTotal - myTotal)) == -Signed(Classify(myTotal - theirTotal))
  {
  }

  /** The result of valuing a trade. */
  datatype TradeResult = TradeResult(myTotal: int, theirTotal: int, diff: int, outcome: Outcome)

  /** Values both sides of a trade and classifies the difference. */
  method Valuate(catalog: seq<Item>, mine: seq<string>, theirs: seq<string>) returns (v: TradeResult)
    requires Resolvable(catalog, mine) && Resolvable(catalog, theirs)
    ensures v.myTotal == Total(catalog, mine) && v.theirTotal == Total(catalog, theirs)
    ensures v.diff == v.theirTotal - v.myTotal
    ensures v.outcome == Classify(v.diff)
  {
    var myTotal := SideTotal(catalog, mine);
    var theirTotal := SideTotal(catalog, theirs);
    var diff := theirTotal - myTotal;
    v := TradeResult(myTotal, theirTotal, diff, Classify(diff));
  }

  /** A three-item catalog whose display names are their names. */
  function SampleCatalog(): seq<Item> {
    [ Item("A", 1_000_000, "", "", "", TierOf(1_000_000), "A"),
      Item("B", 2_000_000, "", "", "", TierOf(2_000_000), "B"),
      Item("C", 500_000, "", "", "", TierOf(500_000), "C") ]
  }

  /**
   * On the sample catalog, giving A and C for B gains 500000; selecting A
   * twice counts it twice; two empty selections are a fair trade.
   */
  lemma SampleValuations()
    ensures Resolvable(SampleCatalog(), ["A", "C"]) && Resolvable(SampleCatalog(), ["B"])
    ensures Total(SampleCatalog(), ["A", "C"]) == 1_500_000
    ensures Total(SampleCatalog(), ["B"]) == 2_000_000
    ensures Classify(Total(SampleCatalog(), ["B"]) - Total(SampleCatalog(), ["A", "C"])) == Gain(500_000)
    ensures Resolvable(SampleCatalog(), ["A", "A"]) && Total(SampleCatalog(), ["A", "A"]) == 2_000_000
    ensures Total(SampleCatalog(), []) == 0 && Classify(0) == Fair
  {
    var c := SampleCatalog();
    assert Options(c) == ["A", "B", "C"];
    assert ["A", "C"][..1] == ["A"];
    assert ["A", "A"][..1] == ["A"];
    assert ["A"][..0] == [] && ["B"][..0] == [];
  }
}
