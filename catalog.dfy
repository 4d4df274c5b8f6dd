/**
 * Catalog loading and normalisation. The loaded records form a table whose
 * columns are updated in place: the value column has absent entries replaced
 * by 0, then a tier column and a display-name column are derived per row.
 */
module Catalog {
  import opened Wrappers
  import opened Tiers
  import opened Names

  /** One record as read from the data file; `value` may be absent. */
  datatype Raw = Raw(name: string, value: Option<int>, image: string, category: string, trend: string)

  /** One catalog item after normalisation, with its derived tier and display name. */
  datatype Item = Item(
    name: string, value: int, image: string, category: string, trend: string,
    tier: Tier, displayName: string)

  /** An item whose derived columns agree with its value and name. */
  predicate WellFormed(it: Item) {
    it.tier == TierOf(it.value) && it.displayName == DisplayName(it.name)
  }

  /**
   * The item a raw record becomes once its table has been normalised: an
   * absent value becomes 0, a present one is kept, the opaque columns are
   * kept, and tier and display name are derived from value and name only.
   */
  function NormaliseRecord(r: Raw): (it: Item)
    ensures r.value.None? ==> it.value == 0
    ensures r.value.Some? ==> it.value == r.value.value
    ensures it.name == r.name && it.image == r.image
    ensures it.category == r.category && it.trend == r.trend
    ensures WellFormed(it)
  {
    var v := r.value.GetOr(0);
    Item(r.name, v, r.image, r.category, r.trend, TierOf(v), DisplayName(r.name))
  }

  /**
   * The whole catalog after normalisation: one well-formed item per record,
   * in record order, with the record's name and its value or 0.
   */
  function NormaliseAll(db: seq<Raw>): (items: seq<Item>)
    ensures |items| == |db|
    ensures forall i :: 0 <= i < |db| ==>
      && items[i].name == db[i].name
      && items[i].value == db[i].value.GetOr(0)
      && WellFormed(items[i])
  {
    seq(|db|, i requires 0 <= i < |db| => NormaliseRecord(db[i]))
  }

  /** A record with no value or a non-negative value gets a non-negative value. */
  lemma NormaliseNonNegative(db: seq<Raw>)
    requires forall r :: r in db && r.value.Some? ==> r.value.value >= 0
    ensures forall it :: it in NormaliseAll(db) ==> it.value >= 0 && WellFormed(it)
  {
  }

  /**
   * The loaded table, column by column. The tier and display-name columns are
   * empty until they are derived, and then have one entry per row.
   */
  class Frame {
    var names: seq<string>
    var values: seq<Option<int>>
    var images: seq<string>
    var categories: seq<string>
    var trends: seq<string>
    var tiers: seq<Tier>
    var displayNames: seq<string>

    ghost predicate Valid()
      reads this
    {
      && |values| == |names| && |images| == |names|
      && |categories| == |names| && |trends| == |names|
      && (tiers == [] || |tiers| == |names|)
      && (displayNames == [] || |displayNames| == |names|)
    }

    /** The table read back as raw records. */
    ghost function Rows(): seq<Raw>
      reads this
      requires Valid()
    {
      var n, v, im, c, tr := names, values, images, categories, trends;
      seq(|n|, i requires 0 <= i < |n| => Raw(n[i], v[i], im[i], c[i], tr[i]))
    }

    /** Every value in the table is present. */
    ghost predicate Filled()
      reads this
    {
      Valid() && forall i :: 0 <= i < |values| ==> values[i].Some?
    }

    /** Both derived columns exist and agree with the value and name columns. */
    ghost predicate Derived()
      reads this
    {
      && Filled() && |tiers| == |names| && |displayNames| == |names|
      && (forall i :: 0 <= i < |names| ==> tiers[i] == TierOf(values[i].value))
      && (forall i :: 0 <= i < |names| ==> displayNames[i] == DisplayName(names[i]))
    }

    /** The normalised table read back as catalog items, each consistent with its value and name. */
    function Items(): (items: seq<Item>)
      reads this
      requires Derived()
      ensures forall it :: it in items ==> WellFormed(it)
    {
      var n, v, im, c, tr, t, d := names, values, images, categories, trends, tiers, displayNames;
      seq(|n|, i requires 0 <= i < |n| => Item(n[i], v[i].GetOr(0), im[i], c[i], tr[i], t[i], d[i]))
    }

    /** Builds the table from the records read from the data file. */
    constructor (db: seq<Raw>)
      ensures Valid() && Rows() == db
      ensures tiers == [] && displayNames == []
    {
      names := seq(|db|, i requires 0 <= i < |db| => db[i].name);
      values := seq(|db|, i requires 0 <= i < |db| => db[i].value);
      images := seq(|db|, i requires 0 <= i < |db| => db[i].image);
      categories := seq(|db|, i requires 0 <= i < |db| => db[i].category);
      trends := seq(|db|, i requires 0 <= i < |db| => db[i].trend);
      tiers := [];
      displayNames := [];
    }

    /** Replaces every absent value with 0 and keeps every present one. */
    method FillValues()
      requires Valid()
      modifies this
      ensures Filled()
      ensures |values| == |old(values)|
      ensures forall i :: 0 <= i < |values| ==> values[i] == Some(old(values)[i].GetOr(0))
      ensures names == old(names) && images == old(images) && categories == old(categories)
      ensures trends == old(trends) && tiers == old(tiers) && displayNames == old(displayNames)
    {
      var vs := values;
      var filled: seq<Option<int>> := [];
      var i := 0;
      while i < |vs|
        invariant 0 <= i <= |vs|
        invariant |filled| == i
        invariant forall k :: 0 <= k < i ==> filled[k] == Some(vs[k].GetOr(0))
      {
        filled := filled + [Some(vs[i].GetOr(0))];
        i := i + 1;
      }
      values := filled;
    }

    /** Derives the tier column from the value column. */
    method DeriveTiers()
      requires Filled()
      modifies this
      ensures Filled() && |tiers| == |names|
      ensures forall i :: 0 <= i < |names| ==> tiers[i] == TierOf(values[i].value)
      ensures names == old(names) && values == old(values) && images == old(images)
      ensures categories == old(categories) && trends == old(trends)
      ensures displayNames == old(displayNames)
    {
      var vs := values;
      var column: seq<Tier> := [];
      var i := 0;
      while i < |vs|
        invariant 0 <= i <= |vs|
        invariant |column| == i
        invariant forall k :: 0 <= k < i ==> column[k] == TierOf(vs[k].value)
      {
        column := column + [TierOf(vs[i].value)];
        i := i + 1;
      }
      tiers := column;
    }

    /** Derives the display-name column from the name column. */
    method DeriveDisplayNames()
      requires Valid()
      modifies this
      ensures Valid() && |displayNames| == |names|
      ensures forall i :: 0 <= i < |names| ==> displayNames[i] == DisplayName(names[i])
      ensures names == old(names) && values == old(values) && images == old(images)
      ensures categories == old(categories) && trends == old(trends) && tiers == old(tiers)
    {
      var ns := names;
      var column: seq<string> := [];
      var i := 0;
      while i < |ns|
        invariant 0 <= i <= |ns|
        invariant |column| == i
        invariant forall k :: 0 <= k < i ==> column[k] == DisplayName(ns[k])
      {
        column := column + [DisplayName(ns[i])];
        i := i + 1;
      }
      displayNames := column;
    }

    /**
     * Normalises a non-empty table in place (an empty one is left alone); the
     * resulting items are exactly the normalised records.
     */
    method Normalise()
      requires Valid()
      modifies this
      ensures Derived()
      ensures Items() == NormaliseAll(old(Rows()))
    {
      if |names| > 0 {
        FillValues();
        DeriveTiers();
        DeriveDisplayNames();
      }
      ghost var rows := old(Rows());
      forall i | 0 <= i < |names| ensures Items()[i] == NormaliseAll(rows)[i] {
        assert rows[i].value == old(values)[i];
      }
    }
  }

  /** Reads the records of the data file into a normalised table. */
  method Load(db: seq<Raw>) returns (frame: Frame)
    ensures fresh(frame) && frame.Derived()
    ensures frame.Items() == NormaliseAll(db)
  {
    frame := new Frame(db);
    frame.Normalise();
  }
}
