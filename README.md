# Blox Fruits trade calculator — verified model of the valuation core

The app is a trade calculator for in-game items ("fruits"). It loads a static
catalog of items (name, value, image, category, trend). Each item gets a value
tier (SS, S, A, B or C) and a display name that adds the item's Korean label
when one is known. A user picks items for "my side" (what I give) and "their
side" (what I receive). The app sums each side, subtracts mine from theirs,
and reports a gain, a loss or a fair trade. A second view shows the three most
valuable items and the catalog split into the five tiers.

This project models that core in Dafny:

- `tiers.dfy` (`Tiers`): the tier classifier `TierOf`, specified as the highest
  tier whose floor (100,000,000 / 20,000,000 / 5,000,000 / 1,000,000) the value
  reaches, with band, boundary and monotonicity lemmas.
- `names.dfy` (`Names`): the static English-to-Korean name table (`Label`) and
  the display-name formatter `DisplayName`. `CanonicalName` is its inverse on
  names without a parenthesis, which gives injectivity.
- `catalog.dfy` (`Catalog`): the loaded records (`Raw`, with an optional value)
  and normalised items (`Item`). The table is a class `Frame` whose columns
  are updated in place, as the DataFrame's are: absent values filled with 0,
  then the tier and display-name columns derived. `Load` builds and
  normalises a table from the records read from the data file.
- `valuation.dfy` (`Valuation`): first-match lookup of a display name, the
  specification `Total` of a side, the loop `SideTotal` that accumulates it,
  the outcome classification `Classify` and the whole `Valuate` step.
- `ranking.dfy` (`Ranking`): a descending sort, `TopThree` and `TierGroup`,
  with the partition lemmas.
- `wrappers.dfy` (`Wrappers`): `Option`, for a value that may be absent.

The data file is an input: a missing file is the empty record sequence, and
every view of an empty catalog is empty (`Ranking.EmptyCatalogViews`).

Outcome names follow the messages at app.py:187-196. `diff = their_total -
my_total`; a positive `diff` is shown to the user as a gain, a negative one as
a loss of `abs(diff)`. So `Classify` returns `Gain(diff)` for a positive
difference and `Loss(|diff|)` for a negative one.

## Model

| member | source | states |
|---|---|---|
| `Tiers.TierOf` | app.py:112-117 | the tier reached is the highest-ranked one whose floor the value meets; C needs no floor, so every integer gets a tier |
| `Tiers.TierBands` | app.py:112-117 | each tier is exactly a half-open value band with the lower bound included |
| `Tiers.TierBoundaries` | app.py:112-117 | 100000000→SS, 99999999→S, 20000000→S, 19999999→A, 5000000→A, 4999999→B, 1000000→B, 999999→C, 0→C |
| `Tiers.TierMonotone` | app.py:112-117 | a larger value never gets a lower-ranked tier (SS > S > A > B > C) |
| `Tiers.HigherTierLargerValue` | app.py:112-117 | a strictly higher tier implies a strictly larger value |
| `Names.Label` | app.py:92-105 | the static name table with its empty-string default; every name that has a label is free of parentheses |
| `Names.DisplayName` | app.py:119-122 | the name is a prefix of the result; the result equals the name exactly when the name has no non-empty label; otherwise the name is followed by " (label)" |
| `Names.CanonicalOfDisplay` | app.py:119-122 | for a name without '(' the canonical name can be read back from the display name (round trip) |
| `Names.DisplayNameInjective` | app.py:119-125 | distinct parenthesis-free names get distinct display names |
| `Names.DisplayNameCollision` | app.py:119-122 | counterexample for names with parentheses: the unmapped name "Kitsune (키츠네)" and the mapped "Kitsune" share a display name, which is why injectivity needs parenthesis-free names |
| `Names.DisplayNameExamples` | app.py:92-122 | "Kitsune" → "Kitsune (키츠네)", "Dough" → "Dough (도우(떡))", an unknown name passes through |
| `Catalog.NormaliseRecord` | app.py:110-125 | per row: an absent value becomes 0, a present one is kept, the opaque fields are kept, and tier and display name depend on value and name only |
| `Catalog.NormaliseAll` | app.py:108-125 | one item per record in record order, each with its record's name and its value or 0, and each well-formed |
| `Catalog.NormaliseNonNegative` | app.py:110 | records with non-negative or absent values give non-negative, well-formed items |
| `Catalog.Frame.Items` | app.py:124-125 | every row of a normalised table reads back as a well-formed item (tier and display name agree with value and name) |
| `Catalog.Frame.constructor` | app.py:108 | the table holds exactly the loaded records, column by column, with no derived columns yet |
| `Catalog.Frame.FillValues` | app.py:110 | every absent value becomes 0, every present value is kept, no other column changes |
| `Catalog.Frame.DeriveTiers` | app.py:124 | the tier column holds `TierOf` of each row's value; no other column changes |
| `Catalog.Frame.DeriveDisplayNames` | app.py:125 | the display-name column holds `DisplayName` of each row's name; no other column changes |
| `Catalog.Frame.Normalise` | app.py:109-125 | a non-empty table is normalised in place (an empty one is left as is) and reads back as the normalised records |
| `Catalog.Load` | app.py:108-125 | loading gives a fresh normalised table whose items are the normalised input records |
| `Valuation.Options` | app.py:146 | the widget options (the same list at app.py:165): every catalog row is offered, and every offered name resolves to a row |
| `Valuation.FirstMatch` | app.py:151 | the index found is the first row with that display name; no earlier row has it |
| `Valuation.FoundIffOffered` | app.py:146-151 | the lookup finds a row exactly when the name is among the display names offered by the selection widget |
| `Valuation.PriceOf` | app.py:151-152 | the value added for a selected name is that of some row with that display name, no earlier row having it (`.iloc[0]` then `row['value']`; also lines 170-171) |
| `Valuation.Total` | app.py:148-152 | the reference sum over the selection list: an empty selection totals 0, and non-negative items never give a negative total |
| `Valuation.TotalFront` | app.py:148-152 | summing from the front agrees: the total is the first name's value plus the total of the rest |
| `Valuation.SideTotal` | app.py:148-152 | the loop's total is the sum over the selection list of each name's first-match value (the same loop is used for their side, lines 167-171) |
| `Valuation.TotalAppend` | app.py:148-152 | the total of two concatenated selections is the sum of their totals |
| `Valuation.TotalPermutation` | app.py:148-152 | totals depend only on the multiset of selected names: a repeated name counts each time and order does not matter |
| `Valuation.ResolvesToOwnRow` | app.py:151 | with distinct display names, each item's display name resolves to that item |
| `Valuation.NormalisedDisplayNamesDistinct` | app.py:119-125 | distinct parenthesis-free names give a catalog whose display names are distinct |
| `Valuation.Classify` | app.py:184-201 | exactly one outcome: gain iff diff > 0, loss iff diff < 0, fair iff diff = 0; a gain or loss carries a positive amount |
| `Valuation.ClassifyRoundTrip` | app.py:184-201 | the signed amount of the outcome is the difference itself, so a loss carries abs(diff) |
| `Valuation.ClassifySwap` | app.py:184-201 | swapping the two sides turns a gain into a loss of the same amount and keeps a fair trade fair |
| `Valuation.Valuate` | app.py:148-201 | both totals are the specification totals, diff is their total minus mine, and the outcome is its classification |
| `Valuation.SampleValuations` | app.py:148-201 | A=1000000, B=2000000, C=500000: giving [A, C] for [B] gains 500000; [A, A] totals 2000000; empty selections total 0 and are fair |
| `Ranking.SortDesc` | app.py:233 | the result is in non-increasing value order and is a permutation of the input |
| `Ranking.HeadOfSorted` | app.py:233-234 | for any descending permutation of the catalog, the first min(n, size) items are descending, head and tail make up the catalog, and no tail item is worth more than a head item |
| `Ranking.TopThree` | app.py:233-242 | exactly min(3, size) items, descending, taken from the catalog, none worth less than an item left out |
| `Ranking.TierFilter` | app.py:261 | keeps every item of the tier with its multiplicity and drops every other item |
| `Ranking.TierGroup` | app.py:256-261 | a group holds exactly the catalog's items of its tier, with their multiplicities, in non-increasing value order |
| `Ranking.TierGroupsPartition` | app.py:256-261 | the five groups together are exactly the catalog |
| `Ranking.ExactlyOneGroup` | app.py:256-261 | every catalog item is in the group of its own tier and in no other |
| `Ranking.TierGroupsSeparated` | app.py:256-261 | in a normalised catalog every item of a higher tier is worth strictly more than every item of a lower one |
| `Ranking.EmptyCatalogViews` | app.py:231-261 | an empty catalog gives an empty top three and five empty groups |

## Left out

- Page layout, CSS, HTML cards, tabs, columns, expanders and the info and warning banners (app.py:1-81, 130-146, 153-160, 172-179, 203-223, 236-252, 262-277): presentation with no stateable logic.
- Reading and parsing `fruits_data.json` (app.py:84-89): file I/O. The parsed records are the input of `Catalog.Load`, and a missing file is the empty sequence.
- Numeric coercion by the data-frame library: a JSON value that is not an integer and the truncation done by `astype(int)`. Values are modelled as unbounded integers. Floating-point rounding of very large values in a column with gaps and 64-bit overflow are not modelled.
- A data file in which no record has a `value` field has no value column at all, and app.py:110 then fails. The model treats every absent value alike and fills it with 0.
- A selected name missing from the catalog makes the lookup at app.py:151 and app.py:170 fail. The model requires every selected name to be offered by the catalog (`Valuation.Resolvable`). The widgets only offer catalog names.
- `Ranking.SortDesc` fixes one order among items of equal value. The library sort used at app.py:233 and app.py:261 promises no particular tie order. So no lemma depends on the tie order, and `Ranking.HeadOfSorted` holds for every descending permutation.
- The share-text summary with thousands separators and the `split('(')` label trimming (app.py:210-218, 248), the promo-code lists (app.py:282-331), and the footer and visitor badge (app.py:336-338): presentation strings and static data.
