/**
 The launch table that the dashboard loads once at start-up, and the row
 selections both chart callbacks build on. The table is an immutable value:
 every operation below is a function of it, so no callback can change it and
 calling one twice with the same inputs gives the same result.
 */
module LaunchTable {

  /** One launch: its site, its payload mass in kg, its outcome class
      (1 for a success, 0 for a failure) and its booster version category. */
  datatype Record = Record(site: string, payload: int, cls: int, booster: string)

  type Table = seq<Record>

  /** The rows `keep` accepts, in table order: a pandas boolean-mask index
      `df[mask]`. Kept rows keep their multiplicity; rejected ones vanish. */
  function Filter(t: Table, keep: Record -> bool): (r: Table)
    ensures |r| <= |t|
    ensures forall x :: x in r <==> x in t && keep(x)
  {
    if t == [] then []
    else if keep(t[0]) then [t[0]] + Filter(t[1..], keep)
    else Filter(t[1..], keep)
  }

  /** A kept row occurs in the result as often as in the table. */
  lemma {:induction false} FilterMultiplicity(t: Table, keep: Record -> bool)
    ensures forall x :: multiset(Filter(t, keep))[x] == if keep(x) then multiset(t)[x] else 0
  {
    if t != [] {
      FilterMultiplicity(t[1..], keep);
      assert t == [t[0]] + t[1..];
    }
  }

  /** The positions j, i <= j < |t|, whose row `keep` accepts, ascending. */
  function KeptFrom(t: Table, keep: Record -> bool, i: nat): seq<nat>
    requires i <= |t|
    decreases |t| - i
  {
    if i == |t| then []
    else if keep(t[i]) then [i] + KeptFrom(t, keep, i + 1)
    else KeptFrom(t, keep, i + 1)
  }

  /** The positions of the rows `keep` accepts, ascending. */
  function KeptPositions(t: Table, keep: Record -> bool): seq<nat>
  {
    KeptFrom(t, keep, 0)
  }

  /** `r` is the selection of `t` at the strictly ascending positions `idx`,
      and `idx` holds exactly the positions of the rows `keep` accepts. */
  ghost predicate OrderedSelection(t: Table, keep: Record -> bool, r: Table, idx: seq<nat>)
  {
    && |idx| == |r|
    && (forall k :: 0 <= k < |idx| ==> idx[k] < |t| && r[k] == t[idx[k]])
    && (forall k, l :: 0 <= k < l < |idx| ==> idx[k] < idx[l])
    && (forall i :: 0 <= i < |t| ==> (keep(t[i]) <==> i in idx))
  }

  /** A mask filter never reorders, duplicates or alters rows: its result is
      the table read at the ascending positions of exactly the kept rows. */
  lemma {:induction false} FilterIsOrderedSelection(t: Table, keep: Record -> bool)
    ensures OrderedSelection(t, keep, Filter(t, keep), KeptPositions(t, keep))
  {
    assert t[0..] == t;
    KeptFromRead(t, keep, 0);
    KeptFromAscending(t, keep, 0);
    KeptFromExact(t, keep, 0);
  }

  /** One position per row kept from `t[i..]`, each reading that row. */
  lemma {:induction false} KeptFromRead(t: Table, keep: Record -> bool, i: nat)
    requires i <= |t|
    ensures |KeptFrom(t, keep, i)| == |Filter(t[i..], keep)|
    ensures forall k :: 0 <= k < |KeptFrom(t, keep, i)| ==>
      i <= KeptFrom(t, keep, i)[k] < |t| && Filter(t[i..], keep)[k] == t[KeptFrom(t, keep, i)[k]]
    decreases |t| - i
  {
    if i < |t| {
      KeptFromRead(t, keep, i + 1);
      assert t[i..][1..] == t[i + 1..];
    }
  }

  /** The kept positions are strictly ascending and start at `i` or later. */
  lemma {:induction false} KeptFromAscending(t: Table, keep: Record -> bool, i: nat)
    requires i <= |t|
    ensures forall k :: 0 <= k < |KeptFrom(t, keep, i)| ==> i <= KeptFrom(t, keep, i)[k]
    ensures forall k, l :: 0 <= k < l < |KeptFrom(t, keep, i)| ==>
      KeptFrom(t, keep, i)[k] < KeptFrom(t, keep, i)[l]
    decreases |t| - i
  {
    if i < |t| {
      KeptFromAscending(t, keep, i + 1);
    }
  }

  /** A position at or after `i` is kept exactly when `keep` accepts its row. */
  lemma {:induction false} KeptFromExact(t: Table, keep: Record -> bool, i: nat)
    requires i <= |t|
    ensures forall j :: i <= j < |t| ==> (keep(t[j]) <==> j in KeptFrom(t, keep, i))
    decreases |t| - i
  {
    if i < |t| {
      KeptFromExact(t, keep, i + 1);
      KeptFromAscending(t, keep, i + 1);
    }
  }

  /** The site mask `df['Launch Site'] == site`. */
  function AtSite(site: string): Record -> bool
  {
    (x: Record) => x.site == site
  }

  /** The payload mask `(df['Payload Mass (kg)'] >= lo) & (df['Payload Mass (kg)'] <= hi)`:
      both ends included. */
  function InBand(lo: int, hi: int): Record -> bool
  {
    (x: Record) => lo <= x.payload && x.payload <= hi
  }

  /** The rows launched from `site`. */
  function SiteRows(t: Table, site: string): (r: Table)
    ensures forall x :: x in r <==> x in t && x.site == site
  {
    Filter(t, AtSite(site))
  }

  /** The rows whose payload lies in [lo, hi]. */
  function PayloadBand(t: Table, lo: int, hi: int): (r: Table)
    ensures forall x :: x in r <==> x in t && lo <= x.payload <= hi
  {
    Filter(t, InBand(lo, hi))
  }

  /** Site rows of a non-empty table: its first row if from `site`, then
      the site rows of the rest. */
  lemma SiteRowsCons(t: Table, site: string)
    requires t != []
    ensures SiteRows(t, site) == (if t[0].site == site then [t[0]] else []) + SiteRows(t[1..], site)
  {
  }

  /** A mask that rejects every row selects nothing. */
  lemma {:induction false} FilterNone(t: Table, keep: Record -> bool)
    requires forall x :: x in t ==> !keep(x)
    ensures Filter(t, keep) == []
  {
    if t != [] {
      assert t[0] in t;
      assert forall x :: x in t[1..] ==> x in t;
      FilterNone(t[1..], keep);
    }
  }

  /** A site with no launch in the table has no rows. */
  lemma SiteRowsAbsent(t: Table, site: string)
    requires site !in Sites(t)
    ensures SiteRows(t, site) == []
  {
    FilterNone(t, AtSite(site));
  }

  lemma SitesCons(t: Table)
    requires t != []
    ensures Sites(t) == {t[0].site} + Sites(t[1..])
  {
  }

  /** Number of rows whose outcome class is `c`. */
  function CountClass(t: Table, c: int): nat
  {
    |Filter(t, (x: Record) => x.cls == c)|
  }

  /** Sum of the outcome column. */
  function SumClass(t: Table): int
  {
    if t == [] then 0 else t[0].cls + SumClass(t[1..])
  }

  /** Every outcome is 0 or 1, as the data set promises. */
  ghost predicate BinaryOutcomes(t: Table)
  {
    forall x :: x in t ==> x.cls == 0 || x.cls == 1
  }

  /** The distinct launch sites of the table. */
  ghost function Sites(t: Table): set<string>
  {
    set x | x in t :: x.site
  }

  /** With binary outcomes, summing the outcome column counts the successes. */
  lemma {:induction false} SumClassCountsSuccesses(t: Table)
    requires BinaryOutcomes(t)
    ensures SumClass(t) == CountClass(t, 1)
  {
    if t != [] {
      assert BinaryOutcomes(t[1..]) by {
        forall x | x in t[1..] ensures x.cls == 0 || x.cls == 1 {
          assert x in t;
        }
      }
      SumClassCountsSuccesses(t[1..]);
    }
  }
}
