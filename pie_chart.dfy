/**
 The data behind the proportion (pie) chart, `get_pie_chart`.

 For the wildcard selector the chart is handed the whole table with the
 outcome column as values and the site column as names; the chart library
 adds up the values of equal names, so each site gets the sum of its
 outcomes. That sum is modelled here as a map from site to total, since
 slice order is left to the library.

 For a specific site the callback counts that site's rows per distinct
 outcome value and orders the counts by outcome, ascending
 (`value_counts().sort_index()`). That is modelled as a sequence of slices.
 */
module PieChart {
  import opened LaunchTable
  import opened Controls

  /** One slice of a site's pie: an outcome value and how many of the site's
      launches had it. */
  datatype Slice = Slice(outcome: int, count: nat)

  /** What the callback hands to the chart. */
  datatype PieData =
    | SuccessesBySite(totals: map<string, int>)
    | OutcomesOfSite(slices: seq<Slice>)

  datatype PieFigure = PieFigure(title: string, data: PieData)

  /** The outcomes of `p` are strictly ascending, so each appears once. */
  ghost predicate StrictlyAscending(p: seq<Slice>)
  {
    forall k, l :: 0 <= k < l < |p| ==> p[k].outcome < p[l].outcome
  }

  ghost predicate PositiveCounts(p: seq<Slice>)
  {
    forall k :: 0 <= k < |p| ==> p[k].count > 0
  }

  ghost function Outcomes(p: seq<Slice>): set<int>
  {
    set sl | sl in p :: sl.outcome
  }

  /** The distinct outcome values among `rows`. */
  ghost function OutcomeValues(rows: Table): set<int>
  {
    set x | x in rows :: x.cls
  }

  /** The count `p` gives outcome `c`, or 0 when it has no slice for `c`. */
  function CountOf(p: seq<Slice>, c: int): nat
  {
    if p == [] then 0
    else if p[0].outcome == c then p[0].count
    else CountOf(p[1..], c)
  }

  /** The sum of the counts of `p`. */
  function Total(p: seq<Slice>): nat
  {
    if p == [] then 0 else p[0].count + Total(p[1..])
  }

  /** Records one more row with outcome `c`: the slice for `c` grows by one,
      or a slice of one is inserted where `c` belongs in outcome order. */
  function Bump(p: seq<Slice>, c: int): seq<Slice>
  {
    if p == [] then [Slice(c, 1)]
    else if c < p[0].outcome then [Slice(c, 1)] + p
    else if c == p[0].outcome then [Slice(c, p[0].count + 1)] + p[1..]
    else [p[0]] + Bump(p[1..], c)
  }

  /** `value_counts().sort_index()` of the outcome column of `rows`. */
  function Tally(rows: Table): seq<Slice>
  {
    if rows == [] then [] else Bump(Tally(rows[1..]), rows[0].cls)
  }

  /** The slices of the pie for one specific site. */
  function PieForSite(t: Table, site: string): seq<Slice>
  {
    Tally(SiteRows(t, site))
  }

  /** Sum of the outcome column per site, every site of the table present. */
  function PieAll(t: Table): map<string, int>
  {
    if t == [] then map[]
    else
      var m := PieAll(t[1..]);
      var s := t[0].site;
      m[s := t[0].cls + (if s in m then m[s] else 0)]
  }

  /** The title above the pie chart: fixed for the wildcard, and naming the
      selected site verbatim otherwise. */
  function PieTitle(site: string): (title: string)
    ensures site == AllSites ==> title == "Total Successes by Launch Site"
    ensures site != AllSites ==> |title| > |site| && title[|title| - |site|..] == site
  {
    if site == AllSites then "Total Successes by Launch Site"
    else PieSitePrefix + site
  }

  /** The words before the site's name in a site's pie title. */
  const PieSitePrefix: string := "Total Success Launches for site "

  /** The callback `get_pie_chart`: the wildcard gives, for every site of
      the table, the sum of its outcomes; any other value gives that site's
      distinct outcomes in ascending order, each with the number of the
      site's launches that had it, the counts adding up to the site's number
      of launches. */
  function GetPieChart(t: Table, site: string): (fig: PieFigure)
    ensures fig.title == PieTitle(site)
    ensures fig.data.SuccessesBySite? <==> site == AllSites
    ensures fig.data.SuccessesBySite? ==>
      && fig.data.totals.Keys == Sites(t)
      && forall s :: s in fig.data.totals ==> fig.data.totals[s] == SumClass(SiteRows(t, s))
    ensures fig.data.OutcomesOfSite? ==>
      && StrictlyAscending(fig.data.slices)
      && Outcomes(fig.data.slices) == OutcomeValues(SiteRows(t, site))
      && (forall v :: CountOf(fig.data.slices, v) == CountClass(SiteRows(t, site), v))
      && Total(fig.data.slices) == |SiteRows(t, site)|
  {
    if site == AllSites then
      PieAllSlices(t);
      PieFigure(PieTitle(site), SuccessesBySite(PieAll(t)))
    else
      TallyCorrect(SiteRows(t, site));
      PieFigure(PieTitle(site), OutcomesOfSite(PieForSite(t, site)))
  }

  // ---------------------------------------------------------------------
  // Counting one row

  /** The outcomes of a pie are its first outcome and those of the rest. */
  lemma OutcomesCons(p: seq<Slice>)
    requires p != []
    ensures Outcomes(p) == {p[0].outcome} + Outcomes(p[1..])
  {
  }

  /** In a strictly ascending pie the first outcome is below all later ones. */
  lemma AscendingHead(p: seq<Slice>, sl: Slice)
    requires StrictlyAscending(p)
    requires p != [] && sl in p[1..]
    ensures p[0].outcome < sl.outcome
  {
  }

  /** Strictly ascending outcomes are at least one apart per position. */
  lemma {:induction false} AscendingSpread(p: seq<Slice>, k: nat)
    requires StrictlyAscending(p)
    requires k < |p|
    ensures p[k].outcome >= p[0].outcome + k
  {
    if k > 0 {
      AscendingSpread(p, k - 1);
    }
  }

  /** A slice below every outcome of a strictly ascending pie can go in front. */
  lemma AscendingCons(x: Slice, q: seq<Slice>)
    requires StrictlyAscending(q)
    requires forall sl :: sl in q ==> x.outcome < sl.outcome
    ensures StrictlyAscending([x] + q)
  {
  }

  /** Counting one more row adds `c` to the outcomes of the pie. */
  lemma {:induction false} BumpOutcomes(p: seq<Slice>, c: int)
    ensures Outcomes(Bump(p, c)) == Outcomes(p) + {c}
  {
    if p != [] {
      OutcomesCons(p);
      OutcomesCons(Bump(p, c));
      if c < p[0].outcome {
        assert Bump(p, c)[1..] == p;
      } else if c == p[0].outcome {
        assert Bump(p, c)[1..] == p[1..];
      } else {
        BumpOutcomes(p[1..], c);
        assert Bump(p, c)[1..] == Bump(p[1..], c);
      }
    }
  }

  /** Counting one more row keeps the pie strictly ascending. */
  lemma {:induction false} BumpOrdered(p: seq<Slice>, c: int)
    requires StrictlyAscending(p)
    ensures StrictlyAscending(Bump(p, c))
  {
    if p == [] {
    } else if c < p[0].outcome {
      forall sl | sl in p ensures c < sl.outcome {
        if sl != p[0] {
          assert sl in p[1..] by { assert p == [p[0]] + p[1..]; }
          AscendingHead(p, sl);
        }
      }
      AscendingCons(Slice(c, 1), p);
    } else if c == p[0].outcome {
      forall sl | sl in p[1..] ensures c < sl.outcome {
        AscendingHead(p, sl);
      }
      AscendingCons(Slice(c, p[0].count + 1), p[1..]);
    } else {
      var q := Bump(p[1..], c);
      BumpOrdered(p[1..], c);
      BumpOutcomes(p[1..], c);
      forall sl | sl in q ensures p[0].outcome < sl.outcome {
        assert sl.outcome in Outcomes(q);
        if sl.outcome != c {
          var sl' :| sl' in p[1..] && sl'.outcome == sl.outcome;
          AscendingHead(p, sl');
        }
      }
      AscendingCons(p[0], q);
    }
  }

  /** In an ascending pie an outcome absent from it counts 0. */
  lemma {:induction false} CountOfAbsent(p: seq<Slice>, c: int)
    requires c !in Outcomes(p)
    ensures CountOf(p, c) == 0
  {
    if p != [] {
      OutcomesCons(p);
      CountOfAbsent(p[1..], c);
    }
  }

  lemma {:induction false} BumpCounts(p: seq<Slice>, c: int)
    requires StrictlyAscending(p)
    ensures forall v :: CountOf(Bump(p, c), v) == CountOf(p, v) + (if v == c then 1 else 0)
  {
    if p == [] {
    } else if c < p[0].outcome {
      forall sl | sl in p ensures sl.outcome != c {
        if sl != p[0] {
          assert sl in p[1..] by { assert p == [p[0]] + p[1..]; }
          AscendingHead(p, sl);
        }
      }
      CountOfAbsent(p, c);
    } else if c > p[0].outcome {
      BumpCounts(p[1..], c);
    }
  }

  lemma {:induction false} BumpTotal(p: seq<Slice>, c: int)
    ensures Total(Bump(p, c)) == Total(p) + 1
    ensures PositiveCounts(p) ==> PositiveCounts(Bump(p, c))
  {
    if p != [] && c > p[0].outcome {
      BumpTotal(p[1..], c);
      var q := Bump(p[1..], c);
      assert Bump(p, c)[1..] == q;
    } else if p != [] && c == p[0].outcome {
      assert Bump(p, c)[1..] == p[1..];
    } else if p != [] {
      assert Bump(p, c)[1..] == p;
    }
  }

  // ---------------------------------------------------------------------
  // value_counts().sort_index()

  /** The tally of `rows` lists each distinct outcome of `rows` once, in
      ascending order, with the number of rows having it; no slice is empty
      and the counts add up to the number of rows. */
  lemma {:induction false} TallyCorrect(rows: Table)
    ensures StrictlyAscending(Tally(rows))
    ensures Outcomes(Tally(rows)) == OutcomeValues(rows)
    ensures forall v :: CountOf(Tally(rows), v) == CountClass(rows, v)
    ensures PositiveCounts(Tally(rows))
    ensures Total(Tally(rows)) == |rows|
  {
    if rows != [] {
      var p := Tally(rows[1..]);
      TallyCorrect(rows[1..]);
      BumpOrdered(p, rows[0].cls);
      BumpOutcomes(p, rows[0].cls);
      BumpCounts(p, rows[0].cls);
      BumpTotal(p, rows[0].cls);
      assert OutcomeValues(rows) == OutcomeValues(rows[1..]) + {rows[0].cls} by {
        assert rows == [rows[0]] + rows[1..];
      }
    }
  }

  /** In a pie whose outcomes are distinct, looking up a slice's outcome
      finds that slice. */
  lemma {:induction false} CountOfSlice(p: seq<Slice>, k: nat)
    requires StrictlyAscending(p)
    requires k < |p|
    ensures CountOf(p, p[k].outcome) == p[k].count
  {
    if k > 0 {
      assert p[0].outcome < p[k].outcome;
      CountOfSlice(p[1..], k - 1);
    }
  }

  // ---------------------------------------------------------------------
  // The pie for one site

  /** The slices of a site's pie are exactly the distinct outcome values of
      that site's launches, in strictly ascending order; each count is the
      number of the site's launches with that outcome, never zero, and the
      counts add up to the site's number of launches. */
  lemma PieForSiteSlices(t: Table, site: string)
    ensures StrictlyAscending(PieForSite(t, site))
    ensures Outcomes(PieForSite(t, site)) == OutcomeValues(SiteRows(t, site))
    ensures forall k :: 0 <= k < |PieForSite(t, site)| ==>
      PieForSite(t, site)[k].count == CountClass(SiteRows(t, site), PieForSite(t, site)[k].outcome) > 0
    ensures Total(PieForSite(t, site)) == |SiteRows(t, site)|
  {
    var p := PieForSite(t, site);
    TallyCorrect(SiteRows(t, site));
    forall k | 0 <= k < |p|
      ensures p[k].count == CountClass(SiteRows(t, site), p[k].outcome)
    {
      CountOfSlice(p, k);
    }
  }

  /** A site without launches in the table gets an empty pie. */
  lemma PieForAbsentSite(t: Table, site: string)
    requires site !in Sites(t)
    ensures PieForSite(t, site) == []
  {
  }

  /** A site whose launches all share one outcome gets a single slice
      holding all of them. */
  lemma PieForSingleOutcome(t: Table, site: string, c: int)
    requires site in Sites(t)
    requires forall x :: x in t && x.site == site ==> x.cls == c
    ensures PieForSite(t, site) == [Slice(c, |SiteRows(t, site)|)]
  {
    var rows := SiteRows(t, site);
    var p := PieForSite(t, site);
    TallyCorrect(rows);
    var x :| x in t && x.site == site;
    assert x in rows;
    assert p != [];
    forall k | 0 <= k < |p| ensures p[k].outcome == c {
      assert p[k].outcome in OutcomeValues(rows) by {
        assert p[k] in p;
      }
      var y :| y in rows && y.cls == p[k].outcome;
    }
    AscendingSpread(p, |p| - 1);
    assert p == [Slice(c, p[0].count)];
    assert Total(p) == p[0].count;
  }

  /** With binary outcomes a site's pie has at most two slices, drawn from
      0 and 1, and when it has both the failures come first. */
  lemma PieForSiteBinary(t: Table, site: string)
    requires BinaryOutcomes(t)
    ensures |PieForSite(t, site)| <= 2
    ensures forall k :: 0 <= k < |PieForSite(t, site)| ==> PieForSite(t, site)[k].outcome in {0, 1}
    ensures |PieForSite(t, site)| == 2 ==>
      PieForSite(t, site)[0].outcome == 0 && PieForSite(t, site)[1].outcome == 1
  {
    var rows := SiteRows(t, site);
    var p := PieForSite(t, site);
    TallyCorrect(rows);
    forall k | 0 <= k < |p| ensures p[k].outcome == 0 || p[k].outcome == 1 {
      assert p[k].outcome in OutcomeValues(rows) by {
        assert p[k] in p;
      }
      var x :| x in rows && x.cls == p[k].outcome;
      assert x in t;
    }
    if p != [] {
      AscendingSpread(p, |p| - 1);
    }
  }

  // ---------------------------------------------------------------------
  // The pie for all sites

  /** Sum of the values of `m` at `keys`. */
  ghost function SumAt(m: map<string, int>, keys: set<string>): int
    requires keys <= m.Keys
  {
    if keys == {} then 0
    else
      var k :| k in keys;
      m[k] + SumAt(m, keys - {k})
  }

  /** Sum of the values of a map. */
  ghost function MapTotal(m: map<string, int>): int
  {
    SumAt(m, m.Keys)
  }

  /** The sum over a key set can be taken apart at any of its keys. */
  lemma {:induction false} SumAtKey(m: map<string, int>, keys: set<string>, k: string)
    requires keys <= m.Keys
    requires k in keys
    ensures SumAt(m, keys) == m[k] + SumAt(m, keys - {k})
  {
    var j :| j in keys && SumAt(m, keys) == m[j] + SumAt(m, keys - {j});
    if j != k {
      SumAtKey(m, keys - {j}, k);
      SumAtKey(m, keys - {k}, j);
      assert keys - {j} - {k} == keys - {k} - {j};
    }
  }

  /** Two maps that agree on a key set have the same sum over it. */
  lemma {:induction false} SumAtAgree(m: map<string, int>, n: map<string, int>, keys: set<string>)
    requires keys <= m.Keys && keys <= n.Keys
    requires forall k :: k in keys ==> m[k] == n[k]
    ensures SumAt(m, keys) == SumAt(n, keys)
  {
    if keys != {} {
      var k :| k in keys;
      SumAtKey(m, keys, k);
      SumAtKey(n, keys, k);
      SumAtAgree(m, n, keys - {k});
    }
  }

  /** The wildcard pie has one entry per launch site of the table, holding
      the sum of the outcomes of that site's launches. */
  lemma {:induction false} PieAllSlices(t: Table)
    ensures PieAll(t).Keys == Sites(t)
    ensures forall s :: s in PieAll(t) ==> PieAll(t)[s] == SumClass(SiteRows(t, s))
  {
    if t != [] {
      PieAllSlices(t[1..]);
      SitesCons(t);
      var m := PieAll(t[1..]);
      forall s | s in PieAll(t) ensures PieAll(t)[s] == SumClass(SiteRows(t, s)) {
        SiteRowsCons(t, s);
        var rest := SiteRows(t[1..], s);
        if s == t[0].site {
          assert SiteRows(t, s) == [t[0]] + rest;
          assert ([t[0]] + rest)[1..] == rest;
          if s !in m {
            SiteRowsAbsent(t[1..], s);
          }
        } else {
          assert SiteRows(t, s) == rest;
        }
      }
    }
  }

  /** The entries of the wildcard pie add up to the total of the outcome
      column: every success in the table is counted once. */
  lemma {:induction false} PieAllTotal(t: Table)
    ensures MapTotal(PieAll(t)) == SumClass(t)
  {
    if t != [] {
      PieAllTotal(t[1..]);
      var m := PieAll(t[1..]);
      var s := t[0].site;
      var m' := PieAll(t);
      SumAtKey(m', m'.Keys, s);
      if s in m {
        SumAtKey(m, m.Keys, s);
        assert m'.Keys - {s} == m.Keys - {s};
        SumAtAgree(m', m, m.Keys - {s});
      } else {
        assert m'.Keys - {s} == m.Keys;
        SumAtAgree(m', m, m.Keys);
      }
    }
  }

  /** With binary outcomes, a site's entry in the wildcard pie is the count
      of the success slice in that site's own pie. */
  lemma PieAllAgreesWithSitePie(t: Table, site: string)
    requires BinaryOutcomes(t)
    requires site in Sites(t)
    ensures site in PieAll(t)
    ensures PieAll(t)[site] == CountOf(PieForSite(t, site), 1)
  {
    PieAllSlices(t);
    TallyCorrect(SiteRows(t, site));
    SumClassCountsSuccesses(SiteRows(t, site));
  }

  /** Reads the selector back out of a pie title. */
  function SiteOfPieTitle(title: string): string
  {
    var n := |PieSitePrefix|;
    if |title| >= n && title[..n] == PieSitePrefix then title[n..] else AllSites
  }

  /** The pie title names its selector: it can be read back from the title,
      so different selectors never share a title. */
  lemma PieTitleRoundTrip(site: string)
    ensures SiteOfPieTitle(PieTitle(site)) == site
  {
  }
}
