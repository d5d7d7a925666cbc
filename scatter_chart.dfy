/**
 The data behind the payload/outcome scatter chart, `get_scatter_plot`.

 The callback first selects the rows whose payload lies in the slider's
 range. With the wildcard selector it plots those. With a specific site it
 discards them and plots every row of that site instead, so the payload
 range has no effect once a site is chosen. The model keeps that behaviour.
 */
module ScatterChart {
  import opened LaunchTable
  import opened Controls

  /** What the callback hands to the chart: the title and the rows to plot
      (payload on one axis, outcome on the other, coloured by booster). */
  datatype ScatterFigure = ScatterFigure(title: string, points: Table)

  /** The mask that decides the plotted rows for a selection. */
  function ScatterMask(site: string, lo: int, hi: int): Record -> bool
  {
    if site == AllSites then InBand(lo, hi) else AtSite(site)
  }

  /** The plotted rows: the payload band is computed first and kept for the
      wildcard; a specific site replaces it by that site's rows. */
  function ScatterSubset(t: Table, site: string, lo: int, hi: int): Table
  {
    var inBand := PayloadBand(t, lo, hi);
    if site == AllSites then inBand else SiteRows(t, site)
  }

  /** The title above the scatter chart: fixed for the wildcard, and naming
      the selected site verbatim otherwise (misspelling included). */
  function ScatterTitle(site: string): (title: string)
    ensures site == AllSites ==> title == "Correlation" + TitleMiddle + "all Sites"
    ensures site != AllSites ==>
      && |title| > 12 + |site|
      && title[..12] == "Correclation"
      && title[|title| - |site|..] == site
  {
    if site == AllSites then "Correlation" + TitleMiddle + "all Sites"
    else "Correclation" + TitleMiddle + site
  }

  /** The words both scatter titles share after their first word. */
  const TitleMiddle: string := " between Payload and Success for "

  /** The callback `get_scatter_plot`: the wildcard plots exactly the rows
      in the payload range, a specific site exactly its own rows, whatever
      the range. */
  function GetScatterPlot(t: Table, site: string, lo: int, hi: int): (fig: ScatterFigure)
    ensures fig.title == ScatterTitle(site)
    ensures site == AllSites ==>
      forall x :: x in fig.points <==> x in t && lo <= x.payload <= hi
    ensures site != AllSites ==>
      forall x :: x in fig.points <==> x in t && x.site == site
  {
    ScatterFigure(ScatterTitle(site), ScatterSubset(t, site, lo, hi))
  }

  /** Whatever the selection, the plotted rows are the table read at the
      ascending positions of exactly the rows the selection's mask accepts:
      nothing is added, duplicated, reordered or altered. */
  lemma {:induction false} ScatterIsOrderedSelection(t: Table, site: string, lo: int, hi: int)
    ensures OrderedSelection(t, ScatterMask(site, lo, hi), ScatterSubset(t, site, lo, hi),
                             KeptPositions(t, ScatterMask(site, lo, hi)))
    ensures forall x :: multiset(ScatterSubset(t, site, lo, hi))[x] <= multiset(t)[x]
  {
    FilterIsOrderedSelection(t, ScatterMask(site, lo, hi));
    FilterMultiplicity(t, ScatterMask(site, lo, hi));
  }

  /** With the wildcard, the plotted rows are exactly those whose payload
      lies in [lo, hi], both ends included, in table order. */
  lemma ScatterForAllSites(t: Table, lo: int, hi: int)
    ensures forall x :: x in ScatterSubset(t, AllSites, lo, hi) <==> x in t && lo <= x.payload <= hi
    ensures OrderedSelection(t, InBand(lo, hi), ScatterSubset(t, AllSites, lo, hi),
                             KeptPositions(t, InBand(lo, hi)))
  {
    FilterIsOrderedSelection(t, InBand(lo, hi));
  }

  /** With a specific site, the plotted rows are exactly that site's rows,
      in table order, whatever their payload. */
  lemma ScatterForSite(t: Table, site: string, lo: int, hi: int)
    requires site != AllSites
    ensures forall x :: x in ScatterSubset(t, site, lo, hi) <==> x in t && x.site == site
    ensures OrderedSelection(t, AtSite(site), ScatterSubset(t, site, lo, hi),
                             KeptPositions(t, AtSite(site)))
  {
    FilterIsOrderedSelection(t, AtSite(site));
  }

  /** With a specific site the slider has no effect on the plotted rows. */
  lemma ScatterIgnoresRangeForSite(t: Table, site: string, lo: int, hi: int, lo': int, hi': int)
    requires site != AllSites
    ensures ScatterSubset(t, site, lo, hi) == ScatterSubset(t, site, lo', hi')
  {
  }

  /** A launch outside the slider's range is still plotted once its site is
      chosen: one launch from KSC LC-39A with 9600 kg under the default
      range [2000, 8000]. */
  lemma ScatterPlotsOutOfRangeLaunch()
    ensures var t := [Record("KSC LC-39A", 9600, 1, "FT")];
      && !InBand(DefaultLow, DefaultHigh)(t[0])
      && ScatterSubset(t, "KSC LC-39A", DefaultLow, DefaultHigh) == t
      && ScatterSubset(t, AllSites, DefaultLow, DefaultHigh) == []
  {
  }

  /** A site with no launches in the table plots nothing. */
  lemma ScatterForAbsentSite(t: Table, site: string, lo: int, hi: int)
    requires site != AllSites && site !in Sites(t)
    ensures ScatterSubset(t, site, lo, hi) == []
  {
  }

  /** A reversed range plots nothing for the wildcard. */
  lemma ScatterForEmptyRange(t: Table, lo: int, hi: int)
    requires lo > hi
    ensures ScatterSubset(t, AllSites, lo, hi) == []
  {
    FilterNone(t, InBand(lo, hi));
  }

  /** The dashboard's initial view: the drop-down starts on the wildcard,
      one of its options, and the slider on a range it can report, so the
      first scatter plots exactly the launches of 2000 to 8000 kg. */
  lemma ScatterInitialView(t: Table)
    ensures InitialSite == AllSites && InitialSite in SiteOptions
    ensures SliderRange(DefaultLow, DefaultHigh)
    ensures forall x :: x in ScatterSubset(t, InitialSite, DefaultLow, DefaultHigh) <==>
      x in t && 2000 <= x.payload <= 8000
  {
  }

  /** Reads the selector back out of a scatter title. */
  function SiteOfScatterTitle(title: string): string
  {
    var n := |"Correclation" + TitleMiddle|;
    if |title| >= n && title[..12] == "Correclation" then title[n..] else AllSites
  }

  /** The scatter title names its selector: it can be read back from the
      title, so different selectors never share a title. The misspelt first
      word keeps even a site named "all Sites" apart from the wildcard. */
  lemma ScatterTitleRoundTrip(site: string)
    ensures SiteOfScatterTitle(ScatterTitle(site)) == site
  {
    if site == AllSites {
      assert ScatterTitle(site)[5] == 'l';
    } else {
      assert ScatterTitle(site)[|"Correclation" + TitleMiddle|..] == site;
    }
  }
}
