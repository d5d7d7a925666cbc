/**
 The values the two input controls of the dashboard can hand to the chart
 callbacks: the site drop-down and the payload range slider.
 */
module Controls {

  /** The drop-down value that stands for every site at once. */
  const AllSites: string := "all"

  /** The drop-down's values, in the order it offers them. */
  const SiteOptions: seq<string> := [AllSites, "CCAFS LC-40", "VAFB SLC-4E", "KSC LC-39A", "CCAFS SLC-40"]

  /** The drop-down's initial value. */
  const InitialSite: string := AllSites

  const SliderMin: int := 0
  const SliderMax: int := 10000
  const SliderStep: int := 1000

  /** The slider's initial selection, in kg. */
  const DefaultLow: int := 2000
  const DefaultHigh: int := 8000

  /** A value a slider handle can rest on. */
  predicate SliderValue(v: int)
  {
    SliderMin <= v <= SliderMax && v % SliderStep == 0
  }

  /** A range the slider can report: two handle values, low first. */
  predicate SliderRange(lo: int, hi: int)
  {
    SliderValue(lo) && SliderValue(hi) && lo <= hi
  }
}
