/**
 * The data the chart is drawn from, as `main` builds it once `find_text`
 * is done: the list of sample dates for the x axis and, for every pattern
 * name, one count per sample in sample order, a missing entry read as 0.
 * Drawing and saving the chart are not modelled.
 */
module Series {
  import opened Samples
  import opened Counter

  /** `[commit["date"] for commit in commits.values()]` */
  function Dates(ids: seq<string>, records: map<string, Record>): (dates: seq<int>)
    requires forall id :: id in ids ==> id in records
    ensures |dates| == |ids|
  {
    seq(|ids|, k requires 0 <= k < |ids| => records[ids[k]].date)
  }

  /** `[commit.get(name, 0) for commit in commits.values()]` for a pattern name. */
  function SeriesOf(ids: seq<string>, records: map<string, Record>, name: string): (points: seq<int>)
    requires forall id :: id in ids ==> id in records
    requires name != DateKey
    ensures |points| == |ids|
  {
    seq(|ids|, k requires 0 <= k < |ids| => CountOf(records[ids[k]], name))
  }

  /** One series per entry of `find`, in the order of `find.keys()`. */
  function AllSeries(ids: seq<string>, records: map<string, Record>, patterns: seq<Pattern>): (series: seq<seq<int>>)
    requires forall id :: id in ids ==> id in records
    requires forall j :: 0 <= j < |patterns| ==> patterns[j].name != DateKey
  {
    seq(|patterns|, j requires 0 <= j < |patterns| => SeriesOf(ids, records, patterns[j].name))
  }

  /**
   * Every series lines up with the dates: one point per sample, in sample
   * order, the sample's recorded count for that name or 0 when it has none.
   */
  lemma SeriesAligned(ids: seq<string>, records: map<string, Record>, patterns: seq<Pattern>)
    requires forall id :: id in ids ==> id in records
    requires forall j :: 0 <= j < |patterns| ==> patterns[j].name != DateKey
    ensures |AllSeries(ids, records, patterns)| == |patterns|
    ensures forall j :: 0 <= j < |patterns| ==>
              |AllSeries(ids, records, patterns)[j]| == |Dates(ids, records)|
    ensures forall j, k :: 0 <= j < |patterns| && 0 <= k < |ids| ==>
              AllSeries(ids, records, patterns)[j][k]
              == if patterns[j].name in records[ids[k]].counts then records[ids[k]].counts[patterns[j].name] else 0
  {
  }

  /**
   * Starting from the fresh records the sampler builds, each point of a
   * series after the counting stage is the sum of the counts git reported
   * for that sample under that pattern name, and the dates are unchanged.
   */
  lemma SeriesAreGrepTotals(ids: seq<string>, records: map<string, Record>, work: seq<Task>, name: string)
    requires forall id :: id in ids ==> id in records && records[id].counts == map[]
    requires name != DateKey
    requires Accumulate(records, work).Ok?
    ensures var after := Accumulate(records, work).value;
            && (forall id :: id in ids ==> id in after)
            && Dates(ids, after) == Dates(ids, records)
            && |SeriesOf(ids, after, name)| == |ids|
            && forall k :: 0 <= k < |ids| ==> SeriesOf(ids, after, name)[k] == Total(work, ids[k], name)
  {
    var after := Accumulate(records, work).value;
    forall k | 0 <= k < |ids|
      ensures after[ids[k]].date == records[ids[k]].date
      ensures CountOf(after[ids[k]], name) == Total(work, ids[k], name)
    {
      AccumulateSums(records, work, ids[k], name);
    }
  }
}
