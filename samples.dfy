/**
 * The sample mapping shared by the three stages: an insertion-ordered
 * dictionary from commit hash to a record holding the commit's date and one
 * occurrence count per pattern name.
 */
module Samples {

  /**
   * One sample's record, the Python dict `{"date": date, name: count, ...}`.
   * The date is kept as the commit's unix time; `counts` holds the pattern
   * entries, so a missing name is a count not yet written.
   */
  datatype Record = Record(date: int, counts: map<string, int>)

  /** The key under which the record keeps its date. */
  const DateKey: string := "date"

  /** `record.get(name, 0)` for a pattern name. */
  function CountOf(rec: Record, name: string): int {
    if name in rec.counts then rec.counts[name] else 0
  }

  /** The exceptions the program can raise on the text git returns. */
  datatype Error =
    | MalformedHistoryLine(line: string)   // `time, commit = ...split(" ")` does not unpack
    | NotAnInteger(text: string)           // `int(...)` raises ValueError
    | UnknownCommit(id: string)            // `commits[parts[0]]` raises KeyError
    | DateIsNotACount(name: string)        // `date + int` raises TypeError

  predicate Distinct(s: seq<string>) {
    forall i, j :: 0 <= i < j < |s| ==> s[i] != s[j]
  }

  /**
   * The dictionary `commits`: `ids` is its key order (`list(commits.keys())`)
   * and `records` its contents.
   */
  class Commits {
    var ids: seq<string>
    var records: map<string, Record>

    ghost predicate Valid()
      reads this
    {
      && Distinct(ids)
      && (forall id :: id in records <==> id in ids)
    }

    /** `commits = {}` */
    constructor ()
      ensures Valid() && ids == [] && records == map[]
    {
      ids := [];
      records := map[];
    }

    /**
     * `commits[id] = rec`: a new key goes to the end of the order, an
     * existing key keeps its place and gets the new record.
     */
    method Put(id: string, rec: Record)
      requires Valid()
      modifies this
      ensures Valid()
      ensures ids == if id in old(records) then old(ids) else old(ids) + [id]
      ensures records == old(records)[id := rec]
    {
      if id !in records {
        ids := ids + [id];
      }
      records := records[id := rec];
    }

    /** `commit = commits[id]; commit[name] = commit.get(name, 0) + n` */
    method AddCount(id: string, name: string, n: int)
      requires Valid() && id in records && name != DateKey
      modifies this
      ensures Valid() && ids == old(ids)
      ensures records == old(records)[id := old(records)[id].(counts :=
                old(records)[id].counts[name := CountOf(old(records)[id], name) + n])]
    {
      var rec := records[id];
      records := records[id := rec.(counts := rec.counts[name := CountOf(rec, name) + n])];
    }
  }
}
