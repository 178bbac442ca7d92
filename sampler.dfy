/**
 * The commit sampler, `find_commits`: it reads the `"<unix-time> <hash>"`
 * lines of `git log --reverse` (oldest first) and keeps one commit per run
 * of equal bucket keys, the first of each run.
 */
module Sampler {
  import opened Wrappers
  import opened Text
  import opened Samples

  /** An ISO week number, the bucket key the program uses. */
  type WeekNumber = w: int | 1 <= w <= 53 witness 1

  /**
   * The bucket key of a unix time: `datetime.fromtimestamp(t).isocalendar()[1]`.
   * Local-time and calendar conversion are not modelled; the key is a parameter.
   */
  type BucketKey = int -> WeekNumber

  /** One parsed history line. */
  datatype Entry = Entry(time: int, hash: string)

  /** `time, commit = line.split(" ")` followed by `int(time)`. */
  function ParseHistoryLine(line: string): Result<Entry, Error> {
    var fields := Split(line, ' ');
    if |fields| != 2 then Err(MalformedHistoryLine(line))
    else
      match ParseInt(fields[0])
      case None => Err(NotAnInteger(fields[0]))
      case Some(t) => Ok(Entry(t, fields[1]))
  }

  /** A parsed hash never holds a space, and a line fails only as malformed or for a non-integer time. */
  lemma HistoryLineShape(line: string)
    ensures ParseHistoryLine(line).Ok? ==> ' ' !in ParseHistoryLine(line).value.hash
    ensures ParseHistoryLine(line).Err? ==>
              ParseHistoryLine(line).error == MalformedHistoryLine(line) || ParseHistoryLine(line).error.NotAnInteger?
  {
  }

  /** A line is refused as malformed exactly when it does not hold exactly one space. */
  lemma HistoryLineMalformed(line: string)
    ensures ParseHistoryLine(line) == Err(MalformedHistoryLine(line)) <==> multiset(line)[' '] != 1
  {
    SplitCount(line, ' ');
  }

  /** The line git prints for a commit parses back to that commit. */
  lemma HistoryLineRoundTrip(time: int, hash: string)
    requires ' ' !in hash
    ensures ParseHistoryLine(ShowInt(time) + " " + hash) == Ok(Entry(time, hash))
  {
    ShowIntHasNo(time, ' ');
    SplitJoin([ShowInt(time), hash], ' ');
    assert Join([ShowInt(time), hash], ' ') == ShowInt(time) + " " + hash;
    ParseShowInt(time);
  }

  /**
   * All history lines parsed in order; the first line that does not parse
   * decides the error, as the exception it raises ends `find_commits`.
   */
  function ParseHistory(lines: seq<string>): (r: Result<seq<Entry>, Error>)
    ensures r.Ok? ==> |r.value| == |lines|
    ensures r.Ok? ==> forall i :: 0 <= i < |lines| ==> ParseHistoryLine(lines[i]) == Ok(r.value[i])
  {
    if lines == [] then Ok([])
    else
      var prefix := lines[..|lines| - 1];
      match ParseHistory(prefix)
      case Err(e) =>
        Err(e)
      case Ok(es) =>
        match ParseHistoryLine(lines[|lines| - 1])
        case Err(e) => Err(e)
        case Ok(entry) => Ok(es + [entry])
  }

  /** The history fails to parse exactly when some line fails, and the first such line decides the error. */
  lemma {:induction false} ParseHistoryError(lines: seq<string>)
    ensures ParseHistory(lines).Err? <==> exists i :: 0 <= i < |lines| && ParseHistoryLine(lines[i]).Err?
    ensures ParseHistory(lines).Err? ==>
              exists i :: 0 <= i < |lines| && ParseHistoryLine(lines[i]) == Err(ParseHistory(lines).error)
                       && forall j :: 0 <= j < i ==> ParseHistoryLine(lines[j]).Ok?
  {
    if lines != [] {
      var prefix := lines[..|lines| - 1];
      ParseHistoryError(prefix);
      assert forall i :: 0 <= i < |prefix| ==> prefix[i] == lines[i];
      if ParseHistory(prefix).Ok? && ParseHistoryLine(lines[|lines| - 1]).Err? {
        var i := |lines| - 1;
        assert ParseHistoryLine(lines[i]) == Err(ParseHistory(lines).error);
        assert forall j :: 0 <= j < i ==> ParseHistoryLine(lines[j]).Ok?;
      }
    }
  }

  /** Once a prefix of the history fails to parse, the whole history does. */
  lemma {:induction false} ParseHistoryPrefixError(lines: seq<string>, i: nat)
    requires i <= |lines| && ParseHistory(lines[..i]).Err?
    ensures ParseHistory(lines) == ParseHistory(lines[..i])
    decreases |lines| - i
  {
    if i < |lines| {
      assert lines[..i + 1][..i] == lines[..i];
      ParseHistoryPrefixError(lines, i + 1);
    } else {
      assert lines[..i] == lines;
    }
  }

  /** The value of `current` after the loop has seen `es`. */
  function Current(es: seq<Entry>, key: BucketKey): int {
    if es == [] then 0
    else
      var current := Current(es[..|es| - 1], key);
      var day := key(es[|es| - 1].time);
      if day != current then day else current
  }

  /** The entries the loop keeps, in the order it keeps them. */
  function Kept(es: seq<Entry>, key: BucketKey): (kept: seq<Entry>)
    ensures |kept| <= |es|
  {
    if es == [] then []
    else
      var prefix := es[..|es| - 1];
      var e := es[|es| - 1];
      if key(e.time) != Current(prefix, key) then Kept(prefix, key) + [e] else Kept(prefix, key)
  }

  /** The running key is always the key of the last entry seen. */
  lemma {:induction false} CurrentIsLastKey(es: seq<Entry>, key: BucketKey)
    ensures Current(es, key) == if es == [] then 0 else key(es[|es| - 1].time)
  {
  }

  /** ...and, once something is kept, the key of the last kept entry. */
  lemma {:induction false} CurrentIsLastKeptKey(es: seq<Entry>, key: BucketKey)
    ensures Kept(es, key) == [] <==> es == []
    ensures es != [] ==> Current(es, key) == key(Kept(es, key)[|Kept(es, key)| - 1].time)
  {
    if es != [] {
      var prefix := es[..|es| - 1];
      CurrentIsLastKeptKey(prefix, key);
    }
  }

  /**
   * An entry is dropped exactly when its key equals the key of the most
   * recently kept entry (the first entry is always kept).
   */
  lemma KeptStep(es: seq<Entry>, e: Entry, key: BucketKey)
    ensures Kept(es + [e], key) ==
      if Kept(es, key) == [] || key(e.time) != key(Kept(es, key)[|Kept(es, key)| - 1].time)
      then Kept(es, key) + [e]
      else Kept(es, key)
  {
    assert (es + [e])[..|es|] == es;
    CurrentIsLastKeptKey(es, key);
  }

  /** Consecutive samples never share a bucket key. */
  lemma {:induction false} KeptKeysAlternate(es: seq<Entry>, key: BucketKey)
    ensures forall i :: 0 <= i < |Kept(es, key)| - 1 ==>
              key(Kept(es, key)[i].time) != key(Kept(es, key)[i + 1].time)
  {
    if es != [] {
      var prefix := es[..|es| - 1];
      assert es == prefix + [es[|es| - 1]];
      KeptKeysAlternate(prefix, key);
      KeptStep(prefix, es[|es| - 1], key);
    }
  }

  /** For a non-empty history the oldest commit is always the first sample. */
  lemma {:induction false} FirstEntryKept(es: seq<Entry>, key: BucketKey)
    requires es != []
    ensures Kept(es, key) != [] && Kept(es, key)[0] == es[0]
  {
    var prefix := es[..|es| - 1];
    if prefix != [] {
      FirstEntryKept(prefix, key);
      assert prefix[0] == es[0];
    } else {
      assert Current(prefix, key) == 0;
    }
  }

  /**
   * Only neighbouring samples are kept apart: with keys 5, 6, 5 all three
   * commits are samples, and the first and last share a bucket key.
   */
  lemma NonAdjacentSamplesMayShareKey(a: Entry, b: Entry, c: Entry, key: BucketKey)
    requires key(a.time) == 5 && key(b.time) == 6 && key(c.time) == 5
    ensures Kept([a, b, c], key) == [a, b, c]
    ensures key(Kept([a, b, c], key)[0].time) == key(Kept([a, b, c], key)[2].time)
  {
    DistinctBucketsKeepAll([a, b, c], key);
  }

  /** Entry `i` begins a run of equal keys. */
  predicate StartsRun(es: seq<Entry>, key: BucketKey, i: nat)
    requires i < |es|
  {
    i == 0 || key(es[i - 1].time) != key(es[i].time)
  }

  /** Reference: the positions of the entries that begin a run of equal keys. */
  function RunStarts(es: seq<Entry>, key: BucketKey): seq<nat> {
    if es == [] then []
    else
      var starts := RunStarts(es[..|es| - 1], key);
      if StartsRun(es, key, |es| - 1) then starts + [|es| - 1] else starts
  }

  /** `RunStarts` lists, in increasing order, exactly the positions that start a run. */
  lemma {:induction false} RunStartsMeaning(es: seq<Entry>, key: BucketKey)
    ensures forall k :: 0 <= k < |RunStarts(es, key)| ==> RunStarts(es, key)[k] < |es|
    ensures forall k, l :: 0 <= k < l < |RunStarts(es, key)| ==> RunStarts(es, key)[k] < RunStarts(es, key)[l]
    ensures forall i :: 0 <= i < |es| ==> (i in RunStarts(es, key) <==> StartsRun(es, key, i))
  {
    if es != [] {
      var prefix := es[..|es| - 1];
      RunStartsMeaning(prefix, key);
      assert forall i :: 0 <= i < |prefix| ==> (StartsRun(prefix, key, i) <==> StartsRun(es, key, i));
    }
  }

  /**
   * The samples are the run starts of the history, in history order: a
   * subsequence of the input that keeps each entry whose key differs from
   * the key of the entry just before it.
   */
  lemma {:induction false} KeptAreRunStarts(es: seq<Entry>, key: BucketKey)
    ensures |Kept(es, key)| == |RunStarts(es, key)|
    ensures forall k :: 0 <= k < |Kept(es, key)| ==>
              RunStarts(es, key)[k] < |es| && Kept(es, key)[k] == es[RunStarts(es, key)[k]]
  {
    if es != [] {
      var prefix := es[..|es| - 1];
      KeptAreRunStarts(prefix, key);
      RunStartsMeaning(prefix, key);
      CurrentIsLastKey(prefix, key);
    }
  }

  /** When neighbouring commits always fall in different buckets, every commit is a sample. */
  lemma {:induction false} DistinctBucketsKeepAll(es: seq<Entry>, key: BucketKey)
    requires forall i :: 0 <= i < |es| - 1 ==> key(es[i].time) != key(es[i + 1].time)
    ensures Kept(es, key) == es
  {
    if es != [] {
      var prefix := es[..|es| - 1];
      DistinctBucketsKeepAll(prefix, key);
      CurrentIsLastKey(prefix, key);
      assert es == prefix + [es[|es| - 1]];
    }
  }

  /** The hashes of a list of entries. */
  function Hashes(es: seq<Entry>): (hs: seq<string>)
    ensures |hs| == |es| && forall k :: 0 <= k < |es| ==> hs[k] == es[k].hash
  {
    seq(|es|, k requires 0 <= k < |es| => es[k].hash)
  }

  /** The key order of the dict built by inserting the kept entries one by one. */
  function SampleIds(kept: seq<Entry>): (ids: seq<string>)
    ensures Distinct(ids)
    ensures |ids| <= |kept|
    ensures forall id :: id in ids <==> id in Hashes(kept)
  {
    if kept == [] then []
    else
      var ids := SampleIds(kept[..|kept| - 1]);
      var e := kept[|kept| - 1];
      assert forall k :: 0 <= k < |kept| - 1 ==> Hashes(kept[..|kept| - 1])[k] == Hashes(kept)[k];
      assert Hashes(kept) == Hashes(kept[..|kept| - 1]) + [e.hash];
      if e.hash in ids then ids else ids + [e.hash]
  }

  /**
   * The records of that dict: one fresh record per hash, dated by the last
   * kept entry with that hash, with no pattern counts yet.
   */
  function SampleRecords(kept: seq<Entry>): (records: map<string, Record>)
    ensures forall id :: id in records <==> id in SampleIds(kept)
    ensures forall id :: id in records ==> records[id].counts == map[]
  {
    if kept == [] then map[]
    else
      var e := kept[|kept| - 1];
      SampleRecords(kept[..|kept| - 1])[e.hash := Record(e.time, map[])]
  }

  /**
   * With distinct hashes, as `git log` prints them, the dict's key order is
   * exactly the kept hashes and each record carries its own commit's date.
   */
  lemma {:induction false} SamplesOfDistinctHashes(kept: seq<Entry>)
    requires Distinct(Hashes(kept))
    ensures SampleIds(kept) == Hashes(kept)
    ensures forall k :: 0 <= k < |kept| ==> SampleRecords(kept)[kept[k].hash] == Record(kept[k].time, map[])
  {
    if kept != [] {
      var prefix := kept[..|kept| - 1];
      var e := kept[|kept| - 1];
      assert Hashes(kept) == Hashes(prefix) + [e.hash];
      assert Distinct(Hashes(prefix)) by {
        forall i, j | 0 <= i < j < |prefix| ensures Hashes(prefix)[i] != Hashes(prefix)[j] {
          assert Hashes(kept)[i] != Hashes(kept)[j];
        }
      }
      SamplesOfDistinctHashes(prefix);
      assert e.hash !in Hashes(prefix) by {
        forall i | 0 <= i < |prefix| ensures Hashes(prefix)[i] != e.hash {
          assert Hashes(kept)[i] != Hashes(kept)[|kept| - 1];
        }
      }
      forall k | 0 <= k < |kept| - 1
        ensures SampleRecords(kept)[kept[k].hash] == Record(kept[k].time, map[])
      {
        assert kept[k] == prefix[k];
        assert Hashes(kept)[k] != Hashes(kept)[|kept| - 1];
      }
    }
  }

  /** Unfolds `Current` and `Kept` by one entry, for the loop proof of `FindCommits`. */
  lemma KeptAppend(es: seq<Entry>, e: Entry, key: BucketKey)
    ensures Current(es + [e], key) == if key(e.time) != Current(es, key) then key(e.time) else Current(es, key)
    ensures Kept(es + [e], key) == if key(e.time) != Current(es, key) then Kept(es, key) + [e] else Kept(es, key)
  {
    assert (es + [e])[..|es|] == es;
  }

  /** Unfolds `ParseHistory` by one line that parses, for the loop proof of `FindCommits`. */
  lemma ParseHistoryStep(lines: seq<string>, i: nat, es: seq<Entry>, entry: Entry)
    requires i < |lines| && ParseHistory(lines[..i]) == Ok(es) && ParseHistoryLine(lines[i]) == Ok(entry)
    ensures ParseHistory(lines[..i + 1]) == Ok(es + [entry])
  {
    assert lines[..i + 1][..i] == lines[..i];
  }

  /** Unfolds `SampleIds` and `SampleRecords` by one entry, for the loop proof of `FindCommits`. */
  lemma SamplesAppend(kept: seq<Entry>, e: Entry)
    ensures SampleIds(kept + [e]) == if e.hash in SampleIds(kept) then SampleIds(kept) else SampleIds(kept) + [e.hash]
    ensures SampleRecords(kept + [e]) == SampleRecords(kept)[e.hash := Record(e.time, map[])]
  {
    assert (kept + [e])[..|kept|] == kept;
  }

  /**
   * `find_commits` on the lines of the history: on success a new dict
   * holding one sample per run of equal bucket keys; on the first line
   * that does not parse, the error it raises.
   */
  method FindCommits(lines: seq<string>, key: BucketKey) returns (r: Result<Commits, Error>)
    ensures r.Err? <==> ParseHistory(lines).Err?
    ensures r.Err? ==> r.error == ParseHistory(lines).error
    ensures r.Ok? ==> fresh(r.value) && r.value.Valid()
    ensures r.Ok? ==> r.value.ids == SampleIds(Kept(ParseHistory(lines).value, key))
    ensures r.Ok? ==> r.value.records == SampleRecords(Kept(ParseHistory(lines).value, key))
    ensures lines == [] ==> r.Ok? && r.value.ids == []
  {
    var commits := new Commits();
    var current: int := 0;
    ghost var es: seq<Entry> := [];
    for i := 0 to |lines|
      invariant ParseHistory(lines[..i]) == Ok(es)
      invariant current == Current(es, key)
      invariant fresh(commits) && commits.Valid()
      invariant commits.ids == SampleIds(Kept(es, key))
      invariant commits.records == SampleRecords(Kept(es, key))
    {
      var parsed := ParseHistoryLine(lines[i]);
      if parsed.Err? {
        assert ParseHistory(lines) == Err(parsed.error) by {
          assert lines[..i + 1][..i] == lines[..i];
          ParseHistoryPrefixError(lines, i + 1);
        }
        return Err(parsed.error);
      }
      var entry := parsed.value;
      ParseHistoryStep(lines, i, es, entry);
      KeptAppend(es, entry, key);
      var day := key(entry.time);
      if day != current {
        current := day;
        SamplesAppend(Kept(es, key), entry);
        commits.Put(entry.hash, Record(entry.time, map[]));
      }
      es := es + [entry];
    }
    assert lines[..|lines|] == lines;
    return Ok(commits);
  }
}
