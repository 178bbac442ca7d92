/**
 * The pattern counter, `find_text`: the sample ids go to `git grep -c` in
 * batches of ten, once per pattern, and every `"<commit>:<path>:<n>"` line
 * of the answer adds `n` to that commit's count for the pattern's name.
 */
module Counter {
  import opened Wrappers
  import opened Text
  import opened Samples

  /** `batch_size` */
  const BatchSize: nat := 10

  /** One entry of the `find` dict: a series name and the text searched for. */
  datatype Pattern = Pattern(name: string, text: string)

  /**
   * What `git grep -c '<text>' <batch...>` prints for a batch of commits and
   * a search text, one line per matching file. The git process is not
   * modelled; its answer is a parameter.
   */
  type Grep = (seq<string>, string) -> seq<string>

  function Min(a: int, b: int): int {
    if a < b then a else b
  }

  /** `commit_list[i:i + batch_size]` */
  function Batch(ids: seq<string>, i: nat): seq<string>
    requires i <= |ids|
  {
    ids[i..Min(i + BatchSize, |ids|)]
  }

  /**
   * A batch holds at most ten ids, at least one when `i` is in range, and
   * exactly ten unless it reaches the end; it is a prefix of the ids from `i` on.
   */
  lemma BatchBounds(ids: seq<string>, i: nat)
    requires i <= |ids|
    ensures |Batch(ids, i)| <= BatchSize
    ensures i < |ids| ==> 0 < |Batch(ids, i)|
    ensures i + |Batch(ids, i)| < |ids| ==> |Batch(ids, i)| == BatchSize
    ensures Batch(ids, i) <= ids[i..]
  {
  }

  /** The batches `range(i, len(ids), batch_size)` visits. */
  function BatchesFrom(ids: seq<string>, i: nat): (batches: seq<seq<string>>)
    ensures forall k :: 0 <= k < |batches| ==> 0 < |batches[k]| <= BatchSize
    ensures i <= |ids| ==> |batches| == (|ids| - i + BatchSize - 1) / BatchSize
    decreases |ids| - i
  {
    if i >= |ids| then [] else [Batch(ids, i)] + BatchesFrom(ids, i + BatchSize)
  }

  function Batches(ids: seq<string>): seq<seq<string>> {
    BatchesFrom(ids, 0)
  }

  function Flatten(batches: seq<seq<string>>): seq<string> {
    if batches == [] then [] else batches[0] + Flatten(batches[1..])
  }

  /** Put back together, the batches are exactly the ids from `i` on, in order. */
  lemma {:induction false} BatchesFromCover(ids: seq<string>, i: nat)
    requires i <= |ids|
    ensures Flatten(BatchesFrom(ids, i)) == ids[i..]
    decreases |ids| - i
  {
    if i < |ids| {
      var j := Min(i + BatchSize, |ids|);
      BatchesFromCover(ids, j);
      if j == |ids| {
        assert BatchesFrom(ids, i + BatchSize) == [];
      }
      assert ids[i..] == ids[i..j] + ids[j..];
    }
  }

  /**
   * Every sample id is sent to git in exactly one batch: the batches are
   * non-empty, hold at most ten ids, all but the last hold exactly ten, and
   * together they are the id list.
   */
  lemma BatchesCover(ids: seq<string>)
    ensures Flatten(Batches(ids)) == ids
    ensures |Batches(ids)| == (|ids| + BatchSize - 1) / BatchSize
    ensures forall k :: 0 <= k < |Batches(ids)| ==> 0 < |Batches(ids)[k]| <= BatchSize
    ensures forall k :: 0 <= k < |Batches(ids)| - 1 ==> |Batches(ids)[k]| == BatchSize
  {
    BatchesFromCover(ids, 0);
    BatchesFull(ids, 0);
  }

  lemma {:induction false} BatchesFull(ids: seq<string>, i: nat)
    ensures forall k :: 0 <= k < |BatchesFrom(ids, i)| - 1 ==> |BatchesFrom(ids, i)[k]| == BatchSize
    decreases |ids| - i
  {
    if i < |ids| {
      BatchesFull(ids, i + BatchSize);
    }
  }

  /** `line.split(":")[0]`, the commit a grep line is about. */
  function GrepCommit(line: string): (commit: string)
    ensures ':' !in commit
    ensures commit <= line
    ensures |commit| < |line| ==> line[|commit|] == ':'
  {
    JoinSplit(line, ':');
    Split(line, ':')[0]
  }

  /** `int(line.split(":")[-1])`, the count a grep line reports. */
  function GrepCount(line: string): Option<int> {
    var parts := Split(line, ':');
    ParseInt(parts[|parts| - 1])
  }

  /**
   * The commit is the first `:`-field and the count the last, so a colon in
   * the file path does not disturb either.
   */
  lemma GrepLineRoundTrip(commit: string, path: string, n: int)
    requires ':' !in commit
    ensures GrepCommit(commit + ":" + path + ":" + ShowInt(n)) == commit
    ensures GrepCount(commit + ":" + path + ":" + ShowInt(n)) == Some(n)
  {
    var count := ShowInt(n);
    ShowIntHasNo(n, ':');
    SplitWithoutSeparator(commit, ':');
    SplitWithoutSeparator(count, ':');
    assert commit + ":" + path + ":" + count == commit + [':'] + (path + [':'] + count);
    SplitAround(commit, ':', path + [':'] + count);
    SplitAround(path, ':', count);
    ParseShowInt(n);
  }

  /**
   * The effect of one grep line for the pattern `name`: the commit it names
   * gets its count for `name` raised by the reported count, and nothing else
   * changes. It fails, in the order the program meets them, when the commit
   * is not a sample, when the count is not a number, and when `name` is the
   * record's date key.
   */
  function StepLine(records: map<string, Record>, name: string, line: string): (r: Result<map<string, Record>, Error>)
    ensures GrepCommit(line) !in records ==> r == Err(UnknownCommit(GrepCommit(line)))
    ensures GrepCommit(line) in records && GrepCount(line).None? ==> r.Err? && r.error.NotAnInteger?
    ensures GrepCommit(line) in records && GrepCount(line).Some? && name == DateKey ==> r == Err(DateIsNotACount(name))
    ensures r.Ok? <==> GrepCommit(line) in records && GrepCount(line).Some? && name != DateKey
    ensures r.Ok? ==> r.value.Keys == records.Keys
    ensures r.Ok? ==> forall id :: id in records ==>
              && r.value[id].date == records[id].date
              && r.value[id].counts - {name} == records[id].counts - {name}
              && (name in r.value[id].counts <==> name in records[id].counts || id == GrepCommit(line))
              && CountOf(r.value[id], name)
                 == CountOf(records[id], name) + (if id == GrepCommit(line) then GrepCount(line).value else 0)
  {
    var parts := Split(line, ':');
    var id := parts[0];
    if id !in records then Err(UnknownCommit(id))
    else
      var rec := records[id];
      match ParseInt(parts[|parts| - 1])
      case None => Err(NotAnInteger(parts[|parts| - 1]))
      case Some(n) =>
        if name == DateKey then Err(DateIsNotACount(name))
        else Ok(records[id := rec.(counts := rec.counts[name := CountOf(rec, name) + n])])
  }

  /** One grep line to process, with the name of the pattern it answers. */
  datatype Task = Task(name: string, line: string)

  /** The lines of one `git grep` answer, tagged with the pattern's name. */
  function Tagged(name: string, lines: seq<string>): (work: seq<Task>)
    ensures |work| == |lines|
  {
    if lines == [] then [] else [Task(name, lines[0])] + Tagged(name, lines[1..])
  }

  /** Task `k` of a tagged answer is line `k` of the answer under the pattern's name. */
  lemma {:induction false} TaggedLines(name: string, lines: seq<string>)
    ensures forall k :: 0 <= k < |lines| ==> Tagged(name, lines)[k] == Task(name, lines[k])
  {
    if lines != [] {
      TaggedLines(name, lines[1..]);
    }
  }

  /** `for name, text in find.items()` over one batch. */
  function BatchWork(batch: seq<string>, patterns: seq<Pattern>, grep: Grep): seq<Task> {
    if patterns == [] then []
    else Tagged(patterns[0].name, grep(batch, patterns[0].text)) + BatchWork(batch, patterns[1..], grep)
  }

  /** The grep lines of a list of batches, batch by batch. */
  function WorkOf(batches: seq<seq<string>>, patterns: seq<Pattern>, grep: Grep): seq<Task> {
    if batches == [] then []
    else BatchWork(batches[0], patterns, grep) + WorkOf(batches[1..], patterns, grep)
  }

  /** Every grep line `find_text` processes, in the order it processes them. */
  function Work(ids: seq<string>, patterns: seq<Pattern>, grep: Grep): seq<Task> {
    WorkOf(Batches(ids), patterns, grep)
  }

  /** The records after processing `work`, or the error the first failing line raises. */
  function Accumulate(records: map<string, Record>, work: seq<Task>): (r: Result<map<string, Record>, Error>)
    ensures r.Ok? ==> r.value.Keys == records.Keys
  {
    if work == [] then Ok(records)
    else
      match StepLine(records, work[0].name, work[0].line)
      case Err(e) => Err(e)
      case Ok(next) => Accumulate(next, work[1..])
  }

  /** The sum of the counts the lines of `work` report for commit `id` and pattern `name`. */
  function Total(work: seq<Task>, id: string, name: string): int {
    if work == [] then 0
    else
      var t := work[0];
      (if t.name == name && GrepCommit(t.line) == id then GrepCount(t.line).GetOr(0) else 0)
      + Total(work[1..], id, name)
  }

  /**
   * Counts are summed, not overwritten: after all lines are processed each
   * sample's count for a name is its old count (0 when absent) plus every
   * count reported for it under that name, and its date is untouched.
   */
  lemma {:induction false} AccumulateSums(records: map<string, Record>, work: seq<Task>, id: string, name: string)
    requires id in records && Accumulate(records, work).Ok?
    ensures CountOf(Accumulate(records, work).value[id], name) == CountOf(records[id], name) + Total(work, id, name)
    ensures Accumulate(records, work).value[id].date == records[id].date
  {
    if work != [] {
      var next := StepLine(records, work[0].name, work[0].line).value;
      AccumulateSums(next, work[1..], id, name);
    }
  }

  /** A grep line naming a commit that is not a sample makes the whole run fail. */
  lemma {:induction false} UnknownCommitFails(records: map<string, Record>, work: seq<Task>, k: nat)
    requires k < |work| && GrepCommit(work[k].line) !in records
    ensures Accumulate(records, work).Err?
  {
    if k > 0 {
      match StepLine(records, work[0].name, work[0].line)
      case Err(_) =>
      case Ok(next) =>
        assert work[1..][k - 1] == work[k];
        UnknownCommitFails(next, work[1..], k - 1);
    }
  }

  /** `AccumulateAppend` when the first run succeeds. */
  lemma AccumulateThen(records: map<string, Record>, a: seq<Task>, mid: map<string, Record>, b: seq<Task>)
    requires Accumulate(records, a) == Ok(mid)
    ensures Accumulate(records, a + b) == Accumulate(mid, b)
  {
    AccumulateAppend(records, a, b);
  }

  /** Unfolds `StepLine` for a line that parses, for the proof of `TwoFilesSum`. */
  lemma StepLineAdds(records: map<string, Record>, name: string, line: string)
    requires GrepCommit(line) in records && GrepCount(line).Some? && name != DateKey
    ensures var c := GrepCommit(line);
            StepLine(records, name, line)
            == Ok(records[c := records[c].(counts := records[c].counts[name := CountOf(records[c], name) + GrepCount(line).value])])
  {
  }

  /** Two files of one commit reporting 2 and 3 matches give that commit a count of 5. */
  lemma TwoFilesSum(c: string, date: int)
    requires ':' !in c
    ensures Accumulate(map[c := Record(date, map[])],
                       Tagged("Old", [c + ":X:" + ShowInt(2), c + ":Y:" + ShowInt(3)]))
            == Ok(map[c := Record(date, map["Old" := 5])])
  {
    var line1 := c + ":X:" + ShowInt(2);
    var line2 := c + ":Y:" + ShowInt(3);
    assert line1 == c + ":" + "X" + ":" + ShowInt(2);
    assert line2 == c + ":" + "Y" + ":" + ShowInt(3);
    GrepLineRoundTrip(c, "X", 2);
    GrepLineRoundTrip(c, "Y", 3);
    assert [line1, line2][1..] == [line2];
    assert [line2][1..] == [];
    assert Tagged("Old", [line2]) == [Task("Old", line2)];
    var work := Tagged("Old", [line1, line2]);
    assert work == [Task("Old", line1), Task("Old", line2)];
    var m0 := map[c := Record(date, map[])];
    var m1 := map[c := Record(date, map["Old" := 2])];
    var m2 := map[c := Record(date, map["Old" := 5])];
    StepLineAdds(m0, "Old", line1);
    assert GrepCommit(line1) == c;
    assert GrepCount(line1).value == 2;
    assert CountOf(m0[c], "Old") == 0;
    assert m0[c].counts["Old" := 0 + 2] == map["Old" := 2];
    assert m0[c := m0[c].(counts := map["Old" := 2])] == m1;
    assert StepLine(m0, "Old", line1) == Ok(m1);
    StepLineAdds(m1, "Old", line2);
    assert GrepCommit(line2) == c;
    assert GrepCount(line2).value == 3;
    assert CountOf(m1[c], "Old") == 2;
    assert m1[c].counts["Old" := 2 + 3] == map["Old" := 5];
    assert m1[c := m1[c].(counts := map["Old" := 5])] == m2;
    assert StepLine(m1, "Old", line2) == Ok(m2);
    assert work[1..] == [Task("Old", line2)];
    assert work[1..][1..] == [];
    assert Accumulate(m1, work[1..]) == Accumulate(m2, []);
    assert Accumulate(m0, work) == Accumulate(m1, work[1..]);
  }

  /** Processing `a` and then `b` is processing `a + b`; a failure in `a` ends the run. */
  lemma {:induction false} AccumulateAppend(records: map<string, Record>, a: seq<Task>, b: seq<Task>)
    ensures Accumulate(records, a + b) ==
      match Accumulate(records, a)
      case Err(e) => Err(e)
      case Ok(m) => Accumulate(m, b)
  {
    if a != [] {
      assert (a + b)[0] == a[0];
      assert (a + b)[1..] == a[1..] + b;
      match StepLine(records, a[0].name, a[0].line)
      case Err(_) =>
      case Ok(next) => AccumulateAppend(next, a[1..], b);
    } else {
      assert a + b == b;
    }
  }

  /**
   * One grep line for the pattern `name`, processed in place as
   * `commit = commits[parts[0]]; commit[name] = commit.get(name, 0) + int(parts[-1])`.
   */
  method AddGrepLine(commits: Commits, name: string, line: string) returns (r: Outcome<Error>)
    requires commits.Valid()
    modifies commits
    ensures commits.Valid() && commits.ids == old(commits.ids)
    ensures StepLine(old(commits.records), name, line)
            == if r.Pass? then Ok(commits.records) else Err(r.error)
    ensures r.Fail? ==> commits.records == old(commits.records)
  {
    var parts := Split(line, ':');
    var id := parts[0];
    if id !in commits.records {
      return Fail(UnknownCommit(id));
    }
    var n := ParseInt(parts[|parts| - 1]);
    if n.None? {
      return Fail(NotAnInteger(parts[|parts| - 1]));
    }
    if name == DateKey {
      return Fail(DateIsNotACount(name));
    }
    commits.AddCount(id, name, n.value);
    return Pass;
  }

  /** The run over `work` from `start` reached line `k` with `records` and raised `e` there. */
  ghost predicate StoppedAt(start: map<string, Record>, work: seq<Task>, k: nat, records: map<string, Record>, e: Error) {
    && k < |work|
    && Accumulate(start, work[..k]) == Ok(records)
    && StepLine(records, work[k].name, work[k].line) == Err(e)
  }

  /**
   * The run over `work`, started from `start`, raised `e` at some line
   * after the lines before it had brought the records to `records`: the
   * state the dict is left in when `find_text` raises.
   */
  ghost predicate FailedAt(start: map<string, Record>, work: seq<Task>, records: map<string, Record>, e: Error) {
    exists k: nat :: StoppedAt(start, work, k, records, e)
  }

  /** A run that stops at a failing line fails as a whole with that line's error. */
  lemma FailedAtIsErr(start: map<string, Record>, work: seq<Task>, records: map<string, Record>, e: Error)
    requires FailedAt(start, work, records, e)
    ensures Accumulate(start, work) == Err(e)
  {
    var k: nat :| StoppedAt(start, work, k, records, e);
    assert work == work[..k] + work[k..];
    AccumulateThen(start, work[..k], records, work[k..]);
    assert work[k..][0] == work[k];
  }

  /** A failure inside a later stretch of the work is a failure of the whole work. */
  lemma FailedAtShift(start: map<string, Record>, done: seq<Task>, mid: map<string, Record>,
                      sub: seq<Task>, rest: seq<Task>, records: map<string, Record>, e: Error)
    requires Accumulate(start, done) == Ok(mid)
    requires FailedAt(mid, sub, records, e)
    ensures FailedAt(start, done + sub + rest, records, e)
  {
    var k: nat :| StoppedAt(mid, sub, k, records, e);
    StoppedAtShift(start, done, mid, sub, rest, k, records, e);
  }

  /** The witness for `FailedAtShift`: the failing line moves by the length of `done`. */
  lemma StoppedAtShift(start: map<string, Record>, done: seq<Task>, mid: map<string, Record>,
                       sub: seq<Task>, rest: seq<Task>, k: nat, records: map<string, Record>, e: Error)
    requires Accumulate(start, done) == Ok(mid)
    requires StoppedAt(mid, sub, k, records, e)
    ensures StoppedAt(start, done + sub + rest, |done| + k, records, e)
  {
    PrefixOfConcat(done, sub, rest, k);
    AccumulateThen(start, done, mid, sub[..k]);
  }

  /** Splits a prefix of `a + b + c` that ends inside `b`, for `StoppedAtShift`. */
  lemma PrefixOfConcat(a: seq<Task>, b: seq<Task>, c: seq<Task>, k: nat)
    requires k < |b|
    ensures (a + b + c)[..|a| + k] == a + b[..k]
    ensures (a + b + c)[|a| + k] == b[k]
  {
    var w := a + b + c;
    assert |w[..|a| + k]| == |a + b[..k]|;
    forall i | 0 <= i < |a| + k ensures w[..|a| + k][i] == (a + b[..k])[i] {
      if i < |a| {
        assert w[i] == a[i];
      } else {
        assert w[i] == b[i - |a|];
      }
    }
  }

  /** A failing first line leaves the records as they were. */
  lemma FailedAtFirst(records: map<string, Record>, t: Task, e: Error)
    requires StepLine(records, t.name, t.line) == Err(e)
    ensures FailedAt(records, [t], records, e)
  {
    assert [t][..0] == [];
    assert StoppedAt(records, [t], 0, records, e);
  }

  /**
   * `for line in lines:` over the answer to one pattern for one batch. When
   * a line raises, the increments of the lines before it stay in place.
   */
  method AddGrepLines(commits: Commits, name: string, lines: seq<string>) returns (r: Outcome<Error>)
    requires commits.Valid()
    modifies commits
    ensures commits.Valid() && commits.ids == old(commits.ids)
    ensures Accumulate(old(commits.records), Tagged(name, lines))
            == if r.Pass? then Ok(commits.records) else Err(r.error)
    ensures r.Fail? ==> FailedAt(old(commits.records), Tagged(name, lines), commits.records, r.error)
  {
    ghost var work := Tagged(name, lines);
    ghost var done: seq<Task> := [];
    assert lines[0..] == lines;
    for k := 0 to |lines|
      invariant commits.Valid() && commits.ids == old(commits.ids)
      invariant work == done + Tagged(name, lines[k..])
      invariant Accumulate(old(commits.records), done) == Ok(commits.records)
    {
      assert lines[k..][1..] == lines[k + 1..];
      ghost var t := Task(name, lines[k]);
      ghost var later := Tagged(name, lines[k + 1..]);
      assert work == done + [t] + later;
      ghost var before := commits.records;
      var step := AddGrepLine(commits, name, lines[k]);
      if step.Fail? {
        FailedAtFirst(before, t, step.error);
        FailedAtShift(old(commits.records), done, before, [t], later, commits.records, step.error);
        FailedAtIsErr(old(commits.records), work, commits.records, step.error);
        return step;
      }
      AccumulateThen(old(commits.records), done, before, [t]);
      assert [t][1..] == [];
      done := done + [t];
    }
    assert lines[|lines|..] == [];
    assert work == done;
    return Pass;
  }

  /** Unfolds `BatchWork` over the patterns from `j` on by one pattern, for the loop proof of `SearchBatch`. */
  lemma BatchWorkStep(batch: seq<string>, patterns: seq<Pattern>, j: nat, grep: Grep)
    requires j < |patterns|
    ensures BatchWork(batch, patterns[j..], grep)
            == Tagged(patterns[j].name, grep(batch, patterns[j].text)) + BatchWork(batch, patterns[j + 1..], grep)
  {
    assert patterns[j..][1..] == patterns[j + 1..];
  }

  /**
   * `for name, text in find.items():` for one batch. When a line raises,
   * the increments of everything before it stay in place.
   */
  method SearchBatch(commits: Commits, batch: seq<string>, patterns: seq<Pattern>, grep: Grep) returns (r: Outcome<Error>)
    requires commits.Valid()
    modifies commits
    ensures commits.Valid() && commits.ids == old(commits.ids)
    ensures Accumulate(old(commits.records), BatchWork(batch, patterns, grep))
            == if r.Pass? then Ok(commits.records) else Err(r.error)
    ensures r.Fail? ==> FailedAt(old(commits.records), BatchWork(batch, patterns, grep), commits.records, r.error)
  {
    ghost var work := BatchWork(batch, patterns, grep);
    ghost var done: seq<Task> := [];
    assert patterns[0..] == patterns;
    for j := 0 to |patterns|
      invariant commits.Valid() && commits.ids == old(commits.ids)
      invariant work == done + BatchWork(batch, patterns[j..], grep)
      invariant Accumulate(old(commits.records), done) == Ok(commits.records)
    {
      var lines := grep(batch, patterns[j].text);
      ghost var sub := Tagged(patterns[j].name, lines);
      ghost var later := BatchWork(batch, patterns[j + 1..], grep);
      BatchWorkStep(batch, patterns, j, grep);
      assert work == done + sub + later;
      ghost var before := commits.records;
      var step := AddGrepLines(commits, patterns[j].name, lines);
      if step.Fail? {
        FailedAtShift(old(commits.records), done, before, sub, later, commits.records, step.error);
        FailedAtIsErr(old(commits.records), work, commits.records, step.error);
        return step;
      }
      AccumulateThen(old(commits.records), done, before, sub);
      done := done + sub;
    }
    assert patterns[|patterns|..] == [];
    assert work == done;
    return Pass;
  }

  /** Unfolds `WorkOf` over the batches from `i` on by one batch, for the loop proof of `FindText`. */
  lemma WorkOfStep(ids: seq<string>, i: nat, patterns: seq<Pattern>, grep: Grep)
    requires i < |ids|
    ensures WorkOf(BatchesFrom(ids, i), patterns, grep)
            == BatchWork(Batch(ids, i), patterns, grep) + WorkOf(BatchesFrom(ids, i + BatchSize), patterns, grep)
  {
    assert BatchesFrom(ids, i)[1..] == BatchesFrom(ids, i + BatchSize);
  }

  /**
   * `find_text(commits, find)`: the records end up as `Accumulate` of the
   * grep lines in processing order; when a line raises, the error is
   * returned and the increments of every line before it stay in place. The
   * key order never changes.
   */
  method FindText(commits: Commits, patterns: seq<Pattern>, grep: Grep) returns (r: Outcome<Error>)
    requires commits.Valid()
    modifies commits
    ensures commits.Valid() && commits.ids == old(commits.ids)
    ensures Accumulate(old(commits.records), Work(old(commits.ids), patterns, grep))
            == if r.Pass? then Ok(commits.records) else Err(r.error)
    ensures r.Fail? ==> FailedAt(old(commits.records), Work(old(commits.ids), patterns, grep), commits.records, r.error)
  {
    var commitList := commits.ids;
    ghost var work := Work(commitList, patterns, grep);
    ghost var done: seq<Task> := [];
    var i := 0;
    while i < |commitList|
      invariant commits.Valid() && commits.ids == commitList
      invariant work == done + WorkOf(BatchesFrom(commitList, i), patterns, grep)
      invariant Accumulate(old(commits.records), done) == Ok(commits.records)
      decreases |commitList| - i
    {
      var batch := Batch(commitList, i);
      ghost var sub := BatchWork(batch, patterns, grep);
      ghost var later := WorkOf(BatchesFrom(commitList, i + BatchSize), patterns, grep);
      assert work == done + sub + later by {
        WorkOfStep(commitList, i, patterns, grep);
      }
      ghost var start := old(commits.records);
      ghost var before := commits.records;
      var step := SearchBatch(commits, batch, patterns, grep);
      if step.Fail? {
        assert FailedAt(start, work, commits.records, step.error) by {
          FailedAtShift(start, done, before, sub, later, commits.records, step.error);
        }
        FailedAtIsErr(start, work, commits.records, step.error);
        return step;
      }
      assert Accumulate(start, done + sub) == Ok(commits.records) by {
        AccumulateThen(start, done, before, sub);
      }
      done := done + sub;
      i := i + BatchSize;
    }
    assert work == done;
    return Pass;
  }
}
