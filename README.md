# git_stats: commit sampling and pattern counting

`git_stats.py` tracks how often some code idioms occur in a repository over
time. It reads the history from `git log`, keeps the first commit of each run
of commits with the same ISO week number, asks
`git grep -c` how often each pattern occurs in those commits (ten commits per
query), adds the counts up per commit and plots one line per pattern.

This project models the three routines that do this work on git's text output:

- **`find_commits`** (`sampler.dfy`, module `Sampler`). It reads the
  `"<unix-time> <hash>"` lines, oldest first. A commit is kept when its bucket
  key differs from the running key `current`, which starts at 0. The key is a
  parameter `key: int -> WeekNumber` with values 1..53. It stands for
  `datetime.fromtimestamp(t).isocalendar()[1]`. The sampler is a method with a
  loop that fills a `Commits` object. The values it produces are specified by
  `ParseHistory`, `Kept`, `SampleIds` and `SampleRecords`.
- **`find_text`** (`counter.dfy`, module `Counter`). Its nested loops over
  batches, patterns and grep lines are the methods `FindText`, `SearchBatch`,
  `AddGrepLines` and `AddGrepLine`. These update the `Commits` object in place.
  They are proved against `Accumulate`, which folds `StepLine` over the grep
  lines in processing order (`Work`). The answer of `git grep` is a parameter
  `grep: (batch, text) -> lines`.
- **The series in `main`** (`series.dfy`, module `Series`). These are the
  list comprehensions that feed the plot, as functions.

Shared modules:

- `samples.dfy` (`Samples`): the records and the error kinds. The class
  `Commits` models the Python dict `commits`. `ids` is its key order and
  `records` its contents. Assigning to an existing key keeps that key's place,
  as a Python dict does.
- `text.dfy` (`Text`): `str.split` with a one-character separator and `int()`
  on decimal numerals.
- `wrappers.dfy` (`Wrappers`): `Option`, `Result` and `Outcome`.

Exceptions become `Err`/`Fail` values:

- a history line that does not unpack into two fields;
- a field that is not an integer;
- a grep line naming a commit that is not a sample (`KeyError`);
- a pattern named `date`, whose count would be added to the record's date
  (`TypeError`).

The key is the week number alone, without the year, and a commit is compared
only with the key of the commit before it. So two consecutive commits in
different years that share a week number fall in one bucket. Samples that are
not neighbours can share a week as well: with keys 5, 6, 5 all three commits
are kept (`NonAdjacentSamplesMayShareKey`). The model keeps both, because the
key can be any function into 1..53.

The bucket key is fixed in the code as the ISO week number
(git_stats.py:30). A day key and a per-commit key appear only as the
commented-out lines git_stats.py:29 and git_stats.py:31, and there is no option
to choose between them. The model follows the code and has the week key only.

## Model

| member | source | states |
|---|---|---|
| `Text.Split` | git_stats.py:27 | `str.split(sep)` always gives at least one field, and no field contains the separator |
| `Text.JoinSplit` | git_stats.py:27 | joining the fields of a split with the separator gives back the line |
| `Text.SplitJoin` | git_stats.py:27 | splitting a join of separator-free fields gives back exactly those fields |
| `Text.SplitCount` | git_stats.py:27 | a split has one more field than the line has separators |
| `Text.ParseInt` | git_stats.py:28 | `int()` on an optional sign followed by decimal digits, `None` for the `ValueError`; it has no contract of its own, and `ParseShowInt` gives its meaning |
| `Text.ParseShowInt` | git_stats.py:28 | `int(str(i)) == i` for every integer, so numerals git prints are read back exactly |
| `Sampler.ParseHistoryLine` | git_stats.py:27-28 | `time, commit = line.split(" ")` then `int(time)`; it has no contract of its own, and `HistoryLineShape`, `HistoryLineMalformed` and `HistoryLineRoundTrip` give its meaning |
| `Sampler.HistoryLineShape` | git_stats.py:27-28 | a parsed hash never holds a space, and the only errors are the malformed line and the non-integer time |
| `Sampler.HistoryLineMalformed` | git_stats.py:27 | a history line is refused as malformed exactly when it does not contain exactly one space |
| `Sampler.HistoryLineRoundTrip` | git_stats.py:27-28 | the line `"<time> <hash>"` parses to that time and hash |
| `Sampler.ParseHistory` | git_stats.py:26-28 | on success, one entry per line, in order, each the parse of its line |
| `Sampler.ParseHistoryError` | git_stats.py:26-28 | parsing fails exactly when some line fails, and the error is that of the first failing line |
| `Sampler.Current` | git_stats.py:25-33 | the running key `current`; it has no contract of its own, and `CurrentIsLastKey` and `CurrentIsLastKeptKey` give its meaning |
| `Sampler.Kept` | git_stats.py:24-34 | never more samples than history lines |
| `Sampler.CurrentIsLastKey` | git_stats.py:25-33 | after each line, `current` is the key of that line (0 before any line) |
| `Sampler.CurrentIsLastKeptKey` | git_stats.py:25-34 | nothing is kept only for the empty history; otherwise `current` is the key of the last kept commit |
| `Sampler.KeptStep` | git_stats.py:30-34 | a commit is kept exactly when nothing is kept yet or its key differs from the key of the last kept commit; otherwise it is dropped |
| `Sampler.KeptKeysAlternate` | git_stats.py:30-34 | consecutive samples never share a bucket key |
| `Sampler.FirstEntryKept` | git_stats.py:25-34 | for a non-empty history the oldest commit is the first sample |
| `Sampler.RunStartsMeaning` | git_stats.py:30-34 | the reference positions are increasing, in range, and are exactly the commits whose key differs from the previous commit's key |
| `Sampler.KeptAreRunStarts` | git_stats.py:26-34 | the samples are the commits at those positions, in history order: a subsequence of the input |
| `Sampler.NonAdjacentSamplesMayShareKey` | git_stats.py:30-34 | samples are only kept apart from their neighbours: with keys 5, 6, 5 all three commits are kept, and the first and last share a key |
| `Sampler.DistinctBucketsKeepAll` | git_stats.py:30-34 | when neighbouring commits always fall in different buckets, every commit is kept in order |
| `Sampler.SampleIds` | git_stats.py:34 | the dict's key order has no repeats, is no longer than the kept list, and holds exactly the kept hashes |
| `Sampler.SampleRecords` | git_stats.py:34 | the dict holds a record for exactly the ids in the key order, each with no pattern counts yet |
| `Sampler.SamplesOfDistinctHashes` | git_stats.py:34 | with distinct hashes, the key order is the kept hashes and each record has its own commit's date |
| `Sampler.FindCommits` | git_stats.py:24-35 | returns an error exactly when the history does not parse (the first failing line's error); otherwise a new dict whose order and records are those of the kept commits; empty input gives an empty dict |
| `Samples.CountOf` | git_stats.py:48 | `record.get(name, 0)`; it has no contract of its own, and `AccumulateSums` and `SeriesAligned` state what it reads |
| `Samples.Commits.constructor` | git_stats.py:24 | `commits = {}`: no keys, no records |
| `Samples.Commits.Put` | git_stats.py:34 | `commits[id] = rec`: a new id is appended to the order, an existing id keeps its place; the dict invariant is kept |
| `Samples.Commits.AddCount` | git_stats.py:47-48 | `commit[name] = commit.get(name, 0) + n` on one record of a known commit, for a name other than `date`; nothing else changes |
| `Counter.Batch` | git_stats.py:42 | `commit_list[i:i + 10]`; it has no contract of its own, and `BatchBounds` and `BatchesCover` give its meaning |
| `Counter.BatchBounds` | git_stats.py:41-42 | a batch holds at most 10 ids, at least one when `i` is in range, exactly 10 unless it reaches the end, and is a prefix of the ids from `i` on |
| `Counter.BatchesFrom` | git_stats.py:41-42 | each batch from `range(i, len, 10)` holds 1 to 10 ids, and there are ceil((len - i) / 10) of them |
| `Counter.BatchesFromCover` | git_stats.py:41-42 | the batches from offset `i`, concatenated, are the ids from `i` on |
| `Counter.BatchesCover` | git_stats.py:39-42 | the batches concatenate to exactly the ordered id list; all hold 1 to 10 ids, all but the last exactly 10 |
| `Counter.GrepCommit` | git_stats.py:46-47 | `parts[0]`: the text of the line before its first colon, holding no colon |
| `Counter.GrepCount` | git_stats.py:46-48 | `int(parts[-1])`; it has no contract of its own, and `GrepLineRoundTrip` gives its meaning |
| `Counter.GrepLineRoundTrip` | git_stats.py:46-48 | in `"<commit>:<path>:<n>"` the commit is the first field and the count the last, even when the path holds colons |
| `Counter.StepLine` | git_stats.py:46-48 | one grep line adds its count to the named commit's count for `name` (0 when absent); date, other names and other commits are unchanged; it fails exactly on an unknown commit, a non-integer count, or the name `date` |
| `Counter.Tagged` | git_stats.py:45 | one task per grep line of an answer |
| `Counter.TaggedLines` | git_stats.py:43-45 | task `k` of a tagged answer is its line `k` under the pattern's name, so the lines keep their order |
| `Counter.BatchWork` | git_stats.py:43-45 | the grep lines of one batch, pattern by pattern in `find` order; it has no contract of its own, and `SearchBatch` is proved against it |
| `Counter.WorkOf` | git_stats.py:41-45 | the grep lines of a list of batches, batch by batch; it has no contract of its own, and `FindText` is proved against it |
| `Counter.Work` | git_stats.py:40-45 | every grep line in the order the nested loops meet it; it has no contract of its own, and `FindText` is proved against it |
| `Counter.Accumulate` | git_stats.py:45-48 | processing grep lines never adds or removes a sample |
| `Counter.AccumulateAppend` | git_stats.py:41-48 | processing two runs of lines one after the other equals processing their concatenation; a failure in the first ends the run |
| `Counter.AccumulateSums` | git_stats.py:48 | counts are summed, not overwritten: the final count is the old count (0 when absent) plus every count reported for that commit and name; the date is untouched |
| `Counter.UnknownCommitFails` | git_stats.py:47 | a grep line whose commit is not a sample makes the run fail |
| `Counter.TwoFilesSum` | git_stats.py:45-48 | two files of one commit reporting 2 and 3 matches give that commit the count 5 |
| `Counter.FailedAtIsErr` | git_stats.py:45-48 | a run that reaches a raising line with some records fails as a whole with that line's error |
| `Counter.FailedAtShift` | git_stats.py:41-48 | a failure inside one stretch of the lines, after a prefix that succeeded, is a failure of the whole run at the shifted position, with the same partial records |
| `Counter.AddGrepLine` | git_stats.py:46-48 | updates the dict in place as `StepLine` says, or fails as it says with the dict unchanged |
| `Counter.AddGrepLines` | git_stats.py:44-48 | processes one grep answer in place as `Accumulate` of its lines says; on failure the dict holds the increments of exactly the lines before the raising line, and that line fails from there |
| `Counter.SearchBatch` | git_stats.py:43-48 | processes every pattern for one batch in place, in `find` order; on failure the dict holds the increments of exactly the lines before the raising line, and that line fails from there |
| `Counter.FindText` | git_stats.py:38-49 | the records end as `Accumulate` of all grep lines in processing order, or the first error is returned, with the dict holding the increments of exactly the lines before the raising one; the key order never changes |
| `Series.Dates` | git_stats.py:61 | one date per sample |
| `Series.SeriesOf` | git_stats.py:63 | one point per sample |
| `Series.AllSeries` | git_stats.py:62-63 | one series per key of `find`, in order; it has no contract of its own, and `SeriesAligned` gives its meaning |
| `Series.SeriesAligned` | git_stats.py:61-63 | one series per pattern, each as long as the dates; point `k` is sample `k`'s count for the name, or 0 when absent |
| `Series.SeriesAreGrepTotals` | git_stats.py:61-63 | starting from the sampler's fresh records, point `k` of a series is the total git reported for sample `k` under that name, and the dates are unchanged |

## Left out

- Process I/O is not modelled: `os.chdir`, `os.popen`, the `git log` and `git grep` calls, and building and quoting their command lines (git_stats.py:19-23, 44). The history lines and the grep answers are inputs.
- The `--after`/`--before` filters and `argparse` (git_stats.py:10-15, 21-22) are not modelled. They only change what git returns.
- Local time conversion and the ISO calendar (`datetime.fromtimestamp`, `isocalendar()`, git_stats.py:28-30) are library calls. The bucket key is a parameter with values 1..53, and a record's date is kept as the unix time. The `OverflowError`, `OSError` or `ValueError` that `datetime.fromtimestamp` raises for an out-of-range timestamp is not modelled, because the key is total.
- Plotting and saving `counts.png` (git_stats.py:63-69) are rendering and file output. Only the lists handed to `plt.plot` are modelled.
- The prints (git_stats.py:50, 70) are output only. The progress print reads `commits[batch[-1]]["date"]`, which cannot fail, because a batch is never empty and its ids are keys of the dict.
- `line[:-1]` (git_stats.py:27, 46) assumes each line ends in a newline. Lines are taken as already stripped.
- `Text.ParseInt` accepts an optional sign followed by ASCII digits. Python's `int()` also accepts surrounding whitespace, `_` between digits and non-ASCII digits; these are not modelled.
- `Series.SeriesOf`: requires a pattern name other than `date`. For that name the program would plot the dates themselves, and the model's records keep the date apart from the counts.
- A derived series built as the sum of other series is not in the code. Its combined pattern `"Old total"` is one more grep pattern, so nothing of that kind is modelled.
- Python dict records are mutable objects; the model keeps them as values. Each record is created fresh (git_stats.py:34), so no two samples share one.
