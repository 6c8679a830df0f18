# merge_bias_check — a Dafny model of the bias evaluation

`merge-check.go` scores merge commits by how well the merge result reflects both
sides. For a merge of parents *mine* and *theirs* with merge-base *base* it counts
the changed non-binary paths of four `git diff-tree -r` runs and compares what the
merge changed against one parent with what the other parent changed since the
merge-base. The score is the worse of the two deviations, from 0 (good) to 100.

This project models the logic between the git calls, with every git answer as an
input:

- `bias.dfy` (module `Bias`): `eval_bias` as `Deviation`, Go's truncating `/`
  written out, and the max-of-biases score `MergeScore`.
- `diff_tree.dfy` (module `DiffTree`): the counting loop of `get_diff_tree`. The
  output is trimmed and split on newlines, and entries ending in
  `.xls .doc .o .a .zip .rar` are skipped. The regular expression is written as a
  case-sensitive suffix test.
- `commit_check.dfy` (module `CommitCheck`): the parent scan of `do_commit_check`
  over the text `git cat-file -p` prints, filling a two-element array. Then the
  per-commit decision, and `CheckCommit`, which takes git's merge-base and
  diff-tree answers from a `Repo` value of two total functions. It returns the
  queries it made, so that "merge-base is never asked for a non-merge" is a
  postcondition. The decision and `CheckCommit` use the corrected octopus test
  (see "## Findings"); as written, a third parent line panics.
- `driver.dfy` (module `Driver`): building the commit list in `main` (trim, drop
  `#` lines, keep order and empty lines) and the `-j` clamp, on a `Flags` object.
- `text.dfy` (module `Text`): the Go library behaviour the above relies on.
  `strings.TrimSpace` uses `unicode.IsSpace`'s character set. `strings.Split`
  with a one-character separator comes with its round trip with `Join`. The
  tokens of a `bufio.Scanner` using `ScanLines` drop a final empty piece and one
  trailing `\r` per line.

Behaviour the model makes explicit:

- `eval_bias(1, 3)` is `|1 - 3| * 100 / 3 = 66`, while 33 is what `(2, 3)` and
  `(4, 3)` give (`DeviationExamples`).
- With a positive expected count, the special case for an observed 0 is already
  covered by the general formula (`DeviationFormula`).
- `strings.Split("", "\n")` yields one empty piece, so an empty diff counts as one
  change (`EmptyDiffCountsOne`).
- Every line of the commit object is scanned, message included. A message line
  that starts with `parent ` once trimmed is taken as a parent too
  (`ParentIdsOfLine` holds for any line).
- A commit-file line that is blank after trimming is kept as an empty commit id
  (`KeptCommitsOfLine`). `git cat-file -p` then fails on that empty id, and the
  whole run aborts at merge-check.go:33.

## Model

| member | source | states |
|---|---|---|
| `Bias.TruncDiv` | merge-check.go:106 | Go integer division: the magnitude is the floor of the magnitudes' quotient, and the sign is negative only when exactly one operand is |
| `Bias.Deviation` | merge-check.go:95-112 | at most 100; not negative for a non-negative expected count; 0 when the two counts are equal; with expected 0 it is 0 exactly when observed is 0, else 100; observed 0 against a non-zero expected gives 100 |
| `Bias.DeviationIsCappedPercentage` | merge-check.go:106-109 | for a positive expected count the result is 100 exactly when the observed count is off by at least the expected count; below 100 it is the relative error in percent rounded toward zero (`r*e <= d*100 < (r+1)*e`) |
| `Bias.DeviationFormula` | merge-check.go:103-109 | for a positive expected count the result equals `min(100, abs(observed - expected) * 100 / expected)`, the observed-0 branch included |
| `Bias.DeviationRange` | merge-check.go:95-112 | for non-negative counts the deviation lies in [0, 100] |
| `Bias.DeviationExamples` | merge-check.go:97-109 | (0,0)=0, (7,0)=100, (0,7)=100, (3,2)=50, (1,3)=66, (2,3)=33, (4,3)=33, (5,2)=100 |
| `Bias.Max` | merge-check.go:68-73 | the result is at least each argument and equal to one of them |
| `Bias.MergeScore` | merge-check.go:66-73 | the score is at least bias1 = Deviation(merge_theirs, base_mine) and bias2 = Deviation(merge_mine, base_theirs), equals one of them, lies in [0, 100], and is 0 exactly when both are 0 |
| `Bias.BalancedMergeScoresZero` | merge-check.go:66-73 | merge_theirs == base_mine and merge_mine == base_theirs give score 0 |
| `Bias.MergeScoreSymmetric` | merge-check.go:61-73 | exchanging the roles of the two parents leaves the score unchanged |
| `Text.TrimSpaceSpec` | merge-check.go:84 | `strings.TrimSpace` returns a slice of its input that neither starts nor ends with white space; everything cut off before and after it is white space |
| `Text.TrimSpaceOfTrimmed` | merge-check.go:38 | a string that neither starts nor ends with white space is left unchanged |
| `Text.TrimSpaceIdempotent` | merge-check.go:128 | trimming twice is trimming once |
| `Text.TrimLeftSpec` | merge-check.go:84 | the left trim removes exactly a run of leading white space |
| `Text.TrimRightSpec` | merge-check.go:84 | the right trim removes exactly a run of trailing white space |
| `Text.Split` | merge-check.go:86 | there is always at least one piece |
| `Text.SplitSpec` | merge-check.go:86 | one piece more than separators, no piece holds the separator, and the first piece runs up to the first separator |
| `Text.JoinSplit` | merge-check.go:86 | joining the pieces with the separator gives back the input |
| `Text.SplitJoin` | merge-check.go:86 | splitting the join of separator-free pieces gives back the pieces |
| `Text.SplitAfterPiece` | merge-check.go:40 | a separator-free piece followed by the separator comes out as the first piece |
| `Text.SplitNoSeparator` | merge-check.go:86 | a string without the separator splits into itself |
| `Text.DropCR` | merge-check.go:36-37 | at most one trailing carriage return is removed, and a trailing one always is |
| `Text.ScanLinesOfPieces` | merge-check.go:36-37 | when no kept newline piece ends in a carriage return, the scanner's tokens are exactly those pieces |
| `Text.ScanLinesOfJoin` | merge-check.go:36-37 | the scanner gives back newline-joined lines, provided none holds a newline or ends in a carriage return and the last is not empty |
| `Text.SplitOfTerminatedJoin` | merge-check.go:36-37 | newline-free lines, each ended by a newline, split into those lines followed by one empty piece |
| `Text.ScanLinesOfTerminatedJoin` | merge-check.go:36-37 | the scanner gives back the lines of a text in which every line ends with a newline, provided none holds a newline or ends in a carriage return; an empty last line is kept |
| `DiffTree.BinaryEntryExamples` | merge-check.go:17 | the binary test is a case-sensitive, exact suffix test: `util.o` is binary, `util.O` and `a.docx` are not |
| `DiffTree.Entries` | merge-check.go:84-86 | at least one entry; all-white-space output gives the single empty entry |
| `DiffTree.NonBinaryCountAppend` | merge-check.go:86-91 | the count over two lists in a row is the sum of their counts |
| `DiffTree.NonBinaryCountBounds` | merge-check.go:86-91 | the count never exceeds the number of entries; it equals that number exactly when no entry is binary and is 0 exactly when all are |
| `DiffTree.EmptyDiffCountsOne` | merge-check.go:84-91 | an empty or all-white-space diff counts as 1 |
| `DiffTree.DiffCountOfLines` | merge-check.go:84-91 | for an output made of given newline-free lines, the count is the number of those lines that are not binary |
| `DiffTree.CountChanges` | merge-check.go:79-93 | the loop returns the number of non-binary entries of the trimmed, newline-split output, at most the number of entries |
| `CommitCheck.ParentFieldSpec` | merge-check.go:40 | `strings.Split(line, " ")[1]` of a `parent ` line is the blank-free run right after the prefix, up to the next blank or the end of the line |
| `CommitCheck.ParentIdsAppend` | merge-check.go:37-47 | the parent ids of two blocks of lines are those of the first block followed by those of the second |
| `CommitCheck.ParentIdsOfLine` | merge-check.go:38-41 | a line adds its field after `parent ` if, once trimmed, it starts with `parent `, and nothing otherwise |
| `CommitCheck.ParentIdsOfPrefix` | merge-check.go:37-47 | the ids of a prefix of the lines are a prefix of the ids of all lines |
| `CommitCheck.ParentLinesGiveIds` | merge-check.go:37-41 | scanning `parent <id>` lines gives back those ids, in order |
| `CommitCheck.ScanParentsAsWritten` | merge-check.go:35-51 | as written: fewer than 2 parent lines give not-a-merge, exactly 2 give the two ids in order, more than 2 index past the two-element array (a panic), and octopus is never reported |
| `CommitCheck.ScanParents` | merge-check.go:35-51 | corrected: fewer than 2 parent lines give not-a-merge, more than 2 give octopus, exactly 2 give the two ids in order; never an out-of-range write |
| `CommitCheck.Decide` | merge-check.go:37-73 | octopus test corrected, see ## Findings: only two parents with a merge-base give a score; fewer parents give not-a-merge, more give octopus, a failed merge-base gives its diagnostic; a score is in [0, 100], at least each bias and equal to one of them |
| `CommitCheck.AskMergeBase` | merge-check.go:53-57 | the merge-base answer is `repo`'s for the two parents, and exactly that merge-base query is added to the trace |
| `CommitCheck.GetDiffTree` | merge-check.go:79-93 | the count is `DiffCount` of `repo`'s diff-tree output for the pair, and exactly that diff-tree query is added to the trace |
| `CommitCheck.CheckCommit` | merge-check.go:28-77 | octopus test corrected, see ## Findings; every git question goes through `AskMergeBase` or `GetDiffTree`: for not-a-merge and octopus, git is asked nothing more; for a failed merge-base, only merge-base was asked; otherwise merge-base, then the four diffs (base/mine, base/theirs, commit/mine, commit/theirs) are asked in that order, and the verdict is `Decide` on their counts |
| `Driver.KeptCommitsAppend` | merge-check.go:127-133 | the commit list of two blocks of lines is that of the first followed by that of the second (order is kept) |
| `Driver.KeptCommitsOfLine` | merge-check.go:128-132 | a comment line gives nothing, any other line gives its trimmed self, and a blank line gives the empty id |
| `Driver.KeptCommitsCount` | merge-check.go:127-133 | at most one commit per line, one for every line exactly when there is no comment line, and no kept commit starts with `#` |
| `Driver.ReadCommitList` | merge-check.go:126-133 | the loop builds the trimmed, comment-free, order-preserving list of the file's lines |
| `Driver.BuildCommitList` | merge-check.go:119-142 | with `-f` the list comes from the file; otherwise it is the positional arguments unchanged |
| `Driver.Flags.ClampJobs` | merge-check.go:151-153 | the job count becomes `JobLimit` of its old value |
| `Driver.JobLimit` | merge-check.go:151-153 | the limit is at least 1, equals the request whenever that is at least 1, and is otherwise 1 |

## Left out

- Running git (`exec.Command` at merge-check.go:31, 53, 80). Its outputs are inputs: the `cat-file` text, the `Repo` merge-base function (`None` for a failure) and the diff-tree function.
- The `log.Fatal` aborts (merge-check.go:31-33, 80-82) when `git cat-file` or `git diff-tree` fails, that is cannot start or exits non-zero, for instance for an unknown or empty commit id, and when the commit file cannot be opened or read. They end the whole process and carry no data.
- Goroutines, channels, the `sync.WaitGroup` and the `job_queue` semaphore (merge-check.go:22-26, 155-198). The model checks one commit at a time. So it does not capture that the early returns at lines 44, 50 and 56 skip the `<-job_queue` at line 76. A failed commit therefore never frees its slot, and after `-j` failures the dispatcher blocks.
- Flag parsing, `os.Chdir`, and the printing of the header and of the result and diagnostic lines, `%-40s` padding included. These are I/O and library formatting; the model returns a `Verdict` instead of a formatted line.
- Deviation: the difference is taken exactly on unbounded integers. The source converts to `float64`, applies `math.Abs` and multiplies by 100 in a 64-bit `int`; this agrees for counts below 2^53 and as long as the difference times 100 stays below 2^63.
- ScanParents: `bufio.Scanner`'s 64 KiB token limit is not modelled. A longer line stops the scan early in the source.
- Text.TrimSpaceSpec: strings are sequences of Unicode scalar values. The source trims UTF-8 bytes, where invalid bytes are never white space.
- The `count > 2` test at merge-check.go:42 is not written in `ScanParentsAsWritten`, because it cannot be reached there: the write at line 40 panics first.

## Findings

| source | as written | input that shows it | evidently intended | confidence | as-written member | corrected member |
|---|---|---|---|---|---|---|
| merge-check.go:39-45 | the third `parent ` line is stored in `parents[2]` of a `[2]string` before the `count > 2` test runs, so Go panics with an index out of range, which ends the whole run; the octopus diagnostic is unreachable | a commit object whose lines are `ParentLines(["a", "b", "c"])` (`ParentLinesGiveIds` shows it has three parent ids) | report "is a octopus commit" on the diagnostic stream and go on with the other commits | high, not executed | `CommitCheck.ScanParentsAsWritten` | `CommitCheck.ScanParents`, `CommitCheck.Decide`, `CommitCheck.CheckCommit` |
