# ssmrun: a verified model of the command-line core

`ssmrun` is a small command line around a cloud run-command service. It can
send a document to the hosts matching a tag (`run`), show the status of a
command (`show`), list recent commands (`ls`) and list the document catalog
(`docs`). This project models the three pieces of real logic in
`ssmrun/cli.py` as pure Dafny functions that return the printed lines
instead of printing them:

* the poll loop of `run`: a recursive function over a finite sequence of
  status snapshots. The sequence stands for a prefix of a possibly endless
  run. The model returns which snapshots printed a progress line, which
  snapshot stopped the loop (if any), and the lines printed;
* the line formats: the `'%13s'` status tag, the `command_stats` summary
  block, the per-instance listing, the guards around the detail query, and
  the `[:n]` cut of `ls`;
* the catalog table of `docs`: building rows from flags, the platform
  abbreviation, the `reduce` over the transposed rows that finds each
  column's longest cell, and the left-justified rendering. Rendering looks
  a cell's width up at `pad[d.index(cell)]`.

The service client is outside the model. Its answers are inputs: the
snapshots, the invocation lists, the document list and the console URLs.

Modules, one per file: `Wrappers` (Option), `Text` (Python string
operations: `' ' * n`, `%Ns`, `ljust`, `join`, `str` of an integer), `Seqs`
(concatenation layout, flattening, Python's `xs[:n]`), `Ssm` (the service's
records), `Report` (line formats), `Poll` (`run`), `Listing` (`show`, `ls`),
`Catalog` (`docs`).

Where the documented intent and the code disagree, the model follows the code:

* The loop's exit test treats every status except `Pending` and
  `InProgress` as finished. It stops only when that holds AND the target
  count equals the completed count. There is no fixed terminal set.
* A finished status with incomplete counts prints a progress line and the
  loop goes on. This is kept as written. `IncompleteNeverStops` and
  `FailedButIncompletePollsForever` state the consequence.
* Mismatched row widths do not raise a formatting error. `zip` cuts to the
  shortest row, and the lookup `pad[d.index(i)]` fails only when it falls
  outside `pad`. The model states that demand as a precondition
  (`TableFits`). Rows built by `docs` always meet it.
* A cell equal to an earlier cell of its row is padded to the earlier
  cell's column width, not its own (`RepeatedCellBorrowsWidth`). The
  promise "each cell gets its own column's width" holds only for rows with
  pairwise distinct cells (`DistinctRowOwnWidth`, `ColumnsAligned`).

## Model

| member | source | states |
|---|---|---|
| Report.Tag | ssmrun/cli.py:155 | the tag field is `max(13, len(status)+3)` long: blanks on the left, then `[status] ` unchanged, never truncated |
| Text.LJust | ssmrun/cli.py:121 | `ljust` keeps the string unchanged at the front and pads with blanks to `max(width, len)` |
| Text.IntToString | ssmrun/cli.py:159-161 | `str` of a count is the shortest decimal numeral of its value (no leading zero except for `0` itself), with a minus sign when negative |
| Text.IntToStringRoundTrip | ssmrun/cli.py:159-161 | reading the printed count back as a decimal numeral, with its sign, gives the count again |
| Text.JoinPiece | ssmrun/cli.py:166 | in a join, piece `k` appears unchanged at the offset given by the earlier pieces' lengths and separators |
| Report.CommandStats | ssmrun/cli.py:150-161 | 3 lines, or 4 when a non-empty URL is given, with the URL line first; the tag line carries the record's own command id and document name; the last two lines start with exactly 13 blanks followed by the request time and by `Targets: …` |
| Report.ProgressColumns | ssmrun/cli.py:50-53 | a progress line is the bracketed status right-aligned to end at column `max(13, len(status)+3)`, followed there by the counters; for statuses of up to ten characters the counters always start at column 13 |
| Report.Details | ssmrun/cli.py:42-47 | the detail block is empty exactly when no query is asked for (`-s`/`-o` unset) or the service returns no invocations; otherwise it is a blank line followed by the instance listing |
| Report.InstanceHeader | ssmrun/cli.py:166 | the marker line is 13 blanks, `*** `, then status, instance id and instance name separated by single blanks |
| Report.InstanceLines | ssmrun/cli.py:164-169 | one marker line per invocation in input order; the line count is the number of invocations, plus the number of plugin outputs when outputs are shown |
| Report.InstanceLinesLayout | ssmrun/cli.py:164-169 | invocation `i`'s block (its marker line, then under `-o` its plugin outputs in order) starts right after the blocks of all earlier invocations, at position `i` plus their plugin count |
| Poll.PollLoop | ssmrun/cli.py:35-53 | the loop stops at the first snapshot whose status is neither Pending nor InProgress and whose target and completed counts agree, never earlier; it stops at none exactly when no snapshot passes; the snapshots that print progress are exactly those before the stop, or all of them |
| Poll.PollExtends | ssmrun/cli.py:35-48 | snapshots after the stopping one are never read; before a stop, further polls only extend the trace |
| Poll.Run | ssmrun/cli.py:32-53 | URL and command id lines first; then one progress line per snapshot before the stop, then the summary and detail block of the stopping snapshot; the detail query is made once, only on a stop and only under `-s` or `-o`; with no stop there is one progress line per snapshot and no summary |
| Poll.IncompleteNeverStops | ssmrun/cli.py:39-53 | when completed never equals target, whatever the status, the loop never stops, prints one progress line per poll and never queries details |
| Poll.FailedButIncompletePollsForever | ssmrun/cli.py:35-53 | for an endless stream stuck at a finished status with incomplete counts, every prefix of any length is polled without stopping |
| Poll.UnknownTagStops | ssmrun/cli.py:39-40 | a status outside the documented ones, such as `Cancelling`, stops the loop once the counts agree |
| Poll.ScenarioThreeTargets | ssmrun/cli.py:35-53 | polls (Pending 0/3), (InProgress 2/3), (Success 3/3) give exactly two progress lines, then the summary, and one detail query when asked for |
| Listing.Show | ssmrun/cli.py:63-75 | `show` prints the summary with its URL; when details are asked for and the service returns invocations, a blank line and then exactly the instance listing (with outputs under `-o`) follow, otherwise nothing does; it queries details exactly when `-s` or `-o` is set |
| Listing.ScenarioFailedCommand | ssmrun/cli.py:66-75 | a command already `Failed` on 5 of 5 targets with 2 errors gives, under any console URL, just the summary (4 lines, or 3 when the URL is empty) whose last line reads `Targets: 5 Completed: 5 Errors: 2`, and no progress line |
| Listing.EntryLines | ssmrun/cli.py:136-147 | an `ls` block starts with the summary, with the URL line only under `-u`; under `-s` and when there are invocations it continues with a blank line, the instance listing without outputs and a blank line, otherwise it ends there |
| Listing.Ls | ssmrun/cli.py:131-147 | `ls` summarises `min(n, len)` commands for `n >= 0` and `max(0, len+n)` for negative `n`; its output is exactly the blocks of the first that many commands, one after the other, and nothing more; it makes one detail query per summary under `-s`, none otherwise |
| Listing.LsBlock | ssmrun/cli.py:135-147 | with or without `-s`, the block of the `i`-th command listed sits right after the blocks of the commands before it |
| Listing.LsLayout | ssmrun/cli.py:135-140 | without `-s` the `i`-th block, at stride 3 (or 4 with URLs), is the summary of the `i`-th command |
| Seqs.SliceTo | ssmrun/cli.py:135 | Python's `xs[:n]` is a prefix of length `min(n, len)` for `n >= 0`, and `max(0, len+n)` otherwise |
| Catalog.PlatformCell | ssmrun/cli.py:108-110 | the platform cell has one character per platform: the first character of each name, in order |
| Catalog.PlatformCellExamples | ssmrun/cli.py:110 | `["Windows","Linux"]` gives `"WL"` and `[]` gives `""` |
| Catalog.Chosen | ssmrun/cli.py:105-107 | an attribute gets a column exactly when its flag is set or `--long-list` is given; with a walk that repeats no attribute, none gets two |
| Catalog.ChosenConcat | ssmrun/cli.py:105-107 | the columns keep walking order: choosing over two stretches of the walk gives the two choices one after the other |
| Catalog.ChosenSingle | ssmrun/cli.py:107 | a single attribute is kept exactly when its flag is set or `--long-list` is given |
| Catalog.ChosenCount | ssmrun/cli.py:103-113 | when each attribute is walked once, a row has 5 attribute cells under `--long-list`, otherwise exactly one per set flag |
| Catalog.Row | ssmrun/cli.py:104-113 | a row is the document name followed by the cell of each chosen attribute, in order |
| Catalog.Rows | ssmrun/cli.py:102-113 | one row per document, in catalog order, row `i` being document `i`'s row; all rows have the same width |
| Catalog.MinLen | ssmrun/cli.py:118 | `zip(*rows)` yields as many columns as the shortest row has cells |
| Catalog.Longest | ssmrun/cli.py:117 | the `reduce` returns a cell of the column that no other cell of the column is longer than |
| Catalog.Pad | ssmrun/cli.py:117-118 | `pad[j]` is as long as the longest cell of column `j` |
| Catalog.IndexOf | ssmrun/cli.py:121 | `d.index(x)` is the first position holding `x` |
| Catalog.RenderCells | ssmrun/cli.py:121 | each cell of a row is left-justified to the width of the `pad` entry at the first position holding an equal cell |
| Catalog.RenderTable | ssmrun/cli.py:117-122 | one printed line per row, in order, all rendered against the same `pad` computed once over the whole table |
| Catalog.CellNeverTruncated | ssmrun/cli.py:121 | each rendered cell keeps its text and is padded with blanks to `max(len(cell), width of pad[d.index(cell)])` |
| Catalog.DistinctRowOwnWidth | ssmrun/cli.py:117-121 | in a row with pairwise distinct cells, cell `k` is padded to exactly the longest cell of column `k` |
| Catalog.ColumnsAligned | ssmrun/cli.py:117-122 | in every row with pairwise distinct cells, cell `k` starts at the same offset, fixed by the earlier column widths and single blanks |
| Catalog.RepeatedCellBorrowsWidth | ssmrun/cli.py:121 | a repeated value in a row is padded to its first occurrence's column width (4), not its own column's (1) |
| Catalog.Docs | ssmrun/cli.py:100-122 | `docs` prints `total N`, then for each document, in order, its row rendered against the table's column widths; an empty catalog prints only `total 0` |
| Catalog.DocsAligned | ssmrun/cli.py:100-122 | in the printed line of a document whose cells are pairwise distinct, cell `k` starts at the offset fixed by the widths of the earlier columns and single blanks |
| Catalog.OwnerColumnPadding | ssmrun/cli.py:102-121 | with `--owner`, owners of 20 and 4 characters: the shorter one is followed by 16 blanks |

## Left out

- The click wiring is not modelled: decorators, option parsing, `main` and `add_command`. This includes the two options that both claim `-t` (`--doc-type`, `--schema`); the model takes the set of raised flags as given.
- The service client (`Ssm`, its `send_command_to_targets`, `list_commands`, `list_command_invocations`, `list_documents` and `command_url`) is not part of this model. Its answers are parameters. `show` takes the first entry of its answer as given, and `run` takes one snapshot per poll, so the index error that `out[0]` raises on an empty answer (in `show`, and in `run` on any poll, mid-loop) is not modelled.
- `time.sleep(interval)` and the float interval are left out: time does not change what is printed. `sys.tracebacklimit` is left out too.
- `print` is modelled as returning lines. A plugin output that itself holds line breaks counts as one printed item.
- Python 2's soft space between the cells of `print cell,` is modelled as a single blank. Python omits it after a cell that ends in a tab or another non-blank whitespace character, and the model does not.
- The walking order of the flag dictionary (`param_map`) is unspecified in Python 2. It is a parameter (`order`); the row-width lemma assumes it lists every attribute once.
- `RequestedDateTime` is given as already-rendered text.
- The unused `ssm-docutment` argument of `docs` and the unused `commandId` parameter of `command_stats` have nothing to model.
- Catalog.PlatformCell: requires every platform name to be non-empty, because `x[0]` raises on an empty name. The model does not describe that error.
- Catalog.Longest: states the length of the result, not which of several equally long cells the `reduce` keeps (the last one). Only the length is used.
