/** The `show` and `ls` commands: one-shot summaries of commands already
    dispatched, each optionally followed by its per-instance listing. */
module Listing {
  import opened Wrappers
  import opened Ssm
  import opened Report
  import opened Seqs
  import Poll

  /** Printed lines and how many detail queries were made. */
  datatype Output = Output(lines: seq<string>, detailQueries: nat)

  /** `show`: the summary of command `c` headed by its console URL, then the
      detail block. The detail query is made exactly when `-s` or `-o` is
      given; the block is left out when the query returns no invocations. */
  function Show(c: Command, url: string, req: Poll.DetailRequest, res: seq<Invocation>): (r: Output)
    ensures r.detailQueries == (if req.Fetch() then 1 else 0)
    ensures |r.lines| == (if url != "" then 4 else 3)
      + (if req.Fetch() && |res| != 0 then 1 + |res| + (if req.showOutput then PluginCount(res) else 0) else 0)
    ensures r.lines[..|CommandStats(c, Some(url))|] == CommandStats(c, Some(url))
    ensures req.Fetch() && |res| != 0 ==> r.lines[|CommandStats(c, Some(url))|] == ""
    ensures req.Fetch() && |res| != 0 ==>
      r.lines[|CommandStats(c, Some(url))| + 1..] == InstanceLines(res, req.showOutput)
  {
    var stats := CommandStats(c, Some(url));
    var details := Details(req.Fetch(), res, req.showOutput);
    Layout(stats, details, []);
    assert stats + details + [] == stats + details;
    Output(stats + details, if req.Fetch() then 1 else 0)
  }

  /** `show` on a command that already ended `Failed` on all five targets,
      two of them with errors, under any console URL: one summary whose
      last line reads the counters as such, no progress line, and the
      detail query only when asked for. */
  lemma ScenarioFailedCommand(url: string, req: Poll.DetailRequest)
    ensures var c := Command("c-2", "AWS-RunShellScript", "2017-01-01", "Failed", 5, 5, 2);
      var r := Show(c, url, req, []);
      && r.lines == CommandStats(c, Some(url))
      && |r.lines| == (if url != "" then 4 else 3)
      && r.lines[|r.lines| - 1] == Indent("Targets: 5 Completed: 5 Errors: 2")
      && r.detailQueries == (if req.Fetch() then 1 else 0)
  {
    var c := Command("c-2", "AWS-RunShellScript", "2017-01-01", "Failed", 5, 5, 2);
    FailedCounts(c);
    CountsLine(c, Some(url));
  }

  lemma FailedCounts(c: Command)
    requires c.targetCount == 5 && c.completedCount == 5 && c.errorCount == 2
    ensures Counts(c) == "Targets: 5 Completed: 5 Errors: 2"
  {
    Text.SingleDigit(5);
    Text.SingleDigit(2);
  }

  /** The last summary line is the indented counters. */
  lemma CountsLine(c: Command, url: Option<string>)
    ensures CommandStats(c, url)[|CommandStats(c, url)| - 1] == Indent(Counts(c))
  {
    var line := CommandStats(c, url)[|CommandStats(c, url)| - 1];
    assert line == line[..Lpad] + line[Lpad..];
  }

  /** One command of the listing, with what the service answers about it:
      its console URL and its invocations. */
  datatype Entry = Entry(command: Command, url: string, invocations: seq<Invocation>)

  /** The block `ls` prints for one command: the summary, with the URL line
      only under `-u`, then under `-s` the instance listing (without plugin
      outputs) between blank lines, unless there are no invocations. */
  function EntryLines(e: Entry, showUrl: bool, showStats: bool): (r: seq<string>)
    ensures !showStats ==> r == CommandStats(e.command, if showUrl then Some(e.url) else None)
    ensures |r| == |CommandStats(e.command, if showUrl then Some(e.url) else None)|
      + (if showStats && |e.invocations| != 0 then 2 + |e.invocations| else 0)
    ensures r[..|CommandStats(e.command, if showUrl then Some(e.url) else None)|]
      == CommandStats(e.command, if showUrl then Some(e.url) else None)
    ensures showStats && |e.invocations| != 0 ==>
      r[|CommandStats(e.command, if showUrl then Some(e.url) else None)|..]
      == [""] + InstanceLines(e.invocations, false) + [""]
  {
    CommandStats(e.command, if showUrl then Some(e.url) else None)
    + (if showStats && |e.invocations| != 0
       then [""] + InstanceLines(e.invocations, false) + [""]
       else [])
  }

  /** What `ls` printed: its lines, how many commands it summarised and how
      many detail queries it made. */
  datatype LsOutput = LsOutput(lines: seq<string>, summaries: nat, detailQueries: nat)

  /** `ls`: the first `n` commands of the service's listing (Python's
      `[:n]`, so a negative `n` drops that many from the end), one block
      each, in order; one detail query per command under `-s`. */
  function Ls(entries: seq<Entry>, n: int, showUrl: bool, showStats: bool): (r: LsOutput)
    ensures n >= 0 ==> r.summaries == Min(n, |entries|)
    ensures n < 0 ==> r.summaries == if |entries| + n > 0 then |entries| + n else 0
    ensures r.detailQueries == if showStats then r.summaries else 0
    ensures r.summaries == 0 ==> r.lines == []
    ensures r.summaries <= |entries|
    ensures r.lines == Flatten(LsBlocks(entries[..r.summaries], showUrl, showStats))
  {
    var shown := SliceTo(entries, n);
    assert shown == entries[..|shown|];
    LsOutput(Flatten(LsBlocks(shown, showUrl, showStats)), |shown|, if showStats then |shown| else 0)
  }

  /** One block per command, in order. */
  function LsBlocks(entries: seq<Entry>, showUrl: bool, showStats: bool): (blocks: seq<seq<string>>)
    ensures |blocks| == |entries|
    ensures forall j :: 0 <= j < |entries| ==> blocks[j] == EntryLines(entries[j], showUrl, showStats)
  {
    seq(|entries|, j requires 0 <= j < |entries| => EntryLines(entries[j], showUrl, showStats))
  }

  /** With or without `-s`, the block of the `i`-th command listed comes
      right after the blocks of the commands before it. */
  lemma LsBlock(entries: seq<Entry>, n: int, showUrl: bool, showStats: bool, i: nat)
    requires i < Ls(entries, n, showUrl, showStats).summaries
    ensures PlacedAt(Ls(entries, n, showUrl, showStats).lines,
      |Flatten(LsBlocks(entries[..i], showUrl, showStats))|,
      EntryLines(entries[i], showUrl, showStats))
  {
    var shown := SliceTo(entries, n);
    var blocks := LsBlocks(shown, showUrl, showStats);
    FlattenPlaced(blocks, i);
    assert shown[i] == entries[i];
    assert blocks[..i] == LsBlocks(entries[..i], showUrl, showStats);
  }

  /** Without `-s` every block is the bare summary, so the `i`-th summary of
      the listing is that of the `i`-th command and sits at a fixed stride:
      three lines, or four when URLs are printed and all are non-empty. */
  lemma LsLayout(entries: seq<Entry>, n: int, showUrl: bool, i: nat)
    requires showUrl ==> forall j :: 0 <= j < |entries| ==> entries[j].url != ""
    requires i < Ls(entries, n, showUrl, false).summaries
    ensures var m := if showUrl then 4 else 3;
      var lines := Ls(entries, n, showUrl, false).lines;
      && |lines| == m * Ls(entries, n, showUrl, false).summaries
      && PlacedAt(lines, m * i, CommandStats(entries[i].command, if showUrl then Some(entries[i].url) else None))
  {
    var m := if showUrl then 4 else 3;
    var shown := SliceTo(entries, n);
    var blocks := LsBlocks(shown, showUrl, false);
    forall j | 0 <= j < |blocks|
      ensures |blocks[j]| == m
    {
      assert shown[j] == entries[j];
      var url: Option<string> := if showUrl then Some(entries[j].url) else None;
      assert blocks[j] == CommandStats(entries[j].command, url);
      assert UrlShown(url) == showUrl;
    }
    FlattenUniform(blocks, m, i);
    assert shown[i] == entries[i];
  }
}
