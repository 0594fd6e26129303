/** The `run` command: dispatch a document, then poll the command's status
    until the exit test holds, printing a progress line for every snapshot
    that does not pass it and a summary (plus optional details) for the one
    that does. The service's answers to the successive polls are given as a
    finite sequence of snapshots, which stands for a prefix of the possibly
    unbounded run; the sleep between polls is left out.

    The loop itself is modelled as a trace (which snapshots printed a
    progress line, which one stopped the loop); the printed lines are then
    rendered from the trace. */
module Poll {
  import opened Wrappers
  import opened Ssm
  import opened Report
  import opened Seqs

  /** The two status tags under which the loop keeps waiting. Every other
      tag, known or not, counts as finished. */
  predicate StillRunning(status: string)
  {
    status == "Pending" || status == "InProgress"
  }

  /** The loop's exit test: a finished tag AND every target completed. */
  predicate Stops(c: Command)
  {
    !StillRunning(c.status) && c.targetCount == c.completedCount
  }

  /** `k` is the first snapshot that passes the exit test. */
  ghost predicate IsFirstStop(snaps: seq<Command>, k: nat)
  {
    k < |snaps| && Stops(snaps[k]) && forall j :: 0 <= j < k ==> !Stops(snaps[j])
  }

  /** What one run of the loop did: the snapshots, in order, for which it
      printed a progress line, and the index of the snapshot that ended it
      (none if none did). */
  datatype Trace = Trace(progressed: seq<Command>, stop: Option<nat>)

  function Shift(k: Option<nat>, n: nat): Option<nat>
  {
    match k
    case None => None
    case Some(i) => Some(i + n)
  }

  lemma ShiftTwice(k: Option<nat>, m: nat, n: nat)
    ensures Shift(Shift(k, m), n) == Shift(k, m + n)
  {
  }

  /** The `while True` loop of `run`, one snapshot per turn. It stops
      exactly at the first snapshot that passes the exit test and never
      earlier; every snapshot before that one prints a progress line,
      whatever its tag. With no stopping snapshot, every snapshot prints a
      progress line. */
  function PollLoop(snaps: seq<Command>): (r: Trace)
    ensures r.stop.Some? ==> IsFirstStop(snaps, r.stop.value)
    ensures r.stop.None? <==> forall j :: 0 <= j < |snaps| ==> !Stops(snaps[j])
    ensures r.stop.Some? ==> r.progressed == snaps[..r.stop.value]
    ensures r.stop.None? ==> r.progressed == snaps
    decreases |snaps|
  {
    if |snaps| == 0 then Trace([], None)
    else if Stops(snaps[0]) then Trace([], Some(0))
    else
      var rest := PollLoop(snaps[1..]);
      assert forall j :: 1 <= j < |snaps| ==> snaps[1..][j - 1] == snaps[j];
      if rest.stop.Some? then
        assert snaps[..rest.stop.value + 1] == [snaps[0]] + snaps[1..][..rest.stop.value];
        Trace([snaps[0]] + rest.progressed, Some(rest.stop.value + 1))
      else
        Trace([snaps[0]] + rest.progressed, None)
  }

  /** One turn of the loop on a snapshot that does not stop it. */
  lemma PollLoopStep(snaps: seq<Command>)
    requires |snaps| > 0 && !Stops(snaps[0])
    ensures PollLoop(snaps) == Trace([snaps[0]] + PollLoop(snaps[1..]).progressed, Shift(PollLoop(snaps[1..]).stop, 1))
  {
  }

  /** Snapshots that would come after the stopping one are never read, and
      while no snapshot has stopped the loop, polling further only extends
      the trace. */
  lemma {:induction false} PollExtends(s: seq<Command>, t: seq<Command>)
    ensures PollLoop(s).stop.Some? ==> PollLoop(s + t) == PollLoop(s)
    ensures PollLoop(s).stop.None? ==>
      PollLoop(s + t) == Trace(s + PollLoop(t).progressed, Shift(PollLoop(t).stop, |s|))
    decreases |s|
  {
    if |s| == 0 {
      assert s + t == t;
    } else {
      var u := s + t;
      var rest := s[1..];
      ConsAppend(s, t);
      if !Stops(s[0]) {
        PollExtends(rest, t);
        PollLoopStep(s);
        PollLoopStep(u);
        if PollLoop(rest).stop.None? {
          var pt := PollLoop(t);
          ConsAppend(s, pt.progressed);
          ShiftTwice(pt.stop, |rest|, 1);
          assert PollLoop(u).progressed == [s[0]] + (rest + pt.progressed);
          assert PollLoop(u).stop == Shift(pt.stop, |s|);
        }
      }
    }
  }

  /** The `-s` and `-o` flags: either one asks for the detail listing, and
      `-o` also asks for the plugin outputs. */
  datatype DetailRequest = DetailRequest(showStats: bool, showOutput: bool)
  {
    predicate Fetch()
    {
      showStats || showOutput
    }
  }

  /** One progress line per snapshot, in order. */
  function ProgressLines(snaps: seq<Command>): (r: seq<string>)
    ensures |r| == |snaps|
    ensures forall j :: 0 <= j < |snaps| ==> r[j] == ProgressLine(snaps[j])
  {
    seq(|snaps|, j requires 0 <= j < |snaps| => ProgressLine(snaps[j]))
  }

  /** What the loop prints when it stops on snapshot `c`: the summary block
      without a URL line, then the detail block. `res` is the service's
      answer to the one detail query, if it is made. */
  function FinalLines(c: Command, req: DetailRequest, res: seq<Invocation>): seq<string>
  {
    CommandStats(c, None) + Details(req.Fetch(), res, req.showOutput)
  }

  /** The printed lines of `run`, the index of the snapshot that stopped the
      loop and how many detail queries were made. */
  datatype RunResult = RunResult(lines: seq<string>, stop: Option<nat>, detailQueries: nat)

  /** `run`: the URL and the id of the dispatched command, then the loop's
      output. `commandId` and `url` are what the dispatch call and the
      console-URL helper of the service client returned; `res` is the
      service's answer to the detail query. Snapshots before the stopping
      one print one progress line each, the stopping one prints the summary
      and is the only place the detail query is made, when it is asked for. */
  function Run(commandId: string, url: string, snaps: seq<Command>, req: DetailRequest, res: seq<Invocation>): (r: RunResult)
    ensures r.stop == PollLoop(snaps).stop
    ensures PlacedAt(r.lines, 0, ["==> " + url, "Command ID: " + commandId])
    ensures r.stop.None? ==>
      && |r.lines| == 2 + |snaps|
      && PlacedAt(r.lines, 2, ProgressLines(snaps))
      && r.detailQueries == 0
    ensures r.stop.Some? ==>
      && |r.lines| == 2 + r.stop.value + |FinalLines(snaps[r.stop.value], req, res)|
      && PlacedAt(r.lines, 2, ProgressLines(snaps[..r.stop.value]))
      && PlacedAt(r.lines, 2 + r.stop.value, FinalLines(snaps[r.stop.value], req, res))
      && r.detailQueries == (if req.Fetch() then 1 else 0)
  {
    var t := PollLoop(snaps);
    var intro := ["==> " + url, "Command ID: " + commandId];
    var progress := ProgressLines(t.progressed);
    match t.stop
    case None =>
      Layout(intro, progress, []);
      RunResult(intro + progress + [], None, 0)
    case Some(k) =>
      var final := FinalLines(snaps[k], req, res);
      Layout(intro, progress, final);
      RunResult(intro + progress + final, Some(k), if req.Fetch() then 1 else 0)
  }

  /** The hazard of the exit test: a run in which targets never all report
      completion never stops, even under a finished tag such as `Failed`;
      each poll prints a progress line and no summary is ever printed. */
  lemma IncompleteNeverStops(commandId: string, url: string, snaps: seq<Command>, req: DetailRequest, res: seq<Invocation>)
    requires forall j :: 0 <= j < |snaps| ==> snaps[j].targetCount != snaps[j].completedCount
    ensures Run(commandId, url, snaps, req, res).stop == None
    ensures |Run(commandId, url, snaps, req, res).lines| == 2 + |snaps|
    ensures Run(commandId, url, snaps, req, res).detailQueries == 0
  {
  }

  /** The first `n` answers of an unbounded stream of polls. */
  function Prefix(stream: nat -> Command, n: nat): (r: seq<Command>)
    ensures |r| == n
    ensures forall j :: 0 <= j < n ==> r[j] == stream(j)
  {
    seq(n, j requires 0 <= j => stream(j))
  }

  /** For an unbounded stream of polls stuck at a finished tag with a
      completed count short of the target count, the loop has not stopped
      after any number of polls: every one printed a progress line. */
  lemma FailedButIncompletePollsForever(stream: nat -> Command, n: nat)
    requires forall j :: !StillRunning(stream(j).status) && stream(j).completedCount < stream(j).targetCount
    ensures PollLoop(Prefix(stream, n)) == Trace(Prefix(stream, n), None)
  {
  }

  /** Any tag other than the two waiting ones ends the loop once the counts
      agree, including tags outside the documented terminal set. */
  lemma UnknownTagStops(c: Command, rest: seq<Command>)
    requires c.status == "Cancelling" && c.targetCount == c.completedCount
    ensures PollLoop([c] + rest) == Trace([], Some(0))
  {
    assert ([c] + rest)[0] == c;
  }

  /** Three targets; the polls answer (Pending, 0/3), (InProgress, 2/3),
      (Success, 3/3): exactly two progress lines, then the summary, and a
      single detail query when details are asked for. */
  lemma ScenarioThreeTargets(req: DetailRequest, res: seq<Invocation>)
    ensures var snaps := ThreeTargets();
      var r := Run("c-1", "url", snaps, req, res);
      && r.stop == Some(2)
      && |r.lines| >= 4
      && r.lines[2] == ProgressLine(snaps[0])
      && r.lines[3] == ProgressLine(snaps[1])
      && |r.lines| == 4 + |FinalLines(snaps[2], req, res)|
      && PlacedAt(r.lines, 4, FinalLines(snaps[2], req, res))
      && r.detailQueries == (if req.Fetch() then 1 else 0)
  {
    var snaps := ThreeTargets();
    ThreeTargetsStop(snaps);
    ProgressAt("c-1", "url", snaps, req, res, 0);
    ProgressAt("c-1", "url", snaps, req, res, 1);
  }

  /** The three snapshots of the scenario above. */
  function ThreeTargets(): seq<Command>
  {
    [Command("c-1", "AWS-RunShellScript", "2017-01-01", "Pending", 3, 0, 0),
     Command("c-1", "AWS-RunShellScript", "2017-01-01", "InProgress", 3, 2, 0),
     Command("c-1", "AWS-RunShellScript", "2017-01-01", "Success", 3, 3, 0)]
  }

  lemma ThreeTargetsStop(snaps: seq<Command>)
    requires snaps == ThreeTargets()
    ensures PollLoop(snaps).stop == Some(2)
  {
    assert !Stops(snaps[0]) && !Stops(snaps[1]) && Stops(snaps[2]);
  }

  /** Line `2 + j` of `run` is the progress line of snapshot `j`, for every
      snapshot before the stopping one. */
  lemma ProgressAt(commandId: string, url: string, snaps: seq<Command>, req: DetailRequest, res: seq<Invocation>, j: nat)
    requires PollLoop(snaps).stop.Some? && j < PollLoop(snaps).stop.value
    ensures 2 + j < |Run(commandId, url, snaps, req, res).lines|
    ensures Run(commandId, url, snaps, req, res).lines[2 + j] == ProgressLine(snaps[j])
  {
    var r := Run(commandId, url, snaps, req, res);
    var k := PollLoop(snaps).stop.value;
    PlacedIndex(r.lines, 2, ProgressLines(snaps[..k]), j);
  }
}
