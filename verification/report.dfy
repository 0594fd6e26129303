/** The line formats shared by the `run`, `show` and `ls` commands: the
    right-justified status tag, the summary block of a command, the
    per-instance listing and the guard around the detail listing. */
module Report {
  import opened Wrappers
  import opened Text
  import opened Ssm
  import opened Seqs

  /** Width of the status-tag field and of the left margin of indented lines. */
  const Lpad: nat := 13

  /** `'%13s' % ('[' + status + '] ')`: the bracketed tag, blank-padded on
      the left to the field width and never cut short. */
  function Tag(status: string): (r: string)
    ensures |r| == Max(Lpad, |status| + 3)
    ensures r[|r| - (|status| + 3)..] == "[" + status + "] "
    ensures forall i :: 0 <= i < |r| - (|status| + 3) ==> r[i] == ' '
  {
    RJust("[" + status + "] ", Lpad)
  }

  /** The three counters of a snapshot, as both the progress line and the
      summary print them. */
  function Counts(c: Command): string
  {
    "Targets: " + CountsTail(c)
  }

  function CountsTail(c: Command): string
  {
    IntToString(c.targetCount)
    + " Completed: " + IntToString(c.completedCount)
    + " Errors: " + IntToString(c.errorCount)
  }

  /** The line the poll loop prints for a snapshot that does not stop it. */
  function ProgressLine(c: Command): string
  {
    Tag(c.status) + Counts(c)
  }

  /** The columns of a progress line: the bracketed status ends where the
      counters begin, at column `Lpad` for every status of up to ten
      characters (so the counters of successive polls line up), and further
      right for longer ones, which are never cut. */
  lemma ProgressColumns(c: Command)
    ensures PlacedAt(ProgressLine(c), Max(Lpad, |c.status| + 3) - (|c.status| + 3), "[" + c.status + "] ")
    ensures PlacedAt(ProgressLine(c), Max(Lpad, |c.status| + 3), Counts(c))
    ensures |c.status| <= 10 ==> PlacedAt(ProgressLine(c), Lpad, Counts(c))
  {
    var tag := Tag(c.status);
    var x := "[" + c.status + "] ";
    assert tag[|tag| - |x|..|tag| - |x| + |x|] == x;
    PlacedExtend(tag, Counts(c), |tag| - |x|, x);
    assert Counts(c)[0..|Counts(c)|] == Counts(c);
    PlacedBehind(tag, Counts(c), 0, Counts(c));
  }

  /** Python truthiness of the optional URL argument: neither `None` nor
      the empty string prints a URL line. */
  predicate UrlShown(url: Option<string>)
  {
    url.Some? && url.value != ""
  }

  /** `' ' * lpad + s` */
  function Indent(s: string): (r: string)
    ensures |r| == Lpad + |s|
    ensures r[..Lpad] == Spaces(Lpad) && r[Lpad..] == s
  {
    Spaces(Lpad) + s
  }

  /** `command_stats`: an optional URL line, then the tag with the command id
      and document name, then the request time and the counters, each
      indented by exactly `Lpad` blanks. The command id printed is the
      record's own. */
  function CommandStats(c: Command, url: Option<string>): (r: seq<string>)
    ensures |r| == if UrlShown(url) then 4 else 3
    ensures UrlShown(url) ==> r[0] == "==> " + url.value
    ensures r[|r| - 3] == Tag(c.status) + c.commandId + " " + c.documentName
    ensures |r[|r| - 2]| >= Lpad && |r[|r| - 1]| > Lpad
    ensures r[|r| - 2][..Lpad] == Spaces(Lpad) && r[|r| - 2][Lpad..] == c.requestedDateTime
    ensures r[|r| - 1][..Lpad] == Spaces(Lpad) && r[|r| - 1][Lpad..] == Counts(c)
    ensures r[|r| - 1][Lpad] == 'T'
  {
    var counts := Indent(Counts(c));
    assert counts[Lpad] == ("Targets: " + CountsTail(c))[0] == 'T';
    var block := [Tag(c.status) + c.commandId + " " + c.documentName, Indent(c.requestedDateTime), counts];
    var r := if UrlShown(url) then ["==> " + url.value] + block else block;
    assert r[|r| - 3..] == block;
    r
  }

  /** The marker line of one invocation: margin, `***`, status, instance id
      and instance name, separated by single blanks. */
  function InstanceHeader(inv: Invocation): (r: string)
    ensures r == Spaces(Lpad) + "*** " + inv.status + " " + inv.instanceId + " " + inv.instanceName
  {
    var last := [inv.instanceName];
    var two := [inv.instanceId] + last;
    var three := [inv.status] + two;
    var four := ["***"] + three;
    assert four == ["***", inv.status, inv.instanceId, inv.instanceName];
    assert four[1..] == three && three[1..] == two && two[1..] == last;
    assert Join(" ", last) == inv.instanceName;
    assert Join(" ", two) == inv.instanceId + " " + inv.instanceName;
    assert Join(" ", three) == inv.status + " " + inv.instanceId + " " + inv.instanceName;
    assert Join(" ", four) == "*** " + inv.status + " " + inv.instanceId + " " + inv.instanceName;
    Indent(Join(" ", ["***", inv.status, inv.instanceId, inv.instanceName]))
  }

  /** The captured plugin outputs of one invocation, in order. */
  function Outputs(inv: Invocation): (r: seq<string>)
    ensures |r| == |inv.plugins|
    ensures forall m :: 0 <= m < |r| ==> r[m] == inv.plugins[m].output
  {
    seq(|inv.plugins|, m requires 0 <= m < |inv.plugins| => inv.plugins[m].output)
  }

  /** The lines printed for one invocation: its marker line, followed by
      its plugin outputs when `showOutput`. */
  function Block(inv: Invocation, showOutput: bool): (r: seq<string>)
    ensures |r| == 1 + (if showOutput then |inv.plugins| else 0)
    ensures r[0] == InstanceHeader(inv)
  {
    [InstanceHeader(inv)] + (if showOutput then Outputs(inv) else [])
  }

  /** `print_command_output_per_instance`: a marker line per invocation, in
      input order, each followed by its plugin outputs when `showOutput`. */
  function InstanceLines(invs: seq<Invocation>, showOutput: bool): (r: seq<string>)
    ensures |r| == |invs| + (if showOutput then PluginCount(invs) else 0)
    ensures !showOutput ==> forall i :: 0 <= i < |invs| ==> r[i] == InstanceHeader(invs[i])
    decreases |invs|
  {
    if |invs| == 0 then []
    else Block(invs[0], showOutput) + InstanceLines(invs[1..], showOutput)
  }

  /** Where the marker line of invocation `i` lands in the listing. */
  function HeaderPos(invs: seq<Invocation>, showOutput: bool, i: nat): nat
    requires i <= |invs|
  {
    i + (if showOutput then PluginCount(invs[..i]) else 0)
  }

  /** The listing's layout: invocation `i`'s block (its marker line, then
      with `showOutput` its plugin outputs in order) sits right after the
      blocks of the invocations before it. */
  lemma {:induction false} InstanceLinesLayout(invs: seq<Invocation>, showOutput: bool, i: nat)
    requires i < |invs|
    ensures PlacedAt(InstanceLines(invs, showOutput), HeaderPos(invs, showOutput, i), Block(invs[i], showOutput))
  {
    var head := Block(invs[0], showOutput);
    var tail := InstanceLines(invs[1..], showOutput);
    assert InstanceLines(invs, showOutput) == head + tail;
    if i == 0 {
      assert invs[..0] == [];
      PlacedFront(head, tail);
    } else {
      var rest := invs[1..];
      InstanceLinesLayout(rest, showOutput, i - 1);
      assert rest[i - 1] == invs[i];
      assert invs[..i][1..] == rest[..i - 1];
      assert invs[..i][0] == invs[0];
      var at := HeaderPos(rest, showOutput, i - 1);
      assert HeaderPos(invs, showOutput, i) == |head| + at;
      PlacedBehind(head, tail, at, Block(invs[i], showOutput));
    }
  }

  /** The detail block printed after a summary by `run` and `show`: it is
      fetched only when asked for and left out entirely when the service
      reports no invocations; otherwise a blank line precedes the listing. */
  function Details(fetch: bool, res: seq<Invocation>, showOutput: bool): (r: seq<string>)
    ensures r == [] <==> !fetch || |res| == 0
    ensures r != [] ==> r[0] == "" && r[1..] == InstanceLines(res, showOutput)
  {
    if fetch && |res| != 0 then [""] + InstanceLines(res, showOutput) else []
  }
}
