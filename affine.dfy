/** The AFFiNE server router's reading of Docker's output: the container
    list of `docker compose ps --format json` and the resource table of
    `docker stats`. Running the commands is not part of this model; their
    standard output is a parameter. */
module Affine {
  import opened Wrappers
  import opened Seqs
  import opened Strings

  /** `line.trim()` is truthy. */
  predicate NotBlank(line: string) {
    !IsBlank(line)
  }

  /** The non-blank lines of a command's trimmed output. */
  function OutputLines(stdout: string): (r: seq<string>)
    ensures forall i :: 0 <= i < |r| ==> NotBlank(r[i])
  {
    Filter(Split(Trim(stdout), '\n'), NotBlank)
  }

  // ---------------------------------------------------------------------
  // Status
  // ---------------------------------------------------------------------

  /** One parsed line of `docker compose ps --format json`; `None` is a
      missing property. */
  datatype PsEntry = PsEntry(service: Option<string>, state: Option<string>, status: Option<string>)

  /** What the status answer lists per container. */
  datatype ContainerSummary = ContainerSummary(name: Option<string>, state: Option<string>, status: Option<string>)

  datatype StatusReply = StatusReply(running: bool, containers: seq<ContainerSummary>,
                                     totalContainers: nat, runningContainers: nat)

  /** Every line parsed with `parse` (`JSON.parse`, `None` where it throws);
      `None` as soon as one line fails. */
  function ParseAll(lines: seq<string>, parse: string -> Option<PsEntry>): (r: Option<seq<PsEntry>>)
    ensures r.Some? <==> forall i :: 0 <= i < |lines| ==> parse(lines[i]).Some?
    ensures r.Some? ==> |r.value| == |lines| && forall i :: 0 <= i < |lines| ==> parse(lines[i]) == Some(r.value[i])
  {
    if lines == [] then Some([])
    else
      match parse(lines[0])
      case None => None
      case Some(e) =>
        var rest := ParseAll(lines[1..], parse);
        assert forall i :: 1 <= i < |lines| ==> lines[i] == lines[1..][i - 1];
        if rest.None? then None else Some([e] + rest.value)
  }

  predicate IsRunning(c: PsEntry) {
    c.state == Some("running")
  }

  function Summary(c: PsEntry): ContainerSummary {
    ContainerSummary(c.service, c.state, c.status)
  }

  function Summaries(cs: seq<PsEntry>): (r: seq<ContainerSummary>)
    ensures |r| == |cs| && forall i :: 0 <= i < |cs| ==> r[i] == Summary(cs[i])
  {
    seq(|cs|, i requires 0 <= i < |cs| => Summary(cs[i]))
  }

  /** `GET /status`. */
  function Status(stdout: string, parse: string -> Option<PsEntry>): (r: Result<StatusReply, HttpError>)
    ensures Trim(stdout) == "" ==> r == Success(StatusReply(false, [], 0, 0))
    ensures r.Failure? <==> Trim(stdout) != "" && ParseAll(OutputLines(stdout), parse).None?
    ensures r.Failure? ==> r.error == HttpError(500, "Failed to check Affine status")
    ensures r.Success? && Trim(stdout) != "" ==>
      var cs := ParseAll(OutputLines(stdout), parse).value;
      r.value.containers == Summaries(cs) &&
      r.value.totalContainers == |OutputLines(stdout)| &&
      (r.value.running <==> exists i :: 0 <= i < |cs| && IsRunning(cs[i])) &&
      r.value.runningContainers == |Filter(cs, IsRunning)|
  {
    if Trim(stdout) == "" then Success(StatusReply(false, [], 0, 0))
    else
      var parsed := ParseAll(OutputLines(stdout), parse);
      if parsed.None? then Failure(HttpError(500, "Failed to check Affine status"))
      else
        var cs := parsed.value;
        var running := exists i :: 0 <= i < |cs| && IsRunning(cs[i]);
        Success(StatusReply(running, Summaries(cs), |cs|, |Filter(cs, IsRunning)|))
  }

  /** The running count is at most the total, and positive exactly when
      the server counts as running. */
  lemma RunningCounts(stdout: string, parse: string -> Option<PsEntry>)
    requires Status(stdout, parse).Success?
    ensures var reply := Status(stdout, parse).value;
      reply.runningContainers <= reply.totalContainers &&
      (reply.running <==> reply.runningContainers > 0)
  {
    if Trim(stdout) != "" {
      var cs := ParseAll(OutputLines(stdout), parse).value;
      if exists i :: 0 <= i < |cs| && IsRunning(cs[i]) {
        var i :| 0 <= i < |cs| && IsRunning(cs[i]);
        assert cs[i] in Filter(cs, IsRunning);
      }
      if |Filter(cs, IsRunning)| > 0 {
        assert Filter(cs, IsRunning)[0] in cs;
      }
    }
  }

  // ---------------------------------------------------------------------
  // Stats
  // ---------------------------------------------------------------------

  /** Index of the first occurrence of `sep`, or `|s|`. */
  function IndexOf(s: string, sep: string): (k: nat)
    requires |sep| > 0
    ensures k <= |s|
    ensures k < |s| ==> OccursAt(s, sep, k)
    ensures forall i :: 0 <= i < k ==> !OccursAt(s, sep, i)
  {
    if s == [] then 0
    else if sep <= s then
      assert s[..|sep|] == sep;
      0
    else
      var k := IndexOf(s[1..], sep);
      assert forall i :: 0 < i < |s| && OccursAt(s, sep, i) ==> OccursAt(s[1..], sep, i - 1) by {
        forall i | 0 < i < |s| && OccursAt(s, sep, i) ensures OccursAt(s[1..], sep, i - 1) {
          assert s[1..][i - 1..i - 1 + |sep|] == s[i..i + |sep|];
        }
      }
      assert k < |s[1..]| ==> s[1..][k..k + |sep|] == s[k + 1..k + 1 + |sep|];
      1 + k
  }

  /** `s.split(sep)` for a separator of several characters. */
  function SplitOn(s: string, sep: string): (r: seq<string>)
    requires |sep| > 0
    ensures |r| >= 1
    decreases |s|
  {
    var k := IndexOf(s, sep);
    if k == |s| then [s] else [s[..k]] + SplitOn(s[k + |sep|..], sep)
  }

  /** `containerId.substring(0, 12)`. */
  function ShortId(id: string): (r: string)
    ensures r <= id && |r| == if |id| < 12 then |id| else 12
  {
    if |id| <= 12 then id else id[..12]
  }

  /** One row of the stats answer; `None` is `undefined`. */
  datatype DockerStats = DockerStats(containerId: string, name: Option<string>, cpuPercent: Option<string>,
                                     memUsage: string, memLimit: Option<string>, memPercent: Option<string>,
                                     netIO: Option<string>, blockIO: Option<string>)

  datatype StatsReply = StatsReply(running: bool, containers: seq<DockerStats>)

  /** The element of a destructuring pattern: `undefined` past the end. */
  function At(parts: seq<string>, i: nat): (r: Option<string>)
    ensures r.Some? <==> i < |parts|
    ensures r.Some? ==> r.value == parts[i]
  {
    if i < |parts| then Some(parts[i]) else None
  }

  /** One stats line: split on '|', and the memory column on " / ". A line
      with fewer than four columns has no memory column, and splitting
      `undefined` throws. */
  function ParseStatsLine(line: string): (r: Option<DockerStats>)
    ensures r.Some? <==> |Split(line, '|')| >= 4
  {
    var parts := Split(line, '|');
    if |parts| < 4 then None
    else
      var mem := SplitOn(parts[3], " / ");
      Some(DockerStats(ShortId(parts[0]), At(parts, 1), At(parts, 2), mem[0], At(mem, 1),
                       At(parts, 4), At(parts, 5), At(parts, 6)))
  }

  function ParseStatsLines(lines: seq<string>): (r: Option<seq<DockerStats>>)
    ensures r.Some? <==> forall i :: 0 <= i < |lines| ==> ParseStatsLine(lines[i]).Some?
    ensures r.Some? ==>
      |r.value| == |lines| && forall i :: 0 <= i < |lines| ==> ParseStatsLine(lines[i]) == Some(r.value[i])
  {
    if lines == [] then Some([])
    else
      match ParseStatsLine(lines[0])
      case None => None
      case Some(e) =>
        var rest := ParseStatsLines(lines[1..]);
        assert forall i :: 1 <= i < |lines| ==> lines[i] == lines[1..][i - 1];
        if rest.None? then None else Some([e] + rest.value)
  }

  /** `GET /stats`: `psStdout` lists the container ids, `statsStdout` is the
      table `docker stats` prints for them. */
  function Stats(psStdout: string, statsStdout: string): (r: Result<StatsReply, HttpError>)
    ensures OutputLines(psStdout) == [] ==> r == Success(StatsReply(false, []))
    ensures OutputLines(psStdout) != [] ==>
      match ParseStatsLines(OutputLines(statsStdout))
      case None => r == Failure(HttpError(500, "Failed to fetch Affine stats"))
      case Some(rows) => r == Success(StatsReply(true, rows))
  {
    if OutputLines(psStdout) == [] then Success(StatsReply(false, []))
    else
      match ParseStatsLines(OutputLines(statsStdout))
      case None => Failure(HttpError(500, "Failed to fetch Affine stats"))
      case Some(rows) => Success(StatsReply(true, rows))
  }

  /** A memory column "used / limit" gives both halves, when neither holds a
      space. */
  lemma MemoryHalves(used: string, limit: string)
    requires ' ' !in used && ' ' !in limit
    ensures SplitOn(used + " / " + limit, " / ") == [used, limit]
  {
    var s := used + " / " + limit;
    assert OccursAt(s, " / ", |used|) by {
      assert s[|used|..|used| + 3] == " / ";
    }
    forall i | 0 <= i < |used| ensures !OccursAt(s, " / ", i) {
      assert s[i] == used[i];
    }
    assert IndexOf(s, " / ") == |used|;
    assert s[..|used|] == used;
    assert s[|used| + 3..] == limit;
    forall i | 0 <= i < |limit| ensures !OccursAt(limit, " / ", i) {
      if i + 3 <= |limit| {
        assert limit[i..i + 3][0] == limit[i];
      }
    }
    assert IndexOf(limit, " / ") == |limit|;
  }

  /** A well-formed stats line yields its seven columns, the memory column
      split in two and the id cut to twelve characters. */
  lemma StatsLineColumns(columns: seq<string>, used: string, limit: string)
    requires |columns| == 7 && forall i :: 0 <= i < 7 ==> '|' !in columns[i]
    requires columns[3] == used + " / " + limit && ' ' !in used && ' ' !in limit
    ensures ParseStatsLine(Join(columns, "|")) ==
      Some(DockerStats(ShortId(columns[0]), Some(columns[1]), Some(columns[2]), used, Some(limit),
                       Some(columns[4]), Some(columns[5]), Some(columns[6])))
  {
    SplitJoin(columns, '|');
    MemoryHalves(used, limit);
  }
}
