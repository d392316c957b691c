/**
  The teleoperation service: the session id and `lerobot.teleoperate`
  command, the table accumulator of the monitor (the program prints a table of
  joint positions framed by a dashed separator and closed by a timing line),
  the classifier that decides what of it is posted, the output rule that keeps
  tables out of the queue and only the latest table in the log, and the
  service state (the shared registry plus the latest table per session).
 */
module Teleoperation {
  import opened Text
  import opened Ansi
  import opened Sessions
  import opened Cameras

  /** `n` copies of `c`. */
  function Repeat(c: char, n: nat): (r: string)
    ensures |r| == n
    ensures forall k :: 0 <= k < n ==> r[k] == c
  {
    if n == 0 then [] else Repeat(c, n - 1) + [c]
  }

  /** The dashed line that frames the program's tables: 27 '-'. */
  const Separator := Repeat('-', 27)

  /** A text that holds (part of) a table. */
  predicate IsTable(m: string) {
    Contains(m, Separator)
  }

  /** A line closing a table: it contains "time:", "ms" and "(". */
  predicate IsTimingLine(line: string) {
    Contains(line, "time:") && Contains(line, "ms") && Contains(line, "(")
  }

  // ----- `_process_table_output` on the cleaned text -----

  /** Nothing but whitespace. */
  predicate Blank(c: string) {
    forall k :: 0 <= k < |c| ==> IsSpace(c[k])
  }

  /** `not c.strip()`. */
  lemma BlankIffStripsToEmpty(c: string)
    ensures Blank(c) <==> Strip(c) == []
  {
    StripEmptyIffBlank(c);
  }

  /** A whole table: the separator and the timing information. */
  predicate CompleteTable(c: string) {
    IsTable(c) && Contains(c, "time:")
  }

  /** A lone piece of a table: a separator, a position row, the header, or a timing line. */
  predicate TablePiece(c: string) {
    IsTable(c) || Contains(c, ".pos") || Contains(c, "NAME") || Contains(c, "NORM")
    || (StartsWith(c, "time:") && Contains(c, "ms") && Contains(c, "("))
  }

  /** What `_process_table_output` returns for an already cleaned text: the text itself, or None. */
  function TableResult(c: string): (r: Option<string>)
    ensures r.Some? ==> r.value == c && !Blank(c)
  {
    if Blank(c) then None
    else if CompleteTable(c) then Some(c)
    else if TablePiece(c) then None
    else Some(c)
  }

  /** Whether `_process_table_output` records the text as the latest table. */
  predicate StoresTable(c: string) {
    !Blank(c) && CompleteTable(c)
  }

  /**
    The classifier: a recorded table is returned too; a text with the separator
    comes out only as a whole table, a flushed block without "time:" is
    dropped; an ordinary non-blank line passes unchanged.
   */
  lemma TableResultSpec(c: string)
    ensures StoresTable(c) ==> TableResult(c) == Some(c)
    ensures TableResult(c).Some? && IsTable(c) ==> StoresTable(c)
    ensures IsTable(c) && !Contains(c, "time:") ==> TableResult(c) == None
    ensures !Blank(c) && !TablePiece(c) ==> TableResult(c) == Some(c)
    ensures Blank(c) ==> TableResult(c) == None
  {
  }

  // ----- the accumulator in the monitor loop -----

  /** `in_table` and `table_buffer` of the monitor. */
  datatype TableState = TableState(inTable: bool, buffer: seq<string>)

  const Outside := TableState(false, [])

  /** The branch of the `if`/`elif` chain a stripped line takes. */
  datatype Branch = StartTable | EndTable | Fallback | Accumulate | PlainLine

  function BranchOf(st: TableState, line: string): Branch {
    if IsTable(line) then StartTable
    else if st.inTable then
      if IsTimingLine(line) then EndTable
      else if IsTable(line) && |st.buffer| + 1 > 5 then Fallback
      else Accumulate
    else PlainLine
  }

  /**
    The "substantial buffer" fallback is dead code: a line containing the
    separator is always taken by the first branch.
   */
  lemma FallbackUnreachable(st: TableState, line: string)
    ensures BranchOf(st, line) != Fallback
  {
  }

  /** One stripped line: the next accumulator state and the text handed to `_process_table_output`, if any. */
  function TableStep(st: TableState, line: string): (r: (TableState, Option<string>))
    ensures BranchOf(st, line) == StartTable ==> r.0 == TableState(true, [line])
    ensures BranchOf(st, line) == EndTable ==> r.0 == Outside && r.1 == Some(Join(st.buffer + [line], "\n"))
    ensures BranchOf(st, line) == Accumulate ==> r.0 == TableState(true, st.buffer + [line]) && r.1 == None
    ensures BranchOf(st, line) == PlainLine ==> r.0 == st && r.1 == Some(line)
  {
    match BranchOf(st, line)
    case StartTable =>
      (TableState(true, [line]), if st.inTable && st.buffer != [] then Some(Join(st.buffer, "\n")) else None)
    case EndTable =>
      (Outside, Some(Join(st.buffer + [line], "\n")))
    case Fallback =>
      (TableState(false, [line]), Some(Join(st.buffer + [line], "\n")))
    case Accumulate =>
      (TableState(true, st.buffer + [line]), None)
    case PlainLine =>
      (st, Some(line))
  }

  /** The accumulator over the lines of a chunk: the final state and the texts handed on, in order. */
  function TableRun(st: TableState, lines: seq<string>): (TableState, seq<string>)
    decreases |lines|
  {
    if lines == [] then (st, [])
    else
      var step := TableStep(st, lines[0]);
      var rest := TableRun(step.0, lines[1..]);
      (rest.0, (if step.1.Some? then [step.1.value] else []) + rest.1)
  }

  /** Each text with its escape sequences removed. */
  function CleanAll(texts: seq<string>): (r: seq<string>)
    ensures |r| == |texts|
    ensures forall k :: 0 <= k < |texts| ==> r[k] == StripEscapes(texts[k])
  {
    seq(|texts|, k requires 0 <= k < |texts| => StripEscapes(texts[k]))
  }

  /** One chunk: its non-blank stripped lines through the accumulator, the texts handed on cleaned. */
  function ChunkTexts(st: TableState, text: string): (TableState, seq<string>) {
    var run := TableRun(st, ChunkLines(text));
    (run.0, CleanAll(run.1))
  }

  /** Rows of a table: neither separators nor timing lines. */
  predicate TableRows(rows: seq<string>) {
    forall k :: 0 <= k < |rows| ==> !IsTable(rows[k]) && !IsTimingLine(rows[k])
  }

  /** Inside a table, rows only accumulate. */
  lemma {:induction false} TableRunRows(buffer: seq<string>, rows: seq<string>, more: seq<string>)
    requires buffer != [] && TableRows(rows)
    ensures TableRun(TableState(true, buffer), rows + more) == TableRun(TableState(true, buffer + rows), more)
    decreases |rows|
  {
    if rows != [] {
      var st := TableState(true, buffer);
      assert (rows + more)[0] == rows[0];
      assert (rows + more)[1..] == rows[1..] + more;
      assert !IsTable(rows[0]) && !IsTimingLine(rows[0]);
      assert BranchOf(st, rows[0]) == Accumulate;
      var step := TableStep(st, rows[0]);
      assert step == (TableState(true, buffer + [rows[0]]), None);
      TableRunRows(buffer + [rows[0]], rows[1..], more);
      assert buffer + [rows[0]] + rows[1..] == buffer + rows;
      var rest := TableRun(step.0, rows[1..] + more);
      assert TableRun(st, rows + more) == (rest.0, [] + rest.1);
      assert [] + rest.1 == rest.1;
    } else {
      assert rows + more == more;
      assert buffer + rows == buffer;
    }
  }

  /**
    A whole table (separator line, rows, timing line) is handed on as one text,
    its lines joined by '\n', and the accumulator ends outside a table; a
    previous unfinished table is handed on first.
   */
  lemma WholeTable(st: TableState, sep: string, rows: seq<string>, timing: string)
    requires IsTable(sep) && TableRows(rows) && !IsTable(timing) && IsTimingLine(timing)
    ensures var flushed := if st.inTable && st.buffer != [] then [Join(st.buffer, "\n")] else [];
      TableRun(st, [sep] + rows + [timing]) == (Outside, flushed + [Join([sep] + rows + [timing], "\n")])
  {
    var lines := [sep] + rows + [timing];
    assert lines[0] == sep && lines[1..] == rows + [timing];
    TableRunRows([sep], rows, [timing]);
    var t := TableState(true, [sep] + rows);
    assert BranchOf(t, timing) == EndTable;
    assert [timing][1..] == [];
    assert t.buffer + [timing] == [sep] + rows + [timing];
    assert TableStep(t, timing) == (Outside, Some(Join([sep] + rows + [timing], "\n")));
    assert TableRun(Outside, []) == (Outside, []);
    assert [timing][0] == timing;
    assert [Join([sep] + rows + [timing], "\n")] + [] == [Join([sep] + rows + [timing], "\n")];
    assert TableRun(t, [timing]) == (Outside, [Join([sep] + rows + [timing], "\n")]);
  }

  // ----- `_add_output` -----

  /** The table messages of a log, in order. */
  function TablesIn(log: seq<string>): (r: seq<string>)
    ensures |r| <= |log|
    ensures forall k :: 0 <= k < |r| ==> IsTable(r[k])
  {
    if log == [] then []
    else TablesIn(log[..|log| - 1]) + (if IsTable(log[|log| - 1]) then [log[|log| - 1]] else [])
  }

  /** The other messages of a log, in order (`[line for line in log if separator not in line]`). */
  function WithoutTables(log: seq<string>): (r: seq<string>)
    ensures |r| <= |log|
    ensures forall k :: 0 <= k < |r| ==> !IsTable(r[k])
  {
    if log == [] then []
    else WithoutTables(log[..|log| - 1]) + (if IsTable(log[|log| - 1]) then [] else [log[|log| - 1]])
  }

  lemma {:induction false} TablesInAppend(a: seq<string>, b: seq<string>)
    ensures TablesIn(a + b) == TablesIn(a) + TablesIn(b)
    ensures WithoutTables(a + b) == WithoutTables(a) + WithoutTables(b)
    decreases |b|
  {
    if b == [] {
      assert a + b == a;
    } else {
      var n := |b| - 1;
      assert (a + b)[..|a + b| - 1] == a + b[..n];
      TablesInAppend(a, b[..n]);
    }
  }

  /** A log without tables is left as it is by the filter and holds no table. */
  lemma {:induction false} WithoutTablesOfPlain(log: seq<string>)
    requires forall k :: 0 <= k < |log| ==> !IsTable(log[k])
    ensures WithoutTables(log) == log && TablesIn(log) == []
  {
    if log != [] {
      var init, last := log[..|log| - 1], log[|log| - 1];
      assert forall k :: 0 <= k < |init| ==> init[k] == log[k];
      WithoutTablesOfPlain(init);
      assert !IsTable(last);
      assert log == init + [last];
    }
  }

  /** The session log after `_add_output` of `m`: a table replaces every earlier table; another message is appended. */
  function LogAfter(log: seq<string>, m: string): seq<string> {
    if IsTable(m) then WithoutTables(log) + [m] else log + [m]
  }

  /**
    After any output the log's other messages are kept in order, and its
    tables are just the latest one when `m` is a table (none are added
    otherwise).
   */
  lemma LogAfterSpec(log: seq<string>, m: string)
    ensures WithoutTables(LogAfter(log, m)) == WithoutTables(log) + (if IsTable(m) then [] else [m])
    ensures TablesIn(LogAfter(log, m)) == (if IsTable(m) then [m] else TablesIn(log))
  {
    if IsTable(m) {
      WithoutTablesOfPlain(WithoutTables(log));
      TablesInAppend(WithoutTables(log), [m]);
      assert [m][..0] == [];
    } else {
      TablesInAppend(log, [m]);
      assert [m][..0] == [];
    }
  }

  /** The log after a series of outputs. */
  function LogAfterAll(log: seq<string>, msgs: seq<string>): seq<string> {
    if msgs == [] then log else LogAfter(LogAfterAll(log, msgs[..|msgs| - 1]), msgs[|msgs| - 1])
  }

  /** Whatever is output, a log that held at most one table still does, and the other messages accumulate in order. */
  lemma {:induction false} LogAfterAllSpec(log: seq<string>, msgs: seq<string>)
    requires |TablesIn(log)| <= 1
    ensures |TablesIn(LogAfterAll(log, msgs))| <= 1
    ensures WithoutTables(LogAfterAll(log, msgs)) == WithoutTables(log) + WithoutTables(msgs)
  {
    if msgs != [] {
      var n := |msgs| - 1;
      LogAfterAllSpec(log, msgs[..n]);
      LogAfterSpec(LogAfterAll(log, msgs[..n]), msgs[n]);
    }
  }

  /** What `_process_table_output` lets through for one cleaned text. */
  function Emitted(c: string): (r: seq<string>)
    ensures |r| <= 1
    ensures r == [] || r == [c]
  {
    if TableResult(c).Some? then [c] else []
  }

  /** The messages `_process_table_output` lets through for cleaned texts, in order. */
  function Results(cleaned: seq<string>): seq<string> {
    if cleaned == [] then []
    else
      var n := |cleaned| - 1;
      Results(cleaned[..n]) + Emitted(cleaned[n])
  }

  /** Two appends to one queue are one append. */
  lemma AppendTwice(q: map<string, seq<string>>, id: string, w: seq<string>, e: seq<string>)
    requires id in q
    ensures q[id := q[id] + w][id := q[id] + w + e] == q[id := q[id] + (w + e)]
  {
    assert q[id] + w + e == q[id] + (w + e);
  }

  /** Two updates of one session log are the last one. */
  lemma LogTwice(s: map<string, Session>, id: string, a: seq<string>, b: seq<string>)
    requires id in s
    ensures s[id := s[id].(output := a)][id := s[id].(output := b)] == s[id := s[id].(output := b)]
  {
  }

  /** Handing on one more text extends the results by what it lets through, and may record it as the latest table. */
  lemma ResultsSnoc(cleaned: seq<string>, i: nat)
    requires i < |cleaned|
    ensures Results(cleaned[..i + 1]) == Results(cleaned[..i]) + Emitted(cleaned[i])
    ensures WithoutTables(Results(cleaned[..i + 1])) == WithoutTables(Results(cleaned[..i])) + WithoutTables(Emitted(cleaned[i]))
    ensures LastStored(None, cleaned[..i + 1]) == if StoresTable(cleaned[i]) then Some(cleaned[i]) else LastStored(None, cleaned[..i])
  {
    assert cleaned[..i + 1][..i] == cleaned[..i];
    TablesInAppend(Results(cleaned[..i]), Emitted(cleaned[i]));
  }

  lemma {:induction false} LogAfterAllAppend(log: seq<string>, a: seq<string>, b: seq<string>)
    ensures LogAfterAll(log, a + b) == LogAfterAll(LogAfterAll(log, a), b)
    decreases |b|
  {
    if b == [] {
      assert a + b == a;
    } else {
      var n := |b| - 1;
      assert (a + b)[..|a + b| - 1] == a + b[..n];
      LogAfterAllAppend(log, a, b[..n]);
    }
  }

  /** The latest table recorded over a series of cleaned texts, starting from `prev`. */
  function LastStored(prev: Option<string>, cleaned: seq<string>): Option<string> {
    if cleaned == [] then prev
    else
      var n := |cleaned| - 1;
      if StoresTable(cleaned[n]) then Some(cleaned[n]) else LastStored(prev, cleaned[..n])
  }

  /** The session id: leader id, follower id and "teleop" joined by '_'. */
  function SessionId(leaderId: string, followerId: string): (id: string)
    ensures |id| == |leaderId| + |followerId| + 8
    ensures id[..|leaderId|] == leaderId && id[|id| - 7..] == "_teleop"
  {
    leaderId + "_" + followerId + "_teleop"
  }

  /** The `lerobot.teleoperate` command: follower as robot, leader as teleoperator, then the cameras. */
  function Command(python: string, leaderType: string, leaderPort: string, leaderId: string,
                   followerType: string, followerPort: string, followerId: string,
                   cams: seq<CameraSpec>): seq<Arg>
  {
    [Plain(python), Plain("-m"), Plain("lerobot.teleoperate"),
     Plain("--robot.type=" + followerType), Plain("--robot.port=" + followerPort),
     Plain("--robot.id=" + followerId), Plain("--teleop.type=" + leaderType),
     Plain("--teleop.port=" + leaderPort), Plain("--teleop.id=" + leaderId)]
    + CameraArgs(cams, true)
  }

  /**
    The follower arm is driven as the robot and the leader arm as the
    teleoperator; with cameras the command ends with their dictionary and
    `--display_data=true`, without them it has nine arguments.
   */
  lemma CommandSpec(python: string, leaderType: string, leaderPort: string, leaderId: string,
                    followerType: string, followerPort: string, followerId: string,
                    cams: seq<CameraSpec>)
    ensures var cmd := Command(python, leaderType, leaderPort, leaderId, followerType, followerPort, followerId, cams);
      && |cmd| == (if cams == [] then 9 else 11)
      && cmd[2] == Plain("lerobot.teleoperate")
      && cmd[3] == Plain("--robot.type=" + followerType) && cmd[5] == Plain("--robot.id=" + followerId)
      && cmd[6] == Plain("--teleop.type=" + leaderType) && cmd[8] == Plain("--teleop.id=" + leaderId)
      && (cams != [] ==> cmd[9] == CamerasJson(ConfigOf(cams)) && cmd[10] == Plain("--display_data=true"))
  {
  }

  function StartMessage(leaderId: string, followerId: string): string {
    "Teleoperation started for leader " + leaderId + " and follower " + followerId
  }

  /** No two adjacent characters of `s` are both '-'. */
  predicate NoDoubleDash(s: string) {
    forall i :: 0 <= i < |s| - 1 ==> !(s[i] == '-' && s[i + 1] == '-')
  }

  /** A text without two adjacent dashes holds no table separator. */
  lemma NoDoubleDashNotTable(s: string)
    requires NoDoubleDash(s)
    ensures !IsTable(s)
  {
    forall i | 0 <= i <= |s| - |Separator|
      ensures !OccursAt(s, Separator, i)
    {
      assert s[i..i + |Separator|][0] == s[i] && s[i..i + |Separator|][1] == s[i + 1];
      assert Separator[0] == '-' && Separator[1] == '-';
    }
  }

  /** A text without dashes has no two adjacent ones. */
  lemma DashFree(p: string)
    requires '-' !in p
    ensures NoDoubleDash(p)
  {
  }

  /** A dash-free text followed by a number has no two adjacent dashes: the number has at most its sign. */
  lemma DashFreeThenNumber(p: string, code: int)
    requires '-' !in p
    ensures NoDoubleDash(p + IntToString(code))
  {
    var t := IntToString(code);
    var m := p + t;
    assert forall k :: 1 <= k < |t| ==> t[k] != '-' by {
      if code < 0 {
        assert t == "-" + NatToString(-code);
        assert forall k :: 1 <= k < |t| ==> t[k] == NatToString(-code)[k - 1];
      }
    }
    forall i | 0 <= i < |m| - 1
      ensures !(m[i] == '-' && m[i + 1] == '-')
    {
      if i < |p| {
        assert m[i] == p[i];
      } else {
        assert m[i + 1] == t[i + 1 - |p|];
      }
    }
  }

  /**
    The end-of-run report is never a table, whatever the exit code and whether
    the session was cancelled: `_add_output` always queues it and appends it to
    the session log.
   */
  lemma EndReportNotTable(code: int, cancelled: bool)
    ensures !IsTable(ResolveEnd("Teleoperation", Exited(code), cancelled).message)
  {
    EndMessagesNoDoubleDash(code);
    NoDoubleDashNotTable(ResolveEnd("Teleoperation", Exited(code), cancelled).message);
  }

  /** The three end-of-run texts have no two adjacent dashes. */
  lemma EndMessagesNoDoubleDash(code: int)
    ensures NoDoubleDash("Teleoperation" + " cancelled by user")
    ensures NoDoubleDash("Teleoperation" + " completed successfully!")
    ensures NoDoubleDash("Teleoperation" + " failed with exit code " + PollText(Exited(code)))
  {
    DashFree("Teleoperation" + " cancelled by user");
    DashFree("Teleoperation" + " completed successfully!");
    DashFreeThenNumber("Teleoperation" + " failed with exit code ", code);
  }

  /** The monitor's report of a missing process. */
  function MonitorErrorText(id: string): string {
    "Teleoperation monitoring error: " + KeyErrorText(id)
  }

  /** No queued message of any session holds a table. */
  ghost predicate NoQueuedTables(queues: map<string, seq<string>>) {
    forall id, k :: id in queues && 0 <= k < |queues[id]| ==> !IsTable(queues[id][k])
  }

  class TeleoperationService {
    const reg: Registry
    var lastTable: map<string, string>

    ghost predicate Valid()
      reads this, reg
    {
      reg.Valid() && NoQueuedTables(reg.queues)
    }

    constructor()
      ensures Valid() && fresh(reg)
      ensures reg.sessions == map[] && reg.queues == map[] && reg.processes == map[] && reg.cancelled == {}
      ensures lastTable == map[]
    {
      reg := new Registry();
      lastTable := map[];
    }

    /**
      `_add_output`: ignored without a queue. A table is never queued: it
      replaces every earlier table in the session log. Any other message goes
      to the queue and the log.
     */
    method AddOutput(id: string, m: string)
      requires Valid()
      modifies reg
      ensures Valid()
      ensures id in old(reg.queues) && !IsTable(m) ==> reg.queues == old(reg.queues)[id := old(reg.queues[id]) + [m]]
      ensures id !in old(reg.queues) || IsTable(m) ==> reg.queues == old(reg.queues)
      ensures id in old(reg.queues) && id in old(reg.sessions) ==>
        reg.sessions == old(reg.sessions)[id := old(reg.sessions[id]).(output := LogAfter(old(reg.sessions[id]).output, m))]
      ensures !(id in old(reg.queues) && id in old(reg.sessions)) ==> reg.sessions == old(reg.sessions)
      ensures reg.processes == old(reg.processes) && reg.cancelled == old(reg.cancelled)
    {
      if id !in reg.queues {
        return;
      }
      if IsTable(m) {
        if id in reg.sessions {
          var s := reg.sessions[id];
          reg.sessions := reg.sessions[id := s.(output := WithoutTables(s.output) + [m])];
        }
      } else {
        var q := reg.queues[id];
        reg.queues := reg.queues[id := q + [m]];
        if id in reg.sessions {
          var s := reg.sessions[id];
          reg.sessions := reg.sessions[id := s.(output := s.output + [m])];
        }
      }
    }

    /** `_process_table_output` for a text already cleaned: record a whole table as the latest one, and return what may be posted. */
    method ProcessTableOutput(id: string, c: string) returns (r: Option<string>)
      modifies this
      ensures r == TableResult(c)
      ensures StoresTable(c) ==> lastTable == old(lastTable)[id := c]
      ensures !StoresTable(c) ==> lastTable == old(lastTable)
    {
      if StoresTable(c) {
        lastTable := lastTable[id := c];
      }
      r := TableResult(c);
    }

    /** One cleaned text handed on by the accumulator: classified, and output when it comes through. */
    method HandleText(id: string, c: string)
      requires Valid()
      modifies this, reg
      ensures Valid()
      ensures lastTable == if StoresTable(c) then old(lastTable)[id := c] else old(lastTable)
      ensures id in old(reg.queues) ==> reg.queues == old(reg.queues)[id := old(reg.queues[id]) + WithoutTables(Emitted(c))]
      ensures id !in old(reg.queues) ==> reg.queues == old(reg.queues)
      ensures id in old(reg.sessions) ==>
        reg.sessions == old(reg.sessions)[id := old(reg.sessions[id]).(output := LogAfterAll(old(reg.sessions[id]).output, Emitted(c)))]
      ensures id !in old(reg.sessions) ==> reg.sessions == old(reg.sessions)
      ensures reg.processes == old(reg.processes) && reg.cancelled == old(reg.cancelled)
    {
      ghost var q0, s0 := reg.queues, reg.sessions;
      var r := ProcessTableOutput(id, c);
      if r.Some? {
        AddOutput(id, c);
        assert Emitted(c) == [c] && [c][..0] == [];
        assert WithoutTables([c]) == if IsTable(c) then [] else [c];
        if id in q0 && IsTable(c) {
          assert q0[id] + [] == q0[id] && q0[id := q0[id]] == q0;
        }
      } else {
        assert Emitted(c) == [];
        if id in q0 {
          assert q0[id] + [] == q0[id] && q0[id := q0[id]] == q0;
        }
        if id in s0 {
          assert s0[id := s0[id].(output := s0[id].output)] == s0;
        }
      }
    }

    /**
      The cleaned texts the accumulator handed on for one chunk, in order: each
      is classified (possibly recording the latest table) and what comes out is
      output. The latest table is recorded even when the session is gone.
     */
    method HandleTexts(id: string, cleaned: seq<string>)
      requires Valid()
      modifies this, reg
      ensures Valid()
      ensures lastTable == (var last := LastStored(None, cleaned);
                            if last.Some? then old(lastTable)[id := last.value] else old(lastTable))
      ensures id in old(reg.queues) ==> reg.queues == old(reg.queues)[id := old(reg.queues[id]) + WithoutTables(Results(cleaned))]
      ensures id !in old(reg.queues) ==> reg.queues == old(reg.queues)
      ensures id in old(reg.sessions) ==>
        reg.sessions == old(reg.sessions)[id := old(reg.sessions[id]).(output := LogAfterAll(old(reg.sessions[id]).output, Results(cleaned)))]
      ensures id !in old(reg.sessions) ==> reg.sessions == old(reg.sessions)
      ensures reg.processes == old(reg.processes) && reg.cancelled == old(reg.cancelled)
    {
      ghost var q0, s0, t0 := reg.queues, reg.sessions, lastTable;
      var i := 0;
      assert cleaned[..0] == [];
      assert id in q0 ==> q0[id] + [] == q0[id] && q0[id := q0[id]] == q0;
      assert id in s0 ==> s0[id := s0[id].(output := s0[id].output)] == s0;
      while i < |cleaned|
        invariant 0 <= i <= |cleaned|
        invariant Valid()
        invariant lastTable == (var last := LastStored(None, cleaned[..i]);
                                if last.Some? then t0[id := last.value] else t0)
        invariant id in q0 ==> reg.queues == q0[id := q0[id] + WithoutTables(Results(cleaned[..i]))]
        invariant id !in q0 ==> reg.queues == q0
        invariant id in s0 ==> reg.sessions == s0[id := s0[id].(output := LogAfterAll(s0[id].output, Results(cleaned[..i])))]
        invariant id !in s0 ==> reg.sessions == s0
        invariant reg.processes == old(reg.processes) && reg.cancelled == old(reg.cancelled)
      {
        ghost var pre := cleaned[..i];
        var c := cleaned[i];
        ResultsSnoc(cleaned, i);
        ghost var t1 := lastTable;
        ghost var w, e := WithoutTables(Results(pre)), WithoutTables(Emitted(c));
        HandleText(id, c);
        if StoresTable(c) && LastStored(None, pre).Some? {
          UpdateTwice(t0, id, LastStored(None, pre).value, c);
        }
        if id in q0 {
          AppendTwice(q0, id, w, e);
        }
        if id in s0 {
          LogAfterAllAppend(s0[id].output, Results(pre), Emitted(c));
          LogTwice(s0, id, LogAfterAll(s0[id].output, Results(pre)), LogAfterAll(s0[id].output, Results(pre) + Emitted(c)));
        }
        i := i + 1;
      }
      assert cleaned[..i] == cleaned;
    }

    /**
      One chunk read from the terminal: its non-blank stripped lines go through
      the accumulator, whose texts are cleaned and handled in order. Returns the
      accumulator state for the next chunk.
     */
    method HandleChunk(id: string, st: TableState, text: string) returns (next: TableState)
      requires Valid()
      modifies this, reg
      ensures Valid()
      ensures next == ChunkTexts(st, text).0
      ensures id in old(reg.queues) ==> reg.queues == old(reg.queues)[id := old(reg.queues[id]) + WithoutTables(Results(ChunkTexts(st, text).1))]
      ensures id !in old(reg.queues) ==> reg.queues == old(reg.queues)
      ensures id in old(reg.sessions) ==>
        reg.sessions == old(reg.sessions)[id := old(reg.sessions[id]).(output := LogAfterAll(old(reg.sessions[id]).output, Results(ChunkTexts(st, text).1)))]
      ensures id !in old(reg.sessions) ==> reg.sessions == old(reg.sessions)
      ensures reg.processes == old(reg.processes) && reg.cancelled == old(reg.cancelled)
    {
      var run := ChunkTexts(st, text);
      HandleTexts(id, run.1);
      next := run.0;
    }

    /** `get_latest_table`: the latest recorded table, or None. */
    method GetLatestTable(id: string) returns (t: Option<string>)
      ensures id in lastTable ==> t == Some(lastTable[id])
      ensures id !in lastTable ==> t == None
    {
      t := if id in lastTable then Some(lastTable[id]) else None;
    }

    /**
      `stop_teleoperation`: an id without a process is refused and nothing
      changes; otherwise it is cancelled and removed from every map, including
      the latest tables.
     */
    method Stop(id: string) returns (ok: bool)
      requires Valid()
      modifies reg, this
      ensures Valid()
      ensures ok <==> id in old(reg.processes)
      ensures !ok ==> reg.sessions == old(reg.sessions) && reg.queues == old(reg.queues)
                      && reg.processes == old(reg.processes) && reg.cancelled == old(reg.cancelled)
                      && lastTable == old(lastTable)
      ensures ok ==> reg.cancelled == old(reg.cancelled) + {id}
                     && reg.processes == old(reg.processes) - {id}
                     && reg.queues == old(reg.queues) - {id}
                     && reg.sessions == old(reg.sessions) - {id}
                     && lastTable == old(lastTable) - {id}
    {
      ok := reg.Remove(id);
      if ok {
        lastTable := lastTable - {id};
      }
    }

    /**
      `start_teleoperation`: stop a running session with the same id, forget
      its cancellation, open a "starting" session with an empty queue and build
      the command; a successful spawn records the process and outputs the start
      message, a failed one raises (result None).
     */
    method Start(python: string, leaderType: string, leaderPort: string, leaderId: string,
                 followerType: string, followerPort: string, followerId: string,
                 cams: seq<CameraSpec>, spawnOk: bool)
      returns (result: Option<string>, command: seq<Arg>)
      requires Valid()
      modifies reg, this
      ensures Valid()
      ensures command == Command(python, leaderType, leaderPort, leaderId, followerType, followerPort, followerId, cams)
      ensures result == Some(SessionId(leaderId, followerId)) <==> spawnOk
      ensures result == None <==> !spawnOk
      ensures var id := SessionId(leaderId, followerId);
        var m := StartMessage(leaderId, followerId);
        && reg.sessions == old(reg.sessions)[id := Session(Starting, false, if spawnOk then LogAfter([], m) else [])]
        && reg.queues == old(reg.queues)[id := if spawnOk && !IsTable(m) then [m] else []]
        && reg.processes == (if spawnOk then old(reg.processes)[id := Alive] else old(reg.processes) - {id})
        && reg.cancelled == old(reg.cancelled) - {id}
        && lastTable == (if id in old(reg.processes) then old(lastTable) - {id} else old(lastTable))
    {
      var id := SessionId(leaderId, followerId);
      var stopped := reg.Restart(id);
      if stopped {
        lastTable := lastTable - {id};
      }
      command := Command(python, leaderType, leaderPort, leaderId, followerType, followerPort, followerId, cams);
      if !spawnOk {
        return None, command;
      }
      ghost var p0 := old(reg.processes);
      reg.Attach(id);
      RemoveThenUpdate(p0, id, Alive);
      var m := StartMessage(leaderId, followerId);
      ghost var q1 := reg.queues;
      AddOutput(id, m);
      assert [] + [m] == [m];
      UpdateTwice(old(reg.queues), id, [], [m]);
      result := Some(id);
    }

    /** First step of the monitor thread: mark the session running, or report the missing process. */
    method BeginMonitor(id: string) returns (goesOn: bool)
      requires Valid()
      modifies reg
      ensures Valid()
      ensures goesOn <==> id in old(reg.processes)
      ensures goesOn ==> reg.sessions == old(reg.sessions)[id := old(reg.sessions[id]).(status := Running)]
                         && reg.queues == old(reg.queues)
      ensures !goesOn && id in old(reg.sessions) ==>
        var m := MonitorErrorText(id);
        && reg.sessions == old(reg.sessions)[id := Session(Failed, old(reg.sessions[id]).waiting, LogAfter(old(reg.sessions[id]).output, m))]
        && reg.queues == (if IsTable(m) then old(reg.queues) else old(reg.queues)[id := old(reg.queues[id]) + [m]])
      ensures !goesOn && id !in old(reg.sessions) ==> reg.sessions == old(reg.sessions) && reg.queues == old(reg.queues)
      ensures reg.processes == old(reg.processes) && reg.cancelled == old(reg.cancelled)
    {
      if id in reg.processes {
        reg.SetStatus(id, Running);
        return true;
      }
      goesOn := false;
      if id in reg.sessions {
        AddOutput(id, MonitorErrorText(id));
        reg.SetStatus(id, Failed);
      }
    }

    /** Last step of the monitor thread once the process exited with `code`. */
    method Finish(id: string, code: int)
      requires Valid()
      modifies reg
      ensures Valid()
      ensures var rep := ResolveEnd("Teleoperation", Exited(code), id in old(reg.cancelled));
        && (id in old(reg.queues) ==> reg.queues == old(reg.queues)[id := old(reg.queues[id]) + [rep.message]])
        && (id !in old(reg.queues) ==> reg.queues == old(reg.queues))
        && (id in old(reg.sessions) ==>
              reg.sessions == old(reg.sessions)[id := Session(
                if rep.newStatus.Some? then rep.newStatus.value else old(reg.sessions[id]).status,
                old(reg.sessions[id]).waiting,
                LogAfter(old(reg.sessions[id]).output, rep.message))])
        && (id !in old(reg.sessions) ==> reg.sessions == old(reg.sessions))
      ensures reg.processes == old(reg.processes) && reg.cancelled == old(reg.cancelled)
    {
      var rep := ResolveEnd("Teleoperation", Exited(code), id in reg.cancelled);
      EndReportNotTable(code, id in reg.cancelled);
      if rep.newStatus.Some? && id in reg.sessions {
        reg.SetStatus(id, rep.newStatus.value);
      }
      AddOutput(id, rep.message);
    }

    /** `get_all_output`: every queued message in FIFO order (never a table); the queue is left empty. */
    method GetAllOutput(id: string) returns (outs: seq<string>)
      requires Valid()
      modifies reg
      ensures Valid()
      ensures id in old(reg.queues) ==> outs == old(reg.queues[id]) && reg.queues == old(reg.queues)[id := []]
      ensures id !in old(reg.queues) ==> outs == [] && reg.queues == old(reg.queues)
      ensures forall k :: 0 <= k < |outs| ==> !IsTable(outs[k])
      ensures reg.sessions == old(reg.sessions) && reg.processes == old(reg.processes) && reg.cancelled == old(reg.cancelled)
    {
      outs := reg.Drain(id);
    }

    /** `is_running`. */
    method IsRunning(id: string) returns (b: bool)
      ensures b <==> id in reg.sessions && reg.sessions[id].status in {Starting, Running}
    {
      b := reg.IsActive(id);
    }
  }
}
