/**
  The calibration service: the text cleaner applied to every terminal line,
  the session id and `lerobot.calibrate` command, the phase machine that
  decides when the process waits for Enter, and the service state (the
  shared registry plus the per-session calibration phase).
 */
module Calibration {
  import opened Text
  import opened Ansi
  import opened Sessions

  /** End of the run of whitespace starting at `i`. */
  function SpaceEnd(s: string, i: nat): (j: nat)
    requires i <= |s|
    ensures i <= j <= |s|
    ensures forall k :: i <= k < j ==> IsSpace(s[k])
    ensures j == |s| || !IsSpace(s[j])
    decreases |s| - i
  {
    if i < |s| && IsSpace(s[i]) then SpaceEnd(s, i + 1) else i
  }

  /** Index of the last '\n' in `s[lo..hi]`, or `lo - 1` when there is none. */
  function LastNewline(s: string, lo: nat, hi: nat): (k: int)
    requires 1 <= lo <= hi <= |s|
    ensures lo - 1 <= k < hi
    ensures k >= lo ==> s[k] == '\n'
    ensures forall j :: k < j < hi && j >= lo ==> s[j] != '\n'
    decreases hi - lo
  {
    if hi == lo then lo - 1
    else if s[hi - 1] == '\n' then hi - 1
    else LastNewline(s, lo, hi - 1)
  }

  /**
    `re.sub(r'\n\s*\n', '\n', s)`: at a '\n', the greedy `\s*` takes the whole
    run of whitespace after it and gives back characters until a '\n' follows,
    so a match ends just after the last '\n' of that run and is replaced by a
    single '\n'; with no '\n' in the run there is no match there.
   */
  function CollapseBlankLines(s: string): (r: string)
    ensures |r| <= |s|
    ensures s != [] ==> r != [] && r[0] == s[0]
    ensures forall i :: 0 <= i < |r| - 1 ==> !(r[i] == '\n' && r[i + 1] == '\n')
    decreases |s|
  {
    if s == [] then []
    else if s[0] == '\n' && LastNewline(s, 1, SpaceEnd(s, 1)) >= 1 then
      var k := LastNewline(s, 1, SpaceEnd(s, 1));
      var rest := CollapseBlankLines(s[k + 1..]);
      assert k + 1 < |s| ==> s[k + 1] != '\n';
      "\n" + rest
    else
      var rest := CollapseBlankLines(s[1..]);
      assert s[0] == '\n' && |s| > 1 ==> s[1] != '\n';
      [s[0]] + rest
  }

  /** The blank-line collapse adds no character. */
  lemma {:induction false} CollapseBlankLinesChars(s: string, x: char)
    ensures x in CollapseBlankLines(s) ==> x in s
    decreases |s|
  {
    if s != [] {
      if s[0] == '\n' && LastNewline(s, 1, SpaceEnd(s, 1)) >= 1 {
        var k := LastNewline(s, 1, SpaceEnd(s, 1));
        CollapseBlankLinesChars(s[k + 1..], x);
        assert x in s[k + 1..] ==> x in s;
      } else {
        CollapseBlankLinesChars(s[1..], x);
        assert x in s[1..] ==> x in s;
      }
    }
  }

  /** Text without line breaks is left alone by the blank-line collapse. */
  lemma {:induction false} CollapseWithoutNewline(s: string)
    requires '\n' !in s
    ensures CollapseBlankLines(s) == s
    decreases |s|
  {
    if s != [] {
      assert s[1..] == s[1..] && '\n' !in s[1..] by {
        assert forall c :: c in s[1..] ==> c in s;
      }
      CollapseWithoutNewline(s[1..]);
    }
  }

  /**
    `clean_ansi_codes`: remove escape sequences, then '\r', then the stray
    cursor-movement texts "[8A", "[K" and "[2K", then collapse blank lines and
    strip the ends.
   */
  function CleanAnsiCodes(text: string): (r: string)
    ensures '\r' !in r
    ensures r == [] || (!IsSpace(r[0]) && !IsSpace(r[|r| - 1]))
  {
    var b := RemoveChar(StripEscapes(text), '\r');
    CleanAfterEscapesChars(b, '\r');
    CleanAfterEscapes(b)
  }

  /** The stages of the cleaner after the escape sequences and '\r' are gone. */
  function CleanAfterEscapes(b: string): string {
    var c := ReplaceAll(ReplaceAll(ReplaceAll(b, "[8A", ""), "[K", ""), "[2K", "");
    Strip(CollapseBlankLines(c))
  }

  lemma CleanAfterEscapesChars(b: string, x: char)
    ensures x in CleanAfterEscapes(b) ==> x in b
  {
    var b1 := ReplaceAll(b, "[8A", "");
    var b2 := ReplaceAll(b1, "[K", "");
    var c := ReplaceAll(b2, "[2K", "");
    ReplaceAllChars(b, "[8A", "", x);
    ReplaceAllChars(b1, "[K", "", x);
    ReplaceAllChars(b2, "[2K", "", x);
    CollapseBlankLinesChars(c, x);
    StripChars(CollapseBlankLines(c), x);
  }

  /** The cleaner adds no character: its result is made of the line's own characters. */
  lemma CleanAnsiCodesChars(text: string, x: char)
    ensures x in CleanAnsiCodes(text) ==> x in text
  {
    var a := StripEscapes(text);
    var b := RemoveChar(a, '\r');
    CleanAfterEscapesChars(b, x);
    RemoveCharChars(a, '\r', x);
    StripEscapesChars(text, x);
  }

  /** A string without '[' contains none of the cursor-movement texts. */
  lemma NoBracketNoCursorText(s: string)
    requires '[' !in s
    ensures !Contains(s, "[8A") && !Contains(s, "[K") && !Contains(s, "[2K")
  {
    if Contains(s, "[8A") {
      ContainsCharOf(s, "[8A", 0);
    }
    if Contains(s, "[K") {
      ContainsCharOf(s, "[K", 0);
    }
    if Contains(s, "[2K") {
      ContainsCharOf(s, "[2K", 0);
    }
  }

  /** A plain line (no escape, '\r', '[' or '\n') only loses its surrounding whitespace. */
  lemma CleanPlainLine(text: string)
    requires ESC !in text && '\r' !in text && '[' !in text && '\n' !in text
    ensures CleanAnsiCodes(text) == Strip(text)
  {
    NoBracketNoCursorText(text);
    CollapseWithoutNewline(text);
  }

  /** Coloured terminal output keeps only its text: ESC[32m "Hello" ESC[0m " World" becomes "Hello World". */
  lemma CleanColouredLine(c1: string, a: string, c2: string, b: string)
    requires forall k :: 0 <= k < |c1| ==> '0' <= c1[k] <= '9' || c1[k] == ';'
    requires forall k :: 0 <= k < |c2| ==> '0' <= c2[k] <= '9' || c2[k] == ';'
    requires ESC !in a + b && '\r' !in a + b && '[' !in a + b && '\n' !in a + b
    ensures CleanAnsiCodes(Sgr(c1) + a + Sgr(c2) + b) == Strip(a + b)
  {
    assert ESC !in a && ESC !in b by {
      assert forall x :: x in a ==> x in a + b;
      assert forall x :: x in b ==> x in a + b;
    }
    StripEscapesColoured(c1, a, c2, b);
    assert RemoveChar(a + b, '\r') == a + b;
    NoBracketNoCursorText(a + b);
    CollapseWithoutNewline(a + b);
  }

  /** A line of the calibration program that reports a problem. */
  predicate IsErrorLine(line: string) {
    var lower := Lower(line);
    Contains(lower, "traceback") || Contains(lower, "error") || Contains(lower, "exception")
  }

  /** What the monitor posts for a cleaned line: "ERROR: " in front of a problem line, the line itself otherwise. */
  function Tagged(line: string): (msg: string)
    ensures IsErrorLine(line) ==> msg == "ERROR: " + line
    ensures !IsErrorLine(line) ==> msg == line
    ensures msg[|msg| - |line|..] == line
  {
    if IsErrorLine(line) then "ERROR: " + line else line
  }

  /** Every line of a chunk cleaned, in order. */
  function CleanLines(lines: seq<string>): (r: seq<string>)
    ensures |r| == |lines|
  {
    seq(|lines|, k requires 0 <= k < |lines| => CleanAnsiCodes(lines[k]))
  }

  /** The messages posted for cleaned lines, in order. */
  function TagAll(cleaned: seq<string>): (msgs: seq<string>)
    ensures |msgs| == |cleaned|
  {
    seq(|cleaned|, k requires 0 <= k < |cleaned| => Tagged(cleaned[k]))
  }

  /** The lower-cased lines the phase machine reads. */
  function LowerAll(cleaned: seq<string>): (lowers: seq<string>)
    ensures |lowers| == |cleaned|
  {
    seq(|cleaned|, k requires 0 <= k < |cleaned| => Lower(cleaned[k]))
  }

  /** The calibration phase of a session: "initial", "first_step", "second_step", "waiting", "next_phase". */
  datatype Phase = Initial | FirstStep | SecondStep | Waiting | NextPhase

  /** The transition the `if`/`elif` on the current phase makes for a lower-cased line, if any. */
  function PhaseTransition(current: Phase, lower: string): (t: Option<Phase>)
    ensures t.None? || t == Some(FirstStep) || t == Some(SecondStep)
  {
    if current == Initial then
      if Contains(lower, "move test") && Contains(lower, "middle of its range") then Some(FirstStep) else None
    else if current == FirstStep then
      if Contains(lower, "move all joints") && Contains(lower, "entire ranges") then Some(SecondStep) else None
    else None
  }

  /** The explicit prompts that make the program wait for Enter in any phase. */
  predicate PressEnterPrompt(lower: string) {
    Contains(lower, "press enter....") || Contains(lower, "press enter to stop") || Contains(lower, "press enter to continue")
  }

  /** The phase after a line when the session still exists. */
  function PhaseAfterLine(current: Phase, lower: string): Phase {
    if PressEnterPrompt(lower) then Waiting
    else
      var t := PhaseTransition(current, lower);
      if t.Some? then t.value else current
  }

  /** Whether a line sets the "waiting_for_input" flag. */
  predicate LineSetsWaiting(current: Phase, lower: string) {
    PhaseTransition(current, lower) == Some(SecondStep) || PressEnterPrompt(lower)
  }

  /**
    The phase machine: "initial" moves to "first_step" only on the first-step
    instructions, "first_step" moves to "second_step" (and waits) only on the
    second-step instructions, a press-Enter prompt moves any phase to "waiting"
    (and waits), and any other line leaves the phase alone.
   */
  lemma PhaseMachine(current: Phase, lower: string)
    ensures PressEnterPrompt(lower) ==> PhaseAfterLine(current, lower) == Waiting && LineSetsWaiting(current, lower)
    ensures !PressEnterPrompt(lower) ==>
      (PhaseAfterLine(current, lower) == FirstStep && current != FirstStep <==>
         current == Initial && Contains(lower, "move test") && Contains(lower, "middle of its range"))
    ensures !PressEnterPrompt(lower) ==>
      (LineSetsWaiting(current, lower) <==>
         current == FirstStep && Contains(lower, "move all joints") && Contains(lower, "entire ranges"))
    ensures !PressEnterPrompt(lower) && current in {SecondStep, Waiting, NextPhase} ==>
      PhaseAfterLine(current, lower) == current && !LineSetsWaiting(current, lower)
    ensures LineSetsWaiting(current, lower) ==> PhaseAfterLine(current, lower) in {SecondStep, Waiting}
  {
  }

  /** What sending input does to the phase: "second_step" moves on to "next_phase", "waiting" back to "initial". */
  function PhaseAfterInput(p: Phase): (q: Phase)
    ensures p == SecondStep ==> q == NextPhase
    ensures p == Waiting ==> q == Initial
    ensures p !in {SecondStep, Waiting} ==> q == p
  {
    match p
    case SecondStep => NextPhase
    case Waiting => Initial
    case _ => p
  }

  /** The phase map after the phase machine ran on a line for a session that still exists. */
  function PhasesAfterLine(phases: map<string, Phase>, id: string, lower: string): map<string, Phase> {
    var current := if id in phases then phases[id] else Initial;
    var t := PhaseTransition(current, lower);
    if PressEnterPrompt(lower) then phases[id := Waiting]
    else if t.Some? then phases[id := t.value]
    else phases
  }

  /** The phase map when the session is gone: a transition is still recorded before the flag update fails. */
  function PhasesAfterOrphanLine(phases: map<string, Phase>, id: string, lower: string): map<string, Phase> {
    var current := if id in phases then phases[id] else Initial;
    var t := PhaseTransition(current, lower);
    if t.Some? then phases[id := t.value] else phases
  }

  /** A session that exists ends the line in the phase the phase machine names. */
  lemma PhasesAfterLineAgrees(phases: map<string, Phase>, id: string, lower: string)
    ensures var current := if id in phases then phases[id] else Initial;
      var after := PhasesAfterLine(phases, id, lower);
      && (after - {id} == phases - {id})
      && (id in after ==> after[id] == PhaseAfterLine(current, lower))
      && (id !in after ==> PhaseAfterLine(current, lower) == Initial)
  {
  }

  /** `_calibration_phases.get(id, "initial")`. */
  function PhaseOf(phases: map<string, Phase>, id: string): Phase {
    if id in phases then phases[id] else Initial
  }

  /** The phase map after the phase machine ran on each line of a chunk, for a session that exists. */
  function LinesPhases(phases: map<string, Phase>, id: string, lowers: seq<string>): map<string, Phase>
    decreases |lowers|
  {
    if lowers == [] then phases
    else PhasesAfterLine(LinesPhases(phases, id, lowers[..|lowers| - 1]), id, lowers[|lowers| - 1])
  }

  /** Whether some line of a chunk sets the waiting flag, each read in the phase the earlier lines left. */
  predicate LinesWaiting(phases: map<string, Phase>, id: string, lowers: seq<string>)
    decreases |lowers|
  {
    lowers != [] &&
      (LinesWaiting(phases, id, lowers[..|lowers| - 1])
       || LineSetsWaiting(PhaseOf(LinesPhases(phases, id, lowers[..|lowers| - 1]), id), lowers[|lowers| - 1]))
  }

  /**
    The lines of a chunk for a session that is gone: the phase map after them
    and whether one raised. The first line that would set the waiting flag
    raises, after recording its transition, and the lines after it are not read.
   */
  function OrphanLines(phases: map<string, Phase>, id: string, lowers: seq<string>): (map<string, Phase>, bool)
    decreases |lowers|
  {
    if lowers == [] then (phases, false)
    else
      var before := OrphanLines(phases, id, lowers[..|lowers| - 1]);
      var last := lowers[|lowers| - 1];
      if before.1 then before
      else (PhasesAfterOrphanLine(before.0, id, last), LineSetsWaiting(PhaseOf(before.0, id), last))
  }

  /** Once a line has raised, later lines change nothing. */
  lemma {:induction false} OrphanLinesStop(phases: map<string, Phase>, id: string, lowers: seq<string>, j: nat, k: nat)
    requires j <= k <= |lowers|
    requires OrphanLines(phases, id, lowers[..j]).1
    ensures OrphanLines(phases, id, lowers[..k]) == OrphanLines(phases, id, lowers[..j])
    decreases k
  {
    if k > j {
      OrphanLinesStop(phases, id, lowers, j, k - 1);
      assert lowers[..k][..k - 1] == lowers[..k - 1];
    }
  }

  /** One more line extends the phase fold and the waiting test by that line. */
  lemma LinesStep(phases: map<string, Phase>, id: string, lowers: seq<string>, i: nat)
    requires i < |lowers|
    ensures var before := LinesPhases(phases, id, lowers[..i]);
      && LinesPhases(phases, id, lowers[..i + 1]) == PhasesAfterLine(before, id, lowers[i])
      && LinesWaiting(phases, id, lowers[..i + 1]) == (LinesWaiting(phases, id, lowers[..i]) || LineSetsWaiting(PhaseOf(before, id), lowers[i]))
  {
    assert lowers[..i + 1][..i] == lowers[..i] && lowers[..i + 1][i] == lowers[i];
  }

  /** Posting one more message, and possibly setting the flag, extends the queue and the session by that message. */
  lemma AppendStep(q0: map<string, seq<string>>, s0: map<string, Session>, id: string, msgs: seq<string>, i: nat,
                   w: bool, sets: bool)
    requires id in q0 && id in s0 && i < |msgs|
    ensures var q := q0[id := q0[id] + msgs[..i]];
      q[id := q[id] + [msgs[i]]] == q0[id := q0[id] + msgs[..i + 1]]
    ensures var s := s0[id := s0[id].(waiting := s0[id].waiting || w, output := s0[id].output + msgs[..i])];
      s[id := s[id].(waiting := s[id].waiting || sets, output := s[id].output + [msgs[i]])]
        == s0[id := s0[id].(waiting := s0[id].waiting || w || sets, output := s0[id].output + msgs[..i + 1])]
  {
    assert msgs[..i + 1] == msgs[..i] + [msgs[i]];
    assert q0[id] + msgs[..i] + [msgs[i]] == q0[id] + msgs[..i + 1];
    assert s0[id].output + msgs[..i] + [msgs[i]] == s0[id].output + msgs[..i + 1];
    var a := s0[id].(waiting := s0[id].waiting || w, output := s0[id].output + msgs[..i]);
    var b := s0[id].(waiting := s0[id].waiting || w || sets, output := s0[id].output + msgs[..i + 1]);
    assert a.(waiting := a.waiting || sets, output := a.output + [msgs[i]]) == b;
    UpdateTwice(s0, id, a, b);
    UpdateTwice(q0, id, q0[id] + msgs[..i], q0[id] + msgs[..i + 1]);
  }

  /** The phase machine over a chunk touches no other session's phase. */
  lemma {:induction false} LinesPhasesFrame(phases: map<string, Phase>, id: string, lowers: seq<string>)
    ensures LinesPhases(phases, id, lowers) - {id} == phases - {id}
    ensures OrphanLines(phases, id, lowers).0 - {id} == phases - {id}
    decreases |lowers|
  {
    if lowers != [] {
      LinesPhasesFrame(phases, id, lowers[..|lowers| - 1]);
    }
  }

  /**
    A chunk whose last line is a press-Enter prompt leaves the session waiting
    in phase "waiting"; a prompt anywhere in the chunk sets the flag.
   */
  lemma {:induction false} PromptInChunkWaits(phases: map<string, Phase>, id: string, lowers: seq<string>, k: nat)
    requires k < |lowers| && PressEnterPrompt(lowers[k])
    ensures LinesWaiting(phases, id, lowers)
    ensures k == |lowers| - 1 ==> PhaseOf(LinesPhases(phases, id, lowers), id) == Waiting
    decreases |lowers|
  {
    if k < |lowers| - 1 {
      var init := lowers[..|lowers| - 1];
      assert init[k] == lowers[k];
      PromptInChunkWaits(phases, id, init, k);
    }
  }

  /** For a session that is gone, a chunk raises exactly when the existing-session fold would have set the flag. */
  lemma {:induction false} OrphanRaisesIffWaiting(phases: map<string, Phase>, id: string, lowers: seq<string>)
    ensures OrphanLines(phases, id, lowers).1 <==> LinesWaiting(phases, id, lowers)
    ensures !OrphanLines(phases, id, lowers).1 ==> OrphanLines(phases, id, lowers).0 == LinesPhases(phases, id, lowers)
    decreases |lowers|
  {
    if lowers != [] {
      var init := lowers[..|lowers| - 1];
      OrphanRaisesIffWaiting(phases, id, init);
    }
  }

  /** The session id: the robot id and the arm type joined by '_'. */
  function SessionId(robotId: string, armType: string): (id: string)
    ensures |id| == |robotId| + 1 + |armType|
    ensures StartsWith(id, robotId) && id[|robotId|] == '_'
    ensures id[|robotId| + 1..] == armType
  {
    robotId + "_" + armType
  }

  /** The leader and the follower of one robot get distinct sessions. */
  lemma SessionIdSeparatesArms(robotId: string, a1: string, a2: string)
    requires a1 != a2
    ensures SessionId(robotId, a1) != SessionId(robotId, a2)
  {
    assert SessionId(robotId, a1)[|robotId| + 1..] == a1;
    assert SessionId(robotId, a2)[|robotId| + 1..] == a2;
  }

  /** The device type as written: lower-cased, then two replacements of upper-case words. */
  function DeviceType(robotType: string): string {
    ReplaceAll(ReplaceAll(Lower(robotType), "Follower", "_follower"), "Leader", "_leader")
  }

  /** After lower-casing no upper-case word can match, so the device type is just the lower-cased robot type. */
  lemma DeviceTypeIsLower(robotType: string)
    ensures DeviceType(robotType) == Lower(robotType)
  {
    var l := Lower(robotType);
    LowerHasNoUpper(robotType);
    if Contains(l, "Follower") {
      ContainsCharOf(l, "Follower", 0);
    }
    if Contains(l, "Leader") {
      ContainsCharOf(l, "Leader", 0);
    }
  }

  /** The `lerobot.calibrate` command line: `--teleop.` flags for a leader arm, `--robot.` flags for any other arm type. */
  function Command(python: string, armType: string, robotType: string, port: string, robotId: string): (cmd: seq<string>)
    ensures |cmd| == 6 && cmd[..3] == [python, "-m", "lerobot.calibrate"]
  {
    if armType == "leader" then
      [python, "-m", "lerobot.calibrate", "--teleop.type=" + DeviceType(robotType), "--teleop.port=" + port, "--teleop.id=" + robotId]
    else
      [python, "-m", "lerobot.calibrate", "--robot.type=" + DeviceType(robotType), "--robot.port=" + port, "--robot.id=" + robotId]
  }

  /**
    A leader is configured through `--teleop.type/port/id`, anything else through
    `--robot.type/port/id`, and the type value is the lower-cased robot type.
   */
  lemma CommandFlags(python: string, armType: string, robotType: string, port: string, robotId: string)
    ensures var cmd := Command(python, armType, robotType, port, robotId);
      && (armType == "leader" ==> cmd[3..] == ["--teleop.type=" + Lower(robotType), "--teleop.port=" + port, "--teleop.id=" + robotId])
      && (armType != "leader" ==> cmd[3..] == ["--robot.type=" + Lower(robotType), "--robot.port=" + port, "--robot.id=" + robotId])
  {
    DeviceTypeIsLower(robotType);
    var cmd := Command(python, armType, robotType, port, robotId);
    assert cmd[3..] == [cmd[3], cmd[4], cmd[5]];
  }

  /** The first message of a session. */
  function StartMessage(robotId: string, port: string): string {
    "Calibration started for " + robotId + " on port " + port
  }

  /**
    What the monitor remembers between polls that found no output: whether it
    already announced that the program waits for input, and how many quiet
    polls there have been. A chunk of output resets it to `QuietStart`.
   */
  datatype Quiet = Quiet(waitingDetected: bool, quietPolls: nat)

  const QuietStart := Quiet(false, 0)

  const WaitingMessage := "Waiting for user input..."
  const StillWaitingMessage := "Still waiting for calibration process..."

  /** What one quiet poll does: the next quiet state, whether it sets the waiting flag, and the message it posts. */
  datatype QuietOutcome = QuietOutcome(next: Quiet, setsWaiting: bool, message: Option<string>)

  /**
    One poll without output. `overWait` says whether more than the initial
    wait (3 seconds) has passed since the last output: the first such poll
    sets the flag and announces the wait; after that, every 60th quiet poll
    posts a reminder.
   */
  function QuietStep(q: Quiet, overWait: bool): (o: QuietOutcome)
    ensures o.next.quietPolls == q.quietPolls + 1
    ensures o.setsWaiting <==> !q.waitingDetected && overWait
    ensures o.next.waitingDetected <==> q.waitingDetected || overWait
  {
    var polls := q.quietPolls + 1;
    if !q.waitingDetected && overWait then
      QuietOutcome(Quiet(true, polls), true, Some(WaitingMessage))
    else if q.waitingDetected && polls % 60 == 0 then
      QuietOutcome(Quiet(true, polls), false, Some(StillWaitingMessage))
    else
      QuietOutcome(Quiet(q.waitingDetected, polls), false, None)
  }

  /** The messages of a run of quiet polls, with the state it ends in. */
  function QuietRun(q: Quiet, overWaits: seq<bool>): (r: (Quiet, seq<string>))
    ensures r.0.quietPolls == q.quietPolls + |overWaits|
    decreases |overWaits|
  {
    if overWaits == [] then (q, [])
    else
      var o := QuietStep(q, overWaits[0]);
      var rest := QuietRun(o.next, overWaits[1..]);
      (rest.0, (if o.message.Some? then [o.message.value] else []) + rest.1)
  }

  /**
    Over any run of quiet polls the wait is announced at most once, never once
    it was announced, and a reminder only comes after the announcement.
   */
  lemma {:induction false} QuietRunAnnouncesOnce(q: Quiet, overWaits: seq<bool>)
    ensures var msgs := QuietRun(q, overWaits).1;
      && multiset(msgs)[WaitingMessage] <= 1
      && (q.waitingDetected ==> WaitingMessage !in msgs)
      && (!q.waitingDetected ==> forall k :: 0 <= k < |msgs| && msgs[k] == StillWaitingMessage ==>
            WaitingMessage in msgs[..k])
    decreases |overWaits|
  {
    if overWaits != [] {
      var o := QuietStep(q, overWaits[0]);
      var rest := QuietRun(o.next, overWaits[1..]);
      QuietRunAnnouncesOnce(o.next, overWaits[1..]);
      var head: seq<string> := if o.message.Some? then [o.message.value] else [];
      var msgs := head + rest.1;
      assert QuietRun(q, overWaits).1 == msgs;
      assert multiset(msgs) == multiset(head) + multiset(rest.1);
      if !q.waitingDetected {
        forall k | 0 <= k < |msgs| && msgs[k] == StillWaitingMessage
          ensures WaitingMessage in msgs[..k]
        {
          if o.next.waitingDetected {
            assert head == [WaitingMessage];
            assert msgs[0] == WaitingMessage && k > 0;
            assert msgs[..k][0] == WaitingMessage;
          } else {
            assert head == [];
            assert msgs == rest.1;
          }
        }
      }
    }
  }

  /** `CalibrationService`: the registry plus `_calibration_phases`. */
  class CalibrationService {
    const reg: Registry
    var phases: map<string, Phase>

    ghost predicate Valid()
      reads this, reg
    {
      reg.Valid()
    }

    constructor()
      ensures Valid() && fresh(reg)
      ensures reg.sessions == map[] && reg.queues == map[] && reg.processes == map[] && reg.cancelled == {}
      ensures phases == map[]
    {
      reg := new Registry();
      phases := map[];
    }

    /**
      `stop_calibration`: an id without a process is refused and nothing
      changes; otherwise it is cancelled and removed from every map, including
      the phase map.
     */
    method Stop(id: string) returns (ok: bool)
      requires Valid()
      modifies reg, this
      ensures Valid()
      ensures ok <==> id in old(reg.processes)
      ensures !ok ==> reg.sessions == old(reg.sessions) && reg.queues == old(reg.queues)
                      && reg.processes == old(reg.processes) && reg.cancelled == old(reg.cancelled)
                      && phases == old(phases)
      ensures ok ==> reg.cancelled == old(reg.cancelled) + {id}
                     && reg.processes == old(reg.processes) - {id}
                     && reg.queues == old(reg.queues) - {id}
                     && reg.sessions == old(reg.sessions) - {id}
                     && phases == old(phases) - {id}
    {
      ok := reg.Remove(id);
      if ok {
        phases := phases - {id};
      }
    }

    /**
      `start_calibration`: stop a running session with the same id (removing
      its phase), forget its cancellation, open a "starting" session with an
      empty queue, and spawn the command. A failed spawn raises (result None)
      and leaves the session without a process; a successful one records the
      process and posts the start message.
     */
    method Start(python: string, armType: string, robotType: string, port: string, robotId: string, spawnOk: bool)
      returns (result: Option<string>, command: seq<string>)
      requires Valid()
      modifies reg, this
      ensures Valid()
      ensures command == Command(python, armType, robotType, port, robotId)
      ensures result == Some(SessionId(robotId, armType)) <==> spawnOk
      ensures result == None <==> !spawnOk
      ensures var id := SessionId(robotId, armType);
        var log := if spawnOk then [StartMessage(robotId, port)] else [];
        && reg.sessions == old(reg.sessions)[id := Session(Starting, false, log)]
        && reg.queues == old(reg.queues)[id := log]
        && reg.processes == (if spawnOk then old(reg.processes)[id := Alive] else old(reg.processes) - {id})
        && reg.cancelled == old(reg.cancelled) - {id}
        && phases == (if id in old(reg.processes) then old(phases) - {id} else old(phases))
    {
      var id := SessionId(robotId, armType);
      var stopped := reg.Launch(id, StartMessage(robotId, port), spawnOk);
      if stopped {
        phases := phases - {id};
      }
      command := Command(python, armType, robotType, port, robotId);
      result := if spawnOk then Some(id) else None;
    }

    /** The operating system reports the end of a session's process. */
    method ProcessExited(id: string, code: int)
      requires Valid()
      modifies reg
      ensures Valid()
      ensures id in old(reg.processes) ==> reg.processes == old(reg.processes)[id := Exited(code)]
      ensures id !in old(reg.processes) ==> reg.processes == old(reg.processes)
      ensures reg.sessions == old(reg.sessions) && reg.queues == old(reg.queues) && reg.cancelled == old(reg.cancelled)
    {
      reg.Exit(id, code);
    }

    /**
      First step of the monitor thread: mark the session running and its phase
      "initial", or, when the process is gone, post the monitoring error and
      fail the session that is still there.
     */
    method BeginMonitor(id: string) returns (goesOn: bool)
      requires Valid()
      modifies reg, this
      ensures Valid()
      ensures goesOn <==> id in old(reg.processes)
      ensures goesOn ==> reg.sessions == old(reg.sessions)[id := old(reg.sessions[id]).(status := Running)]
                         && reg.queues == old(reg.queues)
                         && phases == old(phases)[id := Initial]
      ensures !goesOn ==> phases == old(phases)
      ensures !goesOn && id in old(reg.sessions) ==>
        var m := "Calibration monitoring error: " + KeyErrorText(id);
        && reg.queues == old(reg.queues)[id := old(reg.queues[id]) + [m]]
        && reg.sessions == old(reg.sessions)[id := Session(Failed, old(reg.sessions[id]).waiting, old(reg.sessions[id]).output + [m])]
      ensures !goesOn && id !in old(reg.sessions) ==> reg.sessions == old(reg.sessions) && reg.queues == old(reg.queues)
      ensures reg.processes == old(reg.processes) && reg.cancelled == old(reg.cancelled)
    {
      goesOn := reg.BeginMonitor(id, "Calibration", true);
      assert "Calibration" + " monitoring error: " == "Calibration monitoring error: ";
      if goesOn {
        phases := phases[id := Initial];
      }
    }

    /**
      The phase machine for one lower-cased line. When the session has been
      removed, setting its waiting flag raises (goesOn false); a phase
      transition made before that stays recorded.
     */
    method RunPhaseMachine(id: string, lower: string) returns (goesOn: bool)
      requires Valid()
      modifies reg, this
      ensures Valid()
      ensures var current := if id in old(phases) then old(phases)[id] else Initial;
        && (id in old(reg.sessions) ==> goesOn && phases == PhasesAfterLine(old(phases), id, lower))
        && (id in old(reg.sessions) && LineSetsWaiting(current, lower) ==>
              reg.sessions == old(reg.sessions)[id := old(reg.sessions[id]).(waiting := true)])
        && (id !in old(reg.sessions) || !LineSetsWaiting(current, lower) ==> reg.sessions == old(reg.sessions))
        && (id !in old(reg.sessions) ==>
              (goesOn <==> !LineSetsWaiting(current, lower)) && phases == PhasesAfterOrphanLine(old(phases), id, lower))
      ensures reg.queues == old(reg.queues) && reg.processes == old(reg.processes) && reg.cancelled == old(reg.cancelled)
    {
      var current := if id in phases then phases[id] else Initial;
      var t := PhaseTransition(current, lower);
      var prompt := PressEnterPrompt(lower);
      if t.Some? {
        phases := phases[id := t.value];
      }
      if t == Some(SecondStep) || prompt {
        if id !in reg.sessions {
          return false;
        }
        reg.SetWaiting(id, true);
        if prompt {
          phases := phases[id := Waiting];
        }
      }
      goesOn := true;
    }

    /**
      One line of terminal output, already cleaned: post it (tagged when it
      reports a problem), then run the phase machine on its lower-cased text.
      For a session that is gone nothing is posted, and a line that would set
      the waiting flag raises (goesOn false).
     */
    method HandleLine(id: string, msg: string, lower: string) returns (goesOn: bool)
      requires Valid()
      modifies reg, this
      ensures Valid()
      ensures id in old(reg.queues) ==> reg.queues == old(reg.queues)[id := old(reg.queues[id]) + [msg]]
      ensures id !in old(reg.queues) ==> reg.queues == old(reg.queues)
      ensures id in old(reg.sessions) ==>
        && goesOn
        && phases == PhasesAfterLine(old(phases), id, lower)
        && reg.sessions == old(reg.sessions)[id := old(reg.sessions[id]).(
             waiting := old(reg.sessions[id]).waiting || LineSetsWaiting(PhaseOf(old(phases), id), lower),
             output := old(reg.sessions[id]).output + [msg])]
      ensures id !in old(reg.sessions) ==>
        && reg.sessions == old(reg.sessions)
        && (goesOn <==> !LineSetsWaiting(PhaseOf(old(phases), id), lower))
        && phases == PhasesAfterOrphanLine(old(phases), id, lower)
      ensures reg.processes == old(reg.processes) && reg.cancelled == old(reg.cancelled)
    {
      reg.Post(id, msg);
      goesOn := RunPhaseMachine(id, lower);
    }

    /**
      The lines of one chunk, handled in order until one raises: `msgs` are
      the messages to post and `lowers` the lower-cased cleaned lines the phase
      machine reads. A session that exists receives every message in its queue
      and log, the phase machine runs over every line, and the waiting flag is
      set when some line sets it. For a session that is gone the first line
      that would set the flag raises and ends the chunk (goesOn false).
     */
    method HandleLines(id: string, msgs: seq<string>, lowers: seq<string>) returns (goesOn: bool)
      requires Valid()
      requires |msgs| == |lowers|
      modifies reg, this
      ensures Valid()
      ensures id in old(reg.sessions) ==>
        && goesOn
        && reg.queues == old(reg.queues)[id := old(reg.queues[id]) + msgs]
        && reg.sessions == old(reg.sessions)[id := old(reg.sessions[id]).(
             waiting := old(reg.sessions[id]).waiting || LinesWaiting(old(phases), id, lowers),
             output := old(reg.sessions[id]).output + msgs)]
        && phases == LinesPhases(old(phases), id, lowers)
      ensures id !in old(reg.sessions) ==>
        && reg.queues == old(reg.queues) && reg.sessions == old(reg.sessions)
        && goesOn == !OrphanLines(old(phases), id, lowers).1
        && phases == OrphanLines(old(phases), id, lowers).0
      ensures reg.processes == old(reg.processes) && reg.cancelled == old(reg.cancelled)
    {
      if id in reg.sessions {
        HandleSessionLines(id, msgs, lowers);
        goesOn := true;
      } else {
        goesOn := HandleOrphanLines(id, msgs, lowers);
      }
    }

    /** The lines of a chunk for a session that exists: every line is posted and runs the phase machine. */
    method HandleSessionLines(id: string, msgs: seq<string>, lowers: seq<string>)
      requires Valid() && id in reg.sessions
      requires |msgs| == |lowers|
      modifies reg, this
      ensures Valid()
      ensures reg.queues == old(reg.queues)[id := old(reg.queues[id]) + msgs]
      ensures reg.sessions == old(reg.sessions)[id := old(reg.sessions[id]).(
                waiting := old(reg.sessions[id]).waiting || LinesWaiting(old(phases), id, lowers),
                output := old(reg.sessions[id]).output + msgs)]
      ensures phases == LinesPhases(old(phases), id, lowers)
      ensures reg.processes == old(reg.processes) && reg.cancelled == old(reg.cancelled)
    {
      ghost var q0, s0, p0 := reg.queues, reg.sessions, phases;
      var i := 0;
      assert msgs[..0] == [] && lowers[..0] == [];
      assert q0[id] + msgs[..0] == q0[id] && q0[id := q0[id]] == q0;
      assert s0[id].output + msgs[..0] == s0[id].output;
      assert s0[id].(waiting := s0[id].waiting || false, output := s0[id].output + msgs[..0]) == s0[id];
      assert s0[id := s0[id]] == s0;
      while i < |msgs|
        invariant 0 <= i <= |msgs|
        invariant Valid()
        invariant reg.queues == q0[id := q0[id] + msgs[..i]]
        invariant reg.sessions == s0[id := s0[id].(waiting := s0[id].waiting || LinesWaiting(p0, id, lowers[..i]),
                                                   output := s0[id].output + msgs[..i])]
        invariant phases == LinesPhases(p0, id, lowers[..i])
        invariant reg.processes == old(reg.processes) && reg.cancelled == old(reg.cancelled)
      {
        ghost var pi := phases;
        var _ := HandleLine(id, msgs[i], lowers[i]);
        LinesStep(p0, id, lowers, i);
        AppendStep(q0, s0, id, msgs, i, LinesWaiting(p0, id, lowers[..i]), LineSetsWaiting(PhaseOf(pi, id), lowers[i]));
        i := i + 1;
      }
      assert msgs[..i] == msgs && lowers[..i] == lowers;
    }

    /**
      The lines of a chunk for a session that is gone: nothing is posted, and
      the first line that would set the waiting flag raises (goesOn false)
      after recording its transition.
     */
    method HandleOrphanLines(id: string, msgs: seq<string>, lowers: seq<string>) returns (goesOn: bool)
      requires Valid() && id !in reg.sessions
      requires |msgs| == |lowers|
      modifies reg, this
      ensures Valid()
      ensures reg.queues == old(reg.queues) && reg.sessions == old(reg.sessions)
      ensures goesOn == !OrphanLines(old(phases), id, lowers).1
      ensures phases == OrphanLines(old(phases), id, lowers).0
      ensures reg.processes == old(reg.processes) && reg.cancelled == old(reg.cancelled)
    {
      ghost var q0, s0, p0 := reg.queues, reg.sessions, phases;
      var i := 0;
      assert lowers[..0] == [];
      goesOn := true;
      while i < |msgs| && goesOn
        invariant 0 <= i <= |msgs|
        invariant Valid()
        invariant reg.queues == q0 && reg.sessions == s0
        invariant goesOn == !OrphanLines(p0, id, lowers[..i]).1
        invariant phases == OrphanLines(p0, id, lowers[..i]).0
        invariant reg.processes == old(reg.processes) && reg.cancelled == old(reg.cancelled)
      {
        goesOn := HandleLine(id, msgs[i], lowers[i]);
        assert lowers[..i + 1][..i] == lowers[..i] && lowers[..i + 1][i] == lowers[i];
        i := i + 1;
      }
      if i < |msgs| {
        OrphanLinesStop(p0, id, lowers, i, |lowers|);
      }
      assert lowers[..|lowers|] == lowers;
    }

    /**
      One chunk read from the terminal: its non-blank stripped lines, cleaned,
      tagged and handled in order. A chunk handled to its end resets the quiet
      state to `QuietStart`; one that raised part way leaves it as it was.
     */
    method HandleChunk(id: string, text: string, q: Quiet) returns (next: Quiet)
      requires Valid()
      modifies reg, this
      ensures Valid()
      ensures var cleaned := CleanLines(ChunkLines(text));
        && (id in old(reg.sessions) ==>
              && next == QuietStart
              && reg.queues == old(reg.queues)[id := old(reg.queues[id]) + TagAll(cleaned)]
              && reg.sessions == old(reg.sessions)[id := old(reg.sessions[id]).(
                   waiting := old(reg.sessions[id]).waiting || LinesWaiting(old(phases), id, LowerAll(cleaned)),
                   output := old(reg.sessions[id]).output + TagAll(cleaned))]
              && phases == LinesPhases(old(phases), id, LowerAll(cleaned)))
        && (id !in old(reg.sessions) ==>
              && reg.queues == old(reg.queues) && reg.sessions == old(reg.sessions)
              && next == (if OrphanLines(old(phases), id, LowerAll(cleaned)).1 then q else QuietStart)
              && phases == OrphanLines(old(phases), id, LowerAll(cleaned)).0)
      ensures reg.processes == old(reg.processes) && reg.cancelled == old(reg.cancelled)
    {
      var cleaned := CleanLines(ChunkLines(text));
      var ok := HandleLines(id, TagAll(cleaned), LowerAll(cleaned));
      next := if ok then QuietStart else q;
    }

    /**
      One poll that found no output. Setting the waiting flag of a removed
      session raises out of the monitor (goesOn false, nothing posted);
      otherwise the flag is set and the message posted as `QuietStep` says.
     */
    method QuietPoll(id: string, q: Quiet, overWait: bool) returns (next: Quiet, goesOn: bool)
      requires Valid()
      modifies reg
      ensures Valid()
      ensures var o := QuietStep(q, overWait);
        && next == o.next
        && (goesOn <==> !(o.setsWaiting && id !in old(reg.sessions)))
        && (goesOn && o.message.Some? && id in old(reg.queues) ==>
              reg.queues == old(reg.queues)[id := old(reg.queues[id]) + [o.message.value]])
        && (!goesOn || o.message.None? || id !in old(reg.queues) ==> reg.queues == old(reg.queues))
        && (id in old(reg.sessions) ==>
              reg.sessions == old(reg.sessions)[id := old(reg.sessions[id]).(
                waiting := old(reg.sessions[id]).waiting || o.setsWaiting,
                output := old(reg.sessions[id]).output + (if o.message.Some? then [o.message.value] else []))])
        && (id !in old(reg.sessions) ==> reg.sessions == old(reg.sessions))
      ensures reg.processes == old(reg.processes) && reg.cancelled == old(reg.cancelled)
    {
      var o := QuietStep(q, overWait);
      next := o.next;
      ghost var s0 := reg.sessions;
      if o.setsWaiting {
        if id !in reg.sessions {
          return next, false;
        }
        reg.SetWaiting(id, true);
      }
      ghost var s1 := reg.sessions;
      if o.message.Some? {
        reg.Post(id, o.message.value);
      }
      if id in s0 {
        ghost var w := s0[id].waiting || o.setsWaiting;
        ghost var out := s0[id].output + (if o.message.Some? then [o.message.value] else []);
        assert s1 == s0[id := s0[id].(waiting := w)];
        assert o.message.None? ==> out == s0[id].output;
        assert s0[id].(waiting := w).(output := out) == s0[id].(waiting := w, output := out);
        UpdateTwice(s0, id, s0[id].(waiting := w), s0[id].(waiting := w, output := out));
      }
      goesOn := true;
    }

    /** Last step of the monitor thread once the process exited with `code`. */
    method Finish(id: string, code: int)
      requires Valid()
      modifies reg
      ensures Valid()
      ensures var rep := ResolveEnd("Calibration", Exited(code), id in old(reg.cancelled));
        && (id in old(reg.queues) ==> reg.queues == old(reg.queues)[id := old(reg.queues[id]) + [rep.message]])
        && (id !in old(reg.queues) ==> reg.queues == old(reg.queues))
        && (id in old(reg.sessions) ==>
              reg.sessions == old(reg.sessions)[id := Session(
                if rep.newStatus.Some? then rep.newStatus.value else old(reg.sessions[id]).status,
                old(reg.sessions[id]).waiting,
                old(reg.sessions[id]).output + [rep.message])])
        && (id !in old(reg.sessions) ==> reg.sessions == old(reg.sessions))
      ensures reg.processes == old(reg.processes) && reg.cancelled == old(reg.cancelled)
    {
      reg.Finish(id, "Calibration", Exited(code));
    }

    /**
      `send_input`: refused (False) for an id without a process, for a process
      that has exited, and when the write fails. Otherwise the waiting flag is
      cleared and the phase moves on as `PhaseAfterInput` says.
     */
    method SendInput(id: string, writeOk: bool) returns (ok: bool)
      requires Valid()
      modifies reg, this
      ensures Valid()
      ensures ok <==> id in old(reg.processes) && old(reg.processes[id]) == Alive && writeOk
      ensures ok ==> reg.sessions == old(reg.sessions)[id := old(reg.sessions[id]).(waiting := false)]
      ensures ok && id in old(phases) ==> phases == old(phases)[id := PhaseAfterInput(old(phases[id]))]
      ensures ok && id !in old(phases) ==> phases == old(phases)
      ensures !ok ==> reg.sessions == old(reg.sessions) && phases == old(phases)
      ensures reg.queues == old(reg.queues) && reg.processes == old(reg.processes) && reg.cancelled == old(reg.cancelled)
    {
      if id !in reg.processes || reg.processes[id] != Alive || !writeOk {
        return false;
      }
      reg.SetWaiting(id, false);
      if id in phases {
        phases := phases[id := PhaseAfterInput(phases[id])];
      }
      ok := true;
    }

    /** `get_output`: the oldest queued message, or None. */
    method GetOutput(id: string) returns (out: Option<string>)
      requires Valid()
      modifies reg
      ensures Valid()
      ensures id in old(reg.queues) && old(reg.queues[id]) != [] ==>
        out == Some(old(reg.queues[id])[0]) && reg.queues == old(reg.queues)[id := old(reg.queues[id])[1..]]
      ensures !(id in old(reg.queues) && old(reg.queues[id]) != []) ==> out == None && reg.queues == old(reg.queues)
      ensures reg.sessions == old(reg.sessions) && reg.processes == old(reg.processes) && reg.cancelled == old(reg.cancelled)
    {
      out := reg.Take(id);
    }

    /** `get_all_output`: every queued message in FIFO order; the queue is left empty. */
    method GetAllOutput(id: string) returns (outs: seq<string>)
      requires Valid()
      modifies reg
      ensures Valid()
      ensures id in old(reg.queues) ==> outs == old(reg.queues[id]) && reg.queues == old(reg.queues)[id := []]
      ensures id !in old(reg.queues) ==> outs == [] && reg.queues == old(reg.queues)
      ensures reg.sessions == old(reg.sessions) && reg.processes == old(reg.processes) && reg.cancelled == old(reg.cancelled)
    {
      outs := reg.Drain(id);
    }

    /** `is_running`. */
    method IsRunning(id: string) returns (b: bool)
      ensures b <==> id in reg.sessions && reg.sessions[id].status in {Starting, Running}
    {
      b := reg.IsActive(id);
    }

    /** `is_waiting_for_input`. */
    method IsWaitingForInput(id: string) returns (b: bool)
      ensures b <==> id in reg.sessions && reg.sessions[id].waiting
    {
      b := reg.IsWaiting(id);
    }
  }

  /** A stopped session is no longer running, whatever its status was. */
  method StopEndsRunning(svc: CalibrationService, id: string) returns (stopped: bool, running: bool)
    requires svc.Valid() && id in svc.reg.processes
    modifies svc.reg, svc
    ensures stopped && !running
  {
    stopped := svc.Stop(id);
    running := svc.IsRunning(id);
  }
}
