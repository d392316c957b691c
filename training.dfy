/**
  The model-training service: one `lerobot.scripts.train` run at a time, its
  output buffer, its running/completed/error state, and the Weights & Biases
  link found in the output.
 */
module Training {
  import opened Text

  /** `TrainingConfig`. */
  datatype Config = Config(
    repoId: string, policyType: string, outputDir: string, jobName: string,
    policyDevice: string, wandbEnable: bool, resume: bool)

  /** A reply dictionary: `{"message": …}` or `{"error": …}`. */
  datatype Reply = Message(text: string) | Error(text: string)

  /** What `get_status` returns (the start time is the clock reading taken at start). */
  datatype Status = Status(
    running: bool, completed: bool, error: Option<string>, output: seq<string>,
    startTime: Option<int>, wandbLink: Option<string>)

  /** `os.path.join(dir, rel)` for a relative, non-empty `rel`. */
  function PathJoin(dir: string, rel: string): (p: string)
    ensures dir == [] ==> p == rel
    ensures dir != [] ==> IsPrefix(dir, p) && |p| > |rel| && p[|p| - |rel|..] == rel && p[|p| - |rel| - 1] == '/'
  {
    if dir == [] then rel
    else if dir[|dir| - 1] == '/' then dir + rel
    else dir + "/" + rel
  }

  const CheckpointDir := "checkpoints/last/pretrained_model"

  /** The training command; resuming adds the checkpoint of the last run. */
  function Command(c: Config): seq<string> {
    ["python", "-m", "lerobot.scripts.train",
     "--dataset.repo_id=" + c.repoId, "--policy.type=" + c.policyType,
     "--output_dir=" + c.outputDir, "--job_name=" + c.jobName,
     "--policy.device=" + c.policyDevice,
     "--wandb.enable=" + BoolText(c.wandbEnable), "--resume=" + BoolText(c.resume)]
    + (if c.resume then ["--policy.checkpoint_path=" + PathJoin(c.outputDir, CheckpointDir)] else [])
  }

  /**
    The command has ten arguments, and an eleventh, the checkpoint under the
    output directory, exactly when resuming; the booleans are "true"/"false".
   */
  lemma CommandSpec(c: Config)
    ensures var cmd := Command(c);
      && |cmd| == (if c.resume then 11 else 10)
      && cmd[8] == "--wandb.enable=" + (if c.wandbEnable then "true" else "false")
      && cmd[9] == "--resume=" + (if c.resume then "true" else "false")
      && (c.resume ==> cmd[10] == "--policy.checkpoint_path=" + PathJoin(c.outputDir, CheckpointDir))
  {
  }

  // ----- the Weights & Biases link: `re.search(r'(https://wandb\.ai/[^\s]+)', line)` -----

  const WandbPrefix := "https://wandb.ai/"

  /** The longest prefix of `s` without whitespace. */
  function NonSpaceRun(s: string): (r: string)
    ensures IsPrefix(r, s)
    ensures forall k :: 0 <= k < |r| ==> !IsSpace(r[k])
    ensures |r| == |s| || IsSpace(s[|r|])
  {
    if s == [] || IsSpace(s[0]) then [] else [s[0]] + NonSpaceRun(s[1..])
  }

  /** A match of the pattern begins at `i`: the prefix, then at least one non-whitespace character. */
  predicate LinkAt(line: string, i: int) {
    OccursAt(line, WandbPrefix, i) && i + |WandbPrefix| < |line| && !IsSpace(line[i + |WandbPrefix|])
  }

  /** The match found by scanning from `i` on: the leftmost start, extended over every non-whitespace character. */
  function SearchFrom(line: string, i: nat): Option<string>
    decreases |line| - i
  {
    if i >= |line| then None
    else if LinkAt(line, i) then Some(WandbPrefix + NonSpaceRun(line[i + |WandbPrefix|..]))
    else SearchFrom(line, i + 1)
  }

  function Search(line: string): Option<string> {
    SearchFrom(line, 0)
  }

  /**
    The search finds a link exactly when some position starts one, and then
    it is the link at the leftmost such position: the prefix followed by every
    character up to the next whitespace.
   */
  lemma {:induction false} SearchFromSpec(line: string, i: nat)
    ensures SearchFrom(line, i).None? <==> forall j :: i <= j < |line| ==> !LinkAt(line, j)
    ensures SearchFrom(line, i).Some? ==>
      exists j :: i <= j < |line| && LinkAt(line, j) && (forall m :: i <= m < j ==> !LinkAt(line, m))
                  && SearchFrom(line, i).value == WandbPrefix + NonSpaceRun(line[j + |WandbPrefix|..])
    decreases |line| - i
  {
    if i < |line| && !LinkAt(line, i) {
      SearchFromSpec(line, i + 1);
      if SearchFrom(line, i + 1).Some? {
        var j :| i + 1 <= j < |line| && LinkAt(line, j) && (forall m :: i + 1 <= m < j ==> !LinkAt(line, m))
                 && SearchFrom(line, i + 1).value == WandbPrefix + NonSpaceRun(line[j + |WandbPrefix|..]);
        assert forall m :: i <= m < j ==> !LinkAt(line, m);
      }
    }
  }

  /**
    A found link is the prefix followed by a non-empty run of non-whitespace
    characters, which ends where the line ends or at whitespace.
   */
  lemma SearchShape(line: string)
    requires Search(line).Some?
    ensures var l := Search(line).value;
      && |l| > |WandbPrefix| && l[..|WandbPrefix|] == WandbPrefix
      && (forall k :: |WandbPrefix| <= k < |l| ==> !IsSpace(l[k]))
      && exists j :: 0 <= j < |line| && OccursAt(line, l, j) && (j + |l| == |line| || IsSpace(line[j + |l|]))
  {
    SearchFromSpec(line, 0);
    var j :| 0 <= j < |line| && LinkAt(line, j) && (forall m :: 0 <= m < j ==> !LinkAt(line, m))
             && Search(line).value == WandbPrefix + NonSpaceRun(line[j + |WandbPrefix|..]);
    RunShape(line, j);
  }

  lemma RunShape(line: string, j: int)
    requires 0 <= j < |line| && LinkAt(line, j)
    ensures var l := WandbPrefix + NonSpaceRun(line[j + |WandbPrefix|..]);
      && |l| > |WandbPrefix| && l[..|WandbPrefix|] == WandbPrefix
      && (forall k :: |WandbPrefix| <= k < |l| ==> !IsSpace(l[k]))
      && OccursAt(line, l, j) && (j + |l| == |line| || IsSpace(line[j + |l|]))
  {
    var n := |WandbPrefix|;
    var rest := line[j + n..];
    var run := NonSpaceRun(rest);
    assert rest[0] == line[j + n];
    assert |run| > 0;
    var l := WandbPrefix + run;
    assert l[..n] == WandbPrefix;
    assert forall k :: n <= k < |l| ==> l[k] == run[k - n];
    assert line[j..j + n] == WandbPrefix;
    assert line[j + n..j + n + |run|] == run;
    assert line[j..j + |l|] == line[j..j + n] + line[j + n..j + n + |run|];
    assert |run| == |rest| || line[j + |l|] == rest[|run|];
  }

  /** `_extract_wandb_link` as a function: the link of the first line that has one. */
  function FirstLink(lines: seq<string>): Option<string> {
    if lines == [] then None
    else if Search(lines[0]).Some? then Search(lines[0])
    else FirstLink(lines[1..])
  }

  /** The first link comes from the first line holding a link; there is none exactly when no line holds one. */
  lemma {:induction false} FirstLinkSpec(lines: seq<string>)
    ensures FirstLink(lines).None? <==> forall j :: 0 <= j < |lines| ==> Search(lines[j]).None?
    ensures FirstLink(lines).Some? ==>
      exists j :: 0 <= j < |lines| && FirstLink(lines) == Search(lines[j])
                  && forall m :: 0 <= m < j ==> Search(lines[m]).None?
  {
    if lines != [] && Search(lines[0]).None? {
      FirstLinkSpec(lines[1..]);
      assert forall j :: 1 <= j < |lines| ==> lines[j] == lines[1..][j - 1];
      if FirstLink(lines).Some? {
        var j :| 0 <= j < |lines[1..]| && FirstLink(lines[1..]) == Search(lines[1..][j])
                 && forall m :: 0 <= m < j ==> Search(lines[1..][m]).None?;
        assert FirstLink(lines) == Search(lines[j + 1]);
        assert forall m :: 0 <= m < j + 1 ==> Search(lines[m]).None? by {
          forall m | 0 <= m < j + 1
            ensures Search(lines[m]).None?
          {
            if m > 0 {
              assert lines[m] == lines[1..][m - 1];
            }
          }
        }
      }
    } else if lines != [] {
      assert FirstLink(lines) == Search(lines[0]);
    }
  }

  class TrainingService {
    var hasProcess: bool
    var output: seq<string>
    var running: bool
    var completed: bool
    var error: Option<string>
    var startTime: Option<int>

    constructor()
      ensures !hasProcess && output == [] && !running && !completed && error == None && startTime == None
    {
      hasProcess := false;
      output := [];
      running := false;
      completed := false;
      error := None;
      startTime := None;
    }

    /**
      `start_training`: refused while a run is going on, with nothing changed.
      Otherwise the buffer is emptied, the run marked running and not
      completed, the error cleared and the clock read; a spawn that fails ends
      not running with the error recorded. `envToken` is the `HF_TOKEN` given
      to the child (only a non-empty token is set).
     */
    method Start(c: Config, token: Option<string>, now: int, spawnOk: bool, spawnError: string)
      returns (reply: Reply, command: seq<string>, envToken: Option<string>)
      modifies this
      ensures old(running) ==>
        && reply == Error("Training is already running")
        && output == old(output) && running && completed == old(completed) && error == old(error)
        && startTime == old(startTime) && hasProcess == old(hasProcess)
      ensures !old(running) ==>
        && command == Command(c)
        && envToken == (if token.Some? && token.value != [] then token else None)
        && output == [] && !completed && startTime == Some(now)
        && (spawnOk ==> reply == Message("Training started successfully") && running && error == None && hasProcess)
        && (!spawnOk ==> reply == Error("Failed to start training: " + spawnError) && !running
                         && error == Some(spawnError) && hasProcess == old(hasProcess))
    {
      command, envToken := [], None;
      if running {
        return Error("Training is already running"), command, envToken;
      }
      output := [];
      running := true;
      completed := false;
      error := None;
      startTime := Some(now);
      command := Command(c);
      if token.Some? && token.value != [] {
        envToken := token;
      }
      if !spawnOk {
        running := false;
        error := Some(spawnError);
        return Error("Failed to start training: " + spawnError), command, envToken;
      }
      hasProcess := true;
      reply := Message("Training started successfully");
    }

    /**
      `stop_training`: with no run going on or no process nothing changes;
      otherwise the run stops and the buffer records it. The process handle is
      kept, as the source does.
     */
    method Stop() returns (reply: Reply)
      modifies this
      ensures !(old(running) && old(hasProcess)) ==>
        && reply == Message("No training process to stop")
        && output == old(output) && running == old(running)
      ensures old(running) && old(hasProcess) ==>
        && reply == Message("Training stopped successfully")
        && output == old(output) + ["Training stopped by user"] && !running
      ensures hasProcess == old(hasProcess) && completed == old(completed) && error == old(error)
        && startTime == old(startTime)
    {
      if !running || !hasProcess {
        return Message("No training process to stop");
      }
      running := false;
      output := output + ["Training stopped by user"];
      reply := Message("Training stopped successfully");
    }

    /** `_extract_wandb_link`: scan the buffer's lines in order and return the first link found. */
    method ExtractWandbLink() returns (link: Option<string>)
      ensures link == FirstLink(output)
    {
      var i := 0;
      while i < |output|
        invariant 0 <= i <= |output|
        invariant FirstLink(output) == FirstLink(output[i..])
      {
        assert output[i..][0] == output[i] && output[i..][1..] == output[i + 1..];
        var m := Search(output[i]);
        if m.Some? {
          return m;
        }
        i := i + 1;
      }
      return None;
    }

    /** `get_status`: the state, a copy of the buffer and the link found in it. */
    method GetStatus() returns (s: Status)
      ensures s == Status(running, completed, error, output, startTime, FirstLink(output))
    {
      var link := ExtractWandbLink();
      s := Status(running, completed, error, output, startTime, link);
    }

    /** `clear_output`. */
    method ClearOutput()
      modifies this
      ensures output == [] && running == old(running) && completed == old(completed) && error == old(error)
        && hasProcess == old(hasProcess) && startTime == old(startTime)
    {
      output := [];
    }

    /** The monitor reads lines: each is appended, right-stripped, in order. A monitor without a process does nothing. */
    method ReadLines(lines: seq<string>)
      modifies this
      ensures hasProcess ==> output == old(output) + seq(|lines|, k requires 0 <= k < |lines| => RStrip(lines[k]))
      ensures !hasProcess ==> output == old(output)
      ensures hasProcess == old(hasProcess) && running == old(running) && completed == old(completed)
        && error == old(error) && startTime == old(startTime)
    {
      if !hasProcess {
        return;
      }
      var buffer := output;
      var i := 0;
      while i < |lines|
        invariant 0 <= i <= |lines|
        invariant buffer == old(output) + seq(i, k requires 0 <= k < i => RStrip(lines[k]))
      {
        buffer := buffer + [RStrip(lines[i])];
        i := i + 1;
      }
      output := buffer;
    }

    /**
      The monitor once the output has ended with `code`: exit 0 completes the
      run with a message, anything else records the failure; either way the run
      is no longer going on and the process handle is dropped.
     */
    method Finish(code: int)
      requires hasProcess
      modifies this
      ensures code == 0 ==> completed && output == old(output) + ["Training completed successfully!"] && error == old(error)
      ensures code != 0 ==>
        && completed == old(completed) && output == old(output)
        && error == Some("Training failed with return code " + IntToString(code))
      ensures !running && !hasProcess && startTime == old(startTime)
    {
      if code == 0 {
        completed := true;
        output := output + ["Training completed successfully!"];
      } else {
        error := Some("Training failed with return code " + IntToString(code));
      }
      running := false;
      hasProcess := false;
    }

    /** The monitor when reading the output raised with message `e`. */
    method MonitorFailed(e: string)
      requires hasProcess
      modifies this
      ensures error == Some("Error monitoring training output: " + e)
      ensures !running && !hasProcess && output == old(output) && completed == old(completed) && startTime == old(startTime)
    {
      error := Some("Error monitoring training output: " + e);
      running := false;
      hasProcess := false;
    }
  }

  /** A refused start changes nothing observable: the status is the same before and after. */
  method RefusedStartKeepsStatus(t: TrainingService, c: Config, now: int)
    requires t.running
    modifies t
    ensures t.running
  {
    var before := t.GetStatus();
    var reply, _, _ := t.Start(c, None, now, true, "");
    var after := t.GetStatus();
    assert reply == Error("Training is already running");
    assert after == before;
  }
}
