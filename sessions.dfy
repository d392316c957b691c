/**
  What the five subprocess services (calibration, teleoperation, motor setup,
  dataset recording, dataset replay) have in common: the observed state of the
  child process, the session record, the end-of-process report, the splitting
  of a terminal chunk into lines, and the registry of parallel maps
  (`active_sessions`, `output_queues`, `active_processes`, `cancelled_sessions`)
  with the operations each service performs on it in the same way.

  Concurrency: every method of a registry is one atomic step. The monitor thread
  of a service is modelled as a sequence of such steps (begin, one step per
  chunk read from the terminal, finish), so an interleaving of request handlers
  and monitor threads is a sequence of method calls.
 */
module Sessions {
  import opened Text
  import opened Ansi

  /** What `process.poll()` reports: `None` while the child runs, its exit code afterwards. */
  datatype ProcessState = Alive | Exited(code: int)

  /** The "status" field of a session: "starting", "running", "completed", "failed". */
  datatype Status = Starting | Running | Completed | Failed

  /** A session record: its status, its "waiting_for_input" flag (absent reads as False) and its "output" log. */
  datatype Session = Session(status: Status, waiting: bool, output: seq<string>)

  /** `status in ["starting", "running"]`. */
  predicate IsActiveStatus(st: Status) {
    st == Starting || st == Running
  }

  /** `str(process.poll())` as written into a failure message. */
  function PollText(p: ProcessState): (r: string)
    ensures p.Alive? <==> r == "None"
  {
    match p
    case Alive => "None"
    case Exited(code) => IntToString(code)
  }

  /** How the end of a monitored process is reported: the status to set (if any) and the message to post. */
  datatype EndReport = EndReport(newStatus: Option<Status>, message: string)

  /**
    End-of-process resolution shared by the services: a cancelled session only
    gets "<activity> cancelled by user"; otherwise exit code 0 completes it and
    anything else (including a process that is still running) fails it with its
    exit code.
   */
  function ResolveEnd(activity: string, poll: ProcessState, cancelled: bool): (r: EndReport)
    ensures r.newStatus == None <==> cancelled
    ensures r.newStatus == Some(Completed) <==> !cancelled && poll == Exited(0)
    ensures r.newStatus == Some(Failed) <==> !cancelled && poll != Exited(0)
    ensures cancelled ==> r.message == activity + " cancelled by user"
    ensures r.newStatus == Some(Completed) ==> r.message == activity + " completed successfully!"
    ensures r.newStatus == Some(Failed) ==> r.message == activity + " failed with exit code " + PollText(poll)
  {
    if cancelled then EndReport(None, activity + " cancelled by user")
    else if poll == Exited(0) then EndReport(Some(Completed), activity + " completed successfully!")
    else EndReport(Some(Failed), activity + " failed with exit code " + PollText(poll))
  }

  /** Distinct failing exit codes give distinct failure messages, so the log tells them apart. */
  lemma ResolveEndDistinguishesCodes(activity: string, a: int, b: int)
    requires a != 0 && b != 0 && a != b
    ensures ResolveEnd(activity, Exited(a), false).message != ResolveEnd(activity, Exited(b), false).message
  {
    var pa, pb := activity + " failed with exit code ", activity + " failed with exit code ";
    var ma, mb := ResolveEnd(activity, Exited(a), false).message, ResolveEnd(activity, Exited(b), false).message;
    assert ma == pa + IntToString(a) && ma[|pa|..] == IntToString(a);
    assert mb == pb + IntToString(b) && mb[|pb|..] == IntToString(b);
    IntToStringInjective(a, b);
  }

  /**
    The text `str(e)` of the `KeyError` raised when a monitor looks up an id
    that is gone: `repr(id)`, from which the id can be read back.
   */
  function KeyErrorText(id: string): (r: string)
    ensures Unrepr(r) == Some(id)
    ensures r[0] == r[|r| - 1] == (if '\'' in id && '"' !in id then '"' else '\'')
  {
    ReprRoundTrip(id);
    Repr(id)
  }

  /** Strip every piece and keep the non-empty ones, in order. */
  function NonBlank(pieces: seq<string>): (r: seq<string>)
    ensures |r| <= |pieces|
    ensures forall k :: 0 <= k < |r| ==> r[k] != [] && !IsSpace(r[k][0]) && !IsSpace(r[k][|r[k]| - 1])
  {
    if pieces == [] then []
    else
      var l := Strip(pieces[0]);
      var rest := NonBlank(pieces[1..]);
      if l == [] then rest else [l] + rest
  }

  /** A character absent from every piece is absent from every kept line. */
  lemma {:induction false} NonBlankAvoids(pieces: seq<string>, c: char)
    requires forall j :: 0 <= j < |pieces| ==> c !in pieces[j]
    ensures forall k :: 0 <= k < |NonBlank(pieces)| ==> c !in NonBlank(pieces)[k]
  {
    if pieces != [] {
      NonBlankAvoids(pieces[1..], c);
      assert c !in pieces[0];
    }
  }

  /** The lines a monitor handles for one chunk read from the terminal: split on '\n', stripped, non-empty. */
  function ChunkLines(text: string): (r: seq<string>)
    ensures forall k :: 0 <= k < |r| ==> r[k] != [] && '\n' !in r[k]
    ensures forall k :: 0 <= k < |r| ==> !IsSpace(r[k][0]) && !IsSpace(r[k][|r[k]| - 1])
  {
    NonBlankAvoids(Split(text, '\n'), '\n');
    NonBlank(Split(text, '\n'))
  }

  /** The messages the recording and replay monitors post for a chunk: each line with its escape sequences removed, dropped when nothing remains. */
  function CleanedMessages(lines: seq<string>): (r: seq<string>)
    ensures |r| <= |lines|
    ensures forall k :: 0 <= k < |r| ==> r[k] != []
    ensures (forall k :: 0 <= k < |lines| ==> '\n' !in lines[k]) ==> forall k :: 0 <= k < |r| ==> '\n' !in r[k]
  {
    if lines == [] then []
    else
      var c := StripEscapes(lines[0]);
      StripEscapesChars(lines[0], '\n');
      var rest := CleanedMessages(lines[1..]);
      if c == [] then rest else [c] + rest
  }

  /** Lines without escape sequences are posted exactly as they are. */
  lemma {:induction false} CleanedMessagesPlain(lines: seq<string>)
    requires forall k :: 0 <= k < |lines| ==> lines[k] != [] && ESC !in lines[k]
    ensures CleanedMessages(lines) == lines
  {
    if lines != [] {
      CleanedMessagesPlain(lines[1..]);
    }
  }

  /** Two updates of one key: the second wins. */
  lemma UpdateTwice<K, V>(m: map<K, V>, k: K, a: V, b: V)
    ensures m[k := a][k := b] == m[k := b]
  {
  }

  /** Removing a key and then setting it is setting it. */
  lemma RemoveThenUpdate<K, V>(m: map<K, V>, k: K, v: V)
    ensures (m - {k})[k := v] == m[k := v]
  {
  }

  /**
    The registry every service keeps: sessions, their output queues (messages
    in FIFO order), their processes and the set of cancelled ids.
   */
  class Registry {
    var sessions: map<string, Session>
    var queues: map<string, seq<string>>
    var processes: map<string, ProcessState>
    var cancelled: set<string>

    /** A session and its queue are created and removed together; a process exists only for a session. */
    ghost predicate Valid()
      reads this
    {
      processes.Keys <= sessions.Keys && sessions.Keys == queues.Keys
    }

    constructor()
      ensures Valid()
      ensures sessions == map[] && queues == map[] && processes == map[] && cancelled == {}
    {
      sessions := map[];
      queues := map[];
      processes := map[];
      cancelled := {};
    }

    /** `is_running`: the session exists and its status is "starting" or "running". */
    predicate IsActive(id: string)
      reads this
    {
      id in sessions && IsActiveStatus(sessions[id].status)
    }

    /** `is_waiting_for_input`: false for an unknown id, else the flag. */
    predicate IsWaiting(id: string)
      reads this
    {
      id in sessions && sessions[id].waiting
    }

    /** The start of `start_*` up to spawning: forget an earlier cancellation, create an empty queue and a "starting" session. */
    method Open(id: string)
      requires Valid()
      modifies this
      ensures Valid()
      ensures cancelled == old(cancelled) - {id}
      ensures queues == old(queues)[id := []]
      ensures sessions == old(sessions)[id := Session(Starting, false, [])]
      ensures processes == old(processes)
    {
      cancelled := cancelled - {id};
      queues := queues[id := []];
      sessions := sessions[id := Session(Starting, false, [])];
    }

    /**
      The start of `start_*` when an earlier session may hold the id: its
      process is stopped and removed first (when there is one), then the
      session is opened afresh. The earlier cancellation is forgotten either way.
     */
    method Restart(id: string) returns (stopped: bool)
      requires Valid()
      modifies this
      ensures Valid()
      ensures stopped <==> id in old(processes)
      ensures sessions == old(sessions)[id := Session(Starting, false, [])]
      ensures queues == old(queues)[id := []]
      ensures processes == old(processes) - {id}
      ensures cancelled == old(cancelled) - {id}
    {
      stopped := false;
      if id in processes {
        stopped := Remove(id);
      }
      Open(id);
    }

    /**
      The whole of `start_*` on the maps: restart the id, then either record
      the spawned process and post the start message, or (spawn failed) leave
      the fresh session without a process.
     */
    method Launch(id: string, startMsg: string, spawnOk: bool) returns (stopped: bool)
      requires Valid()
      modifies this
      ensures Valid()
      ensures stopped <==> id in old(processes)
      ensures var log := if spawnOk then [startMsg] else [];
        && sessions == old(sessions)[id := Session(Starting, false, log)]
        && queues == old(queues)[id := log]
      ensures processes == if spawnOk then old(processes)[id := Alive] else old(processes) - {id}
      ensures cancelled == old(cancelled) - {id}
    {
      stopped := Restart(id);
      if spawnOk {
        Attach(id);
        RemoveThenUpdate(old(processes), id, Alive);
        Post(id, startMsg);
        assert [] + [startMsg] == [startMsg];
        UpdateTwice(old(sessions), id, Session(Starting, false, []), Session(Starting, false, [startMsg]));
        UpdateTwice(old(queues), id, [], [startMsg]);
      }
    }

    /** The spawned process is recorded under the id. */
    method Attach(id: string)
      requires Valid() && id in sessions
      modifies this
      ensures Valid()
      ensures processes == old(processes)[id := Alive]
      ensures sessions == old(sessions) && queues == old(queues) && cancelled == old(cancelled)
    {
      processes := processes[id := Alive];
    }

    /** The operating system reports that the process of `id` ended with `code`. */
    method Exit(id: string, code: int)
      requires Valid()
      modifies this
      ensures Valid()
      ensures id in old(processes) ==> processes == old(processes)[id := Exited(code)]
      ensures id !in old(processes) ==> processes == old(processes)
      ensures sessions == old(sessions) && queues == old(queues) && cancelled == old(cancelled)
    {
      if id in processes {
        processes := processes[id := Exited(code)];
      }
    }

    /**
      `_add_output`: the message goes to the end of the queue and of the session
      log; an id without a queue is ignored.
     */
    method Post(id: string, msg: string)
      requires Valid()
      modifies this
      ensures Valid()
      ensures id in old(queues) ==> queues == old(queues)[id := old(queues[id]) + [msg]]
      ensures id !in old(queues) ==> queues == old(queues)
      ensures id in old(sessions) ==>
        sessions == old(sessions)[id := old(sessions[id]).(output := old(sessions[id]).output + [msg])]
      ensures id !in old(sessions) ==> sessions == old(sessions)
      ensures processes == old(processes) && cancelled == old(cancelled)
    {
      if id in queues {
        queues := queues[id := queues[id] + [msg]];
        if id in sessions {
          var s := sessions[id];
          sessions := sessions[id := s.(output := s.output + [msg])];
        }
      }
    }

    /** Posts several messages in order. */
    method PostAll(id: string, msgs: seq<string>)
      requires Valid()
      modifies this
      ensures Valid()
      ensures id in old(queues) ==> queues == old(queues)[id := old(queues[id]) + msgs]
      ensures id !in old(queues) ==> queues == old(queues)
      ensures id in old(sessions) ==>
        sessions == old(sessions)[id := old(sessions[id]).(output := old(sessions[id]).output + msgs)]
      ensures id !in old(sessions) ==> sessions == old(sessions)
      ensures processes == old(processes) && cancelled == old(cancelled)
    {
      var i := 0;
      assert msgs[..0] == [];
      if id in queues {
        assert queues[id] + msgs[..0] == queues[id];
      }
      if id in sessions {
        assert sessions[id].output + msgs[..0] == sessions[id].output;
      }
      while i < |msgs|
        invariant 0 <= i <= |msgs|
        invariant Valid()
        invariant id in old(queues) ==> queues == old(queues)[id := old(queues[id]) + msgs[..i]]
        invariant id !in old(queues) ==> queues == old(queues)
        invariant id in old(sessions) ==>
          sessions == old(sessions)[id := old(sessions[id]).(output := old(sessions[id]).output + msgs[..i])]
        invariant id !in old(sessions) ==> sessions == old(sessions)
        invariant processes == old(processes) && cancelled == old(cancelled)
      {
        Post(id, msgs[i]);
        assert msgs[..i + 1] == msgs[..i] + [msgs[i]];
        assert id in old(queues) ==> old(queues[id]) + msgs[..i + 1] == old(queues[id]) + msgs[..i] + [msgs[i]];
        assert id in old(sessions) ==> old(sessions[id]).output + msgs[..i + 1] == old(sessions[id]).output + msgs[..i] + [msgs[i]];
        i := i + 1;
      }
      assert msgs[..i] == msgs;
    }

    /** `get_all_output`: take every queued message, oldest first, leaving the queue empty; an unknown id yields nothing. */
    method Drain(id: string) returns (outs: seq<string>)
      requires Valid()
      modifies this
      ensures Valid()
      ensures id in old(queues) ==> outs == old(queues[id]) && queues == old(queues)[id := []]
      ensures id !in old(queues) ==> outs == [] && queues == old(queues)
      ensures sessions == old(sessions) && processes == old(processes) && cancelled == old(cancelled)
    {
      outs := [];
      if id !in queues {
        return;
      }
      while queues[id] != []
        invariant id in queues
        invariant outs + queues[id] == old(queues[id])
        invariant queues == old(queues)[id := queues[id]]
        invariant sessions == old(sessions) && processes == old(processes) && cancelled == old(cancelled)
        decreases |queues[id]|
      {
        var q := queues[id];
        outs := outs + [q[0]];
        queues := queues[id := q[1..]];
        assert outs + queues[id] == (outs[..|outs| - 1] + [q[0]]) + q[1..];
      }
    }

    /** `get_output`: take the oldest queued message, if any. */
    method Take(id: string) returns (out: Option<string>)
      requires Valid()
      modifies this
      ensures Valid()
      ensures id in old(queues) && old(queues[id]) != [] ==>
        out == Some(old(queues[id])[0]) && queues == old(queues)[id := old(queues[id])[1..]]
      ensures !(id in old(queues) && old(queues[id]) != []) ==> out == None && queues == old(queues)
      ensures sessions == old(sessions) && processes == old(processes) && cancelled == old(cancelled)
    {
      if id in queues && queues[id] != [] {
        out := Some(queues[id][0]);
        queues := queues[id := queues[id][1..]];
      } else {
        out := None;
      }
    }

    /**
      The common part of `stop_*`: an id without a process is refused and
      nothing changes; otherwise it is marked cancelled and removed from the
      process, queue and session maps (terminating the child is not modelled
      beyond its removal).
     */
    method Remove(id: string) returns (ok: bool)
      requires Valid()
      modifies this
      ensures Valid()
      ensures ok <==> id in old(processes)
      ensures !ok ==> sessions == old(sessions) && queues == old(queues)
                      && processes == old(processes) && cancelled == old(cancelled)
      ensures ok ==> cancelled == old(cancelled) + {id}
                     && processes == old(processes) - {id}
                     && queues == old(queues) - {id}
                     && sessions == old(sessions) - {id}
    {
      if id !in processes {
        return false;
      }
      cancelled := cancelled + {id};
      processes := processes - {id};
      queues := queues - {id};
      sessions := sessions - {id};
      ok := true;
    }

    /** Set the status of an existing session. */
    method SetStatus(id: string, st: Status)
      requires Valid() && id in sessions
      modifies this
      ensures Valid()
      ensures sessions == old(sessions)[id := old(sessions[id]).(status := st)]
      ensures queues == old(queues) && processes == old(processes) && cancelled == old(cancelled)
    {
      sessions := sessions[id := sessions[id].(status := st)];
    }

    /** Set the waiting flag of an existing session. */
    method SetWaiting(id: string, w: bool)
      requires Valid() && id in sessions
      modifies this
      ensures Valid()
      ensures sessions == old(sessions)[id := old(sessions[id]).(waiting := w)]
      ensures queues == old(queues) && processes == old(processes) && cancelled == old(cancelled)
    {
      sessions := sessions[id := sessions[id].(waiting := w)];
    }

    /**
      First step of a monitor thread: look the process up (a `KeyError` when it
      is gone) and mark the session "running". Reports whether the monitor goes
      on; `reportErrors` says whether the failure branch runs (it posts
      "<activity> monitoring error: …" and fails the session when the session is
      still there).
     */
    method BeginMonitor(id: string, activity: string, reportErrors: bool) returns (goesOn: bool)
      requires Valid()
      modifies this
      ensures Valid()
      ensures goesOn <==> id in old(processes)
      ensures goesOn ==> sessions == old(sessions)[id := old(sessions[id]).(status := Running)]
                         && queues == old(queues)
      ensures !goesOn && reportErrors && id in old(sessions) ==>
        queues == old(queues)[id := old(queues[id]) + [activity + " monitoring error: " + KeyErrorText(id)]]
        && sessions == old(sessions)[id := old(sessions[id]).(status := Failed,
                                                             output := old(sessions[id]).output + [activity + " monitoring error: " + KeyErrorText(id)])]
      ensures !goesOn && !(reportErrors && id in old(sessions)) ==>
        sessions == old(sessions) && queues == old(queues)
      ensures processes == old(processes) && cancelled == old(cancelled)
    {
      if id in processes {
        sessions := sessions[id := sessions[id].(status := Running)];
        return true;
      }
      goesOn := false;
      if reportErrors && id in sessions {
        Post(id, activity + " monitoring error: " + KeyErrorText(id));
        sessions := sessions[id := sessions[id].(status := Failed)];
      }
    }

    /**
      Last step of a monitor thread once the process has ended: resolve the
      report against the cancelled set, set the status of a session that still
      exists, and post the message.
     */
    method Finish(id: string, activity: string, poll: ProcessState)
      requires Valid()
      modifies this
      ensures Valid()
      ensures var rep := ResolveEnd(activity, poll, id in old(cancelled));
        && (id in old(queues) ==> queues == old(queues)[id := old(queues[id]) + [rep.message]])
        && (id !in old(queues) ==> queues == old(queues))
        && (id in old(sessions) ==>
              sessions == old(sessions)[id := Session(
                if rep.newStatus.Some? then rep.newStatus.value else old(sessions[id]).status,
                old(sessions[id]).waiting,
                old(sessions[id]).output + [rep.message])])
        && (id !in old(sessions) ==> sessions == old(sessions))
      ensures processes == old(processes) && cancelled == old(cancelled)
    {
      var rep := ResolveEnd(activity, poll, id in cancelled);
      if rep.newStatus.Some? && id in sessions {
        sessions := sessions[id := sessions[id].(status := rep.newStatus.value)];
      }
      Post(id, rep.message);
    }
  }

  /** Stopping twice: the second stop of the same id is refused. */
  method StopTwice(r: Registry, id: string) returns (first: bool, second: bool)
    requires r.Valid() && id in r.processes
    modifies r
    ensures r.Valid()
    ensures first && !second
    ensures id !in r.sessions && id !in r.queues && id !in r.processes && id in r.cancelled
  {
    first := r.Remove(id);
    second := r.Remove(id);
  }
}
