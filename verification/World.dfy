/** The environment of the daemon: PAM, the kernel, logind, the clients and the signals that reach it.
    Every answer is arbitrary within what the operating system guarantees; every call is recorded. */
module Environment {
  import opened Text
  import opened Messages
  import opened Trace

  /** What `waitpid` says. */
  datatype Wait = Done(status: ExitStatus) | NotYet | Eintr | Echild

  class World {
    /** The lines on which the decoder throws, and the line that stands for a message. */
    const throws: string -> bool
    const wire: Message -> string
    var st: State
    ghost var log: seq<Event>
    ghost var pamSafe: bool
    ghost var safe: bool
    /** `Daemon::m_running`, which a signal handler may clear at any time. */
    var running: bool
    /** A signal has cleared it. */
    ghost var stopped: bool
    /** How many poll rounds and interrupted calls there are before a signal stops the daemon. */
    var budget: nat

    /** The fields are what the trace says they are. */
    ghost predicate Valid()
      reads this`log, this`st, this`pamSafe, this`safe
    {
      && st == Replay(log)
      && pamSafe == PamSafe(log)
      && safe == Safe(log)
      && Numbered(st)
      && (forall i :: 0 <= i < |log| && log[i].Request? ==> (log[i].throws <==> throws(log[i].line)))
      && (forall i :: 0 <= i < |log| && log[i].Reply? ==> log[i].line == wire(log[i].message))
    }

    /** `m_running` falls exactly by a signal, and the daemon's time only runs out. */
    twostate predicate Later()
      reads this
    {
      && (old(stopped) ==> stopped)
      && (running ==> old(running))
      && (old(running) && !running ==> stopped)
      && (stopped && !old(stopped) ==> !running)
      && budget <= old(budget)
    }

    /** Exactly this event happened, and possibly a signal. */
    twostate predicate Did(e: Event)
      reads this
    {
      && Valid()
      && Later()
      && log == old(log) + [e]
      && st == Step(old(st), e)
      && pamSafe == (old(pamSafe) && PamAllowed(old(st), e))
      && safe == (old(safe) && Allowed(old(st), e))
    }

    lemma HandlesAreNumbered()
      requires Valid()
      ensures Numbered(st)
    {
    }

    lemma FieldsTellTheTrace()
      requires Valid()
      ensures st == Replay(log) && pamSafe == PamSafe(log) && safe == Safe(log)
      ensures forall i :: 0 <= i < |log| && log[i].Request? ==> (log[i].throws <==> throws(log[i].line))
      ensures forall i :: 0 <= i < |log| && log[i].Reply? ==> log[i].line == wire(log[i].message)
    {
    }

    constructor (budget: nat, throws: string -> bool, wire: Message -> string)
      ensures this.throws == throws && this.wire == wire
      ensures Valid() && log == [] && st == START && safe && pamSafe
      ensures !running && !stopped && this.budget == budget
    {
      log, st, pamSafe, safe := [], START, true, true;
      running, stopped := false, false;
      this.budget := budget;
      this.throws, this.wire := throws, wire;
    }

    /** Records a call; a signal handler may run meanwhile. */
    method Record(e: Event)
      requires Valid() && Possible(st, e)
      requires (e.Request? ==> e.throws == throws(e.line)) && (e.Reply? ==> e.line == wire(e.message))
      modifies this
      ensures Did(e) && budget == old(budget)
    {
      hide Allowed, PamAllowed, Step, Replay, Safe, PamSafe, Possible, Numbered;
      StepNumbered(st, e);
      ReplayAppend(log, e);
      SafeAppend(log, e);
      log, pamSafe, safe := log + [e], pamSafe && PamAllowed(st, e), safe && Allowed(st, e);
      st := Step(st, e);
      Interrupt();
    }

    /** A signal handler may run. */
    method Interrupt()
      modifies this`running, this`stopped
      ensures Later()
    {
      var stop: bool := *;
      if stop {
        running, stopped := false, stopped || running;
      }
    }

    // -------------------------------------------------------------- PAM

    /** `pam_start`: a failure yields no handle. `asked` is the service the caller wanted. */
    method StartPam(service: string, user: string, asked: string) returns (h: nat)
      requires Valid()
      modifies this
      ensures h == 0 ==> Did(PamStartFailed(service, user))
      ensures h != 0 ==> h == old(st).started + 1 && Did(PamStart(h, service, asked, user))
    {
      var ok: bool := *;
      if ok {
        h := st.started + 1;
        Record(PamStart(h, service, asked, user));
      } else {
        h := 0;
        Record(PamStartFailed(service, user));
      }
    }

    method PamSetConversation(h: nat, password: string) returns (ok: bool)
      requires Valid()
      modifies this
      ensures Did(SetConversation(h, password, ok))
    {
      ok := *;
      Record(SetConversation(h, password, ok));
    }

    method PamAuthenticate(h: nat) returns (ok: bool)
      requires Valid()
      modifies this
      ensures Did(Authenticate(h, ok))
    {
      ok := *;
      Record(Authenticate(h, ok));
    }

    method PamAcctMgmt(h: nat) returns (ok: bool)
      requires Valid()
      modifies this
      ensures Did(AcctMgmt(h, ok))
    {
      ok := *;
      Record(AcctMgmt(h, ok));
    }

    /** `pam_setcred` with `PAM_ESTABLISH_CRED`. */
    method PamEstablishCred(h: nat) returns (ok: bool)
      requires Valid()
      modifies this
      ensures Did(EstablishCred(h, ok))
    {
      ok := *;
      Record(EstablishCred(h, ok));
    }

    /** `pam_setcred` with `PAM_DELETE_CRED`. */
    method PamDeleteCred(h: nat) returns (ok: bool)
      requires Valid()
      modifies this
      ensures Did(DeleteCred(h, ok))
    {
      ok := *;
      Record(DeleteCred(h, ok));
    }

    method PamOpenSession(h: nat) returns (ok: bool)
      requires Valid()
      modifies this
      ensures Did(OpenSession(h, ok))
    {
      ok := *;
      Record(OpenSession(h, ok));
    }

    method PamCloseSession(h: nat) returns (ok: bool)
      requires Valid()
      modifies this
      ensures Did(CloseSession(h, ok))
    {
      ok := *;
      Record(CloseSession(h, ok));
    }

    method PamPutEnv(h: nat, entry: string) returns (ok: bool)
      requires Valid()
      modifies this
      ensures Did(PutEnv(h, entry))
    {
      ok := *;
      Record(PutEnv(h, entry));
    }

    method PamGetEnvList(h: nat) returns (entries: seq<string>)
      requires Valid()
      modifies this
      ensures Did(GetEnvList(h, entries))
    {
      entries := *;
      Record(GetEnvList(h, entries));
    }

    method EndPam(h: nat)
      requires Valid()
      modifies this
      ensures Did(PamEnd(h))
    {
      Record(PamEnd(h));
    }

    /** `pam_strerror`: some text. */
    method ErrorText() returns (text: string)
    {
      text := *;
    }

    // -------------------------------------------------------------- processes

    /** `fork` in the parent: the child's pid, or a negative number. */
    method ForkChild(what: Launch) returns (pid: int)
      requires Valid()
      modifies this
      ensures pid < 0 ==> Did(ForkFailed(what))
      ensures pid >= 0 ==> pid > 0 && pid !in old(st).children && Did(Fork(pid, what))
    {
      hide World.Valid, Allowed, PamAllowed, Step;
      pid := *;
      if pid <= 0 || pid in st.children {
        pid := -1;
        Record(ForkFailed(what));
      } else {
        Record(Fork(pid, what));
      }
    }

    /** `kill(pid)`, or `kill(-pid)` for the group; any pid may be given. */
    method SendSignal(pid: int, signal: Signal, group: bool)
      requires Valid()
      modifies this
      ensures Did(Kill(pid, signal, group))
    {
      Record(Kill(pid, signal, group));
    }

    /** The process group and then the process itself. */
    method SendToBoth(pid: int, signal: Signal)
      requires Valid()
      modifies this
      ensures Valid() && Later()
      ensures log == old(log) + [Kill(pid, signal, true), Kill(pid, signal, false)]
      ensures st == old(st) && pamSafe == old(pamSafe)
      ensures safe == (old(safe) && pid in old(st).children)
    {
      hide World.Valid, Allowed, PamAllowed, Step;
      KillCall(st, pid);
      SendSignal(pid, signal, true);
      SendSignal(pid, signal, false);
    }

    /** `waitpid` with `WNOHANG`, which fails with ECHILD only. */
    method WaitNoHang(pid: int) returns (w: Wait)
      requires Valid()
      modifies this
      ensures !w.Eintr? && (w.Echild? <==> pid !in old(st).children)
      ensures w.Echild? ==> Did(NotAChild(pid))
      ensures w.NotYet? ==> Did(StillRunning(pid))
      ensures w.Done? ==> Did(Reaped(pid, w.status))
    {
      hide World.Valid, Allowed, PamAllowed, Step;
      w := *;
      if pid !in st.children {
        w := Echild;
        Record(NotAChild(pid));
      } else if w.Done? {
        Record(Reaped(pid, w.status));
      } else {
        w := NotYet;
        Record(StillRunning(pid));
      }
    }

    /** The blocking `waitpid` after SIGKILL, which no signal interrupts. */
    method WaitKilled(pid: int) returns (status: ExitStatus)
      requires Valid()
      modifies this
      ensures if pid in old(st).children then Did(Reaped(pid, status)) else Did(NotAChild(pid))
    {
      status := *;
      hide World.Valid, Allowed, PamAllowed, Step;
      if pid in st.children {
        Record(Reaped(pid, status));
      } else {
        Record(NotAChild(pid));
      }
    }

    /** The blocking `waitpid` that signals may interrupt, finitely often. */
    method WaitBlocking(pid: int) returns (w: Wait)
      requires Valid()
      modifies this
      ensures !w.NotYet? && (w.Echild? <==> pid !in old(st).children)
      ensures w.Echild? ==> Did(NotAChild(pid))
      ensures w.Eintr? ==> Did(Interrupted(pid)) && budget < old(budget)
      ensures w.Done? ==> Did(Reaped(pid, w.status))
    {
      hide World.Valid, Allowed, PamAllowed, Step;
      w := *;
      if pid !in st.children {
        w := Echild;
        Record(NotAChild(pid));
      } else if w.Eintr? && budget > 0 {
        budget := budget - 1;
        Record(Interrupted(pid));
      } else {
        var status: ExitStatus := *;
        w := Done(status);
        Record(Reaped(pid, status));
      }
    }

    // -------------------------------------------------------------- the socket and logind

    /** `poll` on the server socket. The signal that ends the run interrupts it at the latest when the
        budget is used up. */
    method PollSocket() returns (p: Poll)
      requires Valid()
      modifies this
      ensures Did(Polled(p))
      ensures budget < old(budget) || (!running && p == PollInterrupted)
    {
      hide World.Valid, Allowed, PamAllowed, Step;
      p := *;
      if budget == 0 {
        p := PollInterrupted;
        running, stopped := false, stopped || running;
      } else {
        budget := budget - 1;
      }
      Record(Polled(p));
    }

    /** `accept` on the server socket: nothing, or a connection with what its reads deliver, each less than
        `limit` bytes. */
    method AcceptClient(limit: nat) returns (chunks: Option<seq<string>>)
      requires Valid()
      modifies this
      ensures Did(Accepted(chunks))
      ensures chunks.Some? ==> forall i :: 0 <= i < |chunks.value| ==> 0 < |chunks.value[i]| < limit
    {
      hide World.Valid, Allowed, PamAllowed, Step;
      chunks := *;
      if chunks.Some? && exists i :: 0 <= i < |chunks.value| && !(0 < |chunks.value[i]| < limit) {
        chunks := None;
      }
      Record(Accepted(chunks));
    }

    /** A line has been read from a client. */
    method Hear(line: string)
      requires Valid()
      modifies this
      ensures Did(Request(line, throws(line)))
    {
      Record(Request(line, throws(line)));
    }

    /** `write` of a line that stands for a message. If the client is gone, SIGPIPE ends the daemon. */
    method Send(message: Message, line: string) returns (alive: bool)
      requires Valid() && line == wire(message)
      modifies this
      ensures Did(if alive then Reply(message, line) else BrokenPipe(message))
    {
      alive := *;
      Record(if alive then Reply(message, line) else BrokenPipe(message));
    }

    /** A call to logind. */
    method AskLogind(action: string) returns (ok: bool)
      requires Valid()
      modifies this
      ensures Did(LogindCall(action, ok))
    {
      ok := *;
      Record(LogindCall(action, ok));
    }
  }
}
