/** What every turn of the main loop does, and what a run that is a chain of turns does. */
module Rounds {
  import opened Text
  import opened Messages
  import opened Sessions
  import opened Json
  import Ipc
  import opened Framing
  import opened Trace
  import opened Pam
  import opened Turns
  import opened Runs

  // ---------------------------------------------------------------- what the pieces consist of

  /** A turn of the main loop begins with these. */
  predicate OfLoop(e: Event) {
    e.LoopHead? || e.Polled? || e.Accepted?
  }

  ghost predicate InsideTurn(calls: seq<Event>) {
    forall i :: 0 <= i < |calls| ==> !OfLoop(calls[i])
  }

  /** Neither that, nor a session that is launched or tried. */
  ghost predicate Upkeep(calls: seq<Event>) {
    forall i :: 0 <= i < |calls| ==> !OfLoop(calls[i]) && !TriesSession(calls[i])
  }

  lemma NothingIsUpkeep()
    ensures Upkeep([])
  {
  }

  lemma UpkeepIsInside(calls: seq<Event>)
    requires Upkeep(calls)
    ensures InsideTurn(calls) && NoSessionTried(calls)
  {
  }

  lemma UpkeepConcat(a: seq<Event>, b: seq<Event>)
    requires Upkeep(a) && Upkeep(b)
    ensures Upkeep(a + b)
  {
  }

  lemma InsideConcat(a: seq<Event>, b: seq<Event>)
    requires InsideTurn(a) && InsideTurn(b)
    ensures InsideTurn(a + b)
  {
  }

  lemma {:induction false} RepeatIsUpkeep(e: Event, n: nat)
    requires !TriesSession(e) && !OfLoop(e)
    ensures Upkeep(Repeat(e, n))
  {
    if n > 0 {
      RepeatIsUpkeep(e, n - 1);
    }
  }

  lemma StopIsUpkeep(stop: seq<Event>, pid: int)
    requires Stopped(stop, pid)
    ensures Upkeep(stop)
    ensures pid > 0 ==> Asked(stop, pid)
  {
    if pid > 0 {
      var waits, status :| waits <= 20 && stop == StopTrace(pid, waits, 20, status);
      RepeatIsUpkeep(StillRunning(pid), waits);
      hide Repeat;
      assert Upkeep(StopTrace(pid, waits, 20, status));
      assert Asks(stop[|stop| - 1], pid);
    }
  }

  lemma ReleaseIsUpkeep(end: seq<Event>, owner: Owner)
    requires Released(end, owner)
    ensures Upkeep(end)
  {
    if owner.handle != 0 {
      var closeOk, deleteOk :| end == Ending(owner.handle, owner.session, owner.credentials, closeOk, deleteOk);
      assert Upkeep(Ending(owner.handle, owner.session, owner.credentials, closeOk, deleteOk));
    }
  }

  lemma GreeterIsUpkeep(start: seq<Event>, now: Stand, accounts: set<string>)
    requires GreeterStarted(start, now, accounts)
    ensures Upkeep(start)
  {
    hide IntToString, IsGreeterUser;
  }

  lemma AttemptIsUpkeep(a: Attempt, req: Message, vt: int)
    ensures Upkeep(AttemptTrace(a, req, vt))
  {
    AttemptCalls(a, req, vt);
    hide AttemptTrace;
  }

  lemma SessionIsInside(run: seq<Event>, h: nat, what: Launch)
    requires SessionRun(run, h, what)
    ensures InsideTurn(run)
  {
    if run != [GetEnvList(h, what.pamEnvs)] + [ForkFailed(what)] {
      var pid, n, status :|
        run == [GetEnvList(h, what.pamEnvs)] + [Fork(pid, what)] + Repeat(Interrupted(pid), n) + [Reaped(pid, status)];
      RepeatIsUpkeep(Interrupted(pid), n);
      hide Repeat;
    }
  }

  // ---------------------------------------------------------------- the greeter is asked about

  /** `waitpid` for `pid`. */
  predicate Asks(e: Event, pid: int) {
    e == StillRunning(pid) || (e.Reaped? && e.pid == pid)
  }

  ghost predicate Asked(calls: seq<Event>, pid: int) {
    exists k :: 0 <= k < |calls| && Asks(calls[k], pid)
  }

  lemma AskedAmid(a: seq<Event>, b: seq<Event>, c: seq<Event>, pid: int)
    requires Asked(b, pid)
    ensures Asked(a + b + c, pid)
  {
    var k :| 0 <= k < |b| && Asks(b[k], pid);
    assert (a + b + c)[|a| + k] == b[k];
  }

  /** What follows a granted login belongs to its turn, and the greeter that was there is reaped. */
  lemma GrantInside(parts: LoginParts, h: nat, req: Message, host: Host, was: Stand, now: Stand)
    requires GrantRun(parts, h, req, host, was, now)
    ensures InsideTurn(parts.All())
    ensures was.pid > 0 ==> Asked(parts.All(), was.pid)
  {
    hide Stopped, Released, SessionRun, GreeterStarted, Remembered, ChosenUser, Chosen, Upkeep, InsideTurn, Asked,
         LoginParts.All;
    NothingIsUpkeep();
    StopIsUpkeep(parts.stop, was.pid);
    UpkeepIsInside(parts.stop);
    ReleaseIsUpkeep(parts.greeterEnd, was.greeter);
    UpkeepIsInside(parts.greeterEnd);
    SessionIsInside(parts.session, h, parts.what);
    ReleaseIsUpkeep(parts.end, Owner(h, true, true));
    UpkeepIsInside(parts.end);
    if parts.restart != [] {
      GreeterIsUpkeep(parts.restart, now, host.accounts);
    }
    UpkeepIsInside(parts.restart);
    AllInside(parts, was.pid);
  }

  lemma AllInside(parts: LoginParts, pid: int)
    requires InsideTurn(parts.stop) && InsideTurn(parts.greeterEnd) && InsideTurn(parts.session)
    requires InsideTurn(parts.end) && InsideTurn(parts.restart)
    ensures InsideTurn(parts.All())
    ensures Asked(parts.stop, pid) ==> Asked(parts.All(), pid)
  {
    hide InsideTurn, Asked;
    InsideConcat(parts.stop, parts.greeterEnd);
    InsideConcat(parts.stop + parts.greeterEnd, parts.session);
    InsideConcat(parts.stop + parts.greeterEnd + parts.session, parts.end);
    InsideConcat(parts.stop + parts.greeterEnd + parts.session + parts.end, parts.restart);
    if Asked(parts.stop, pid) {
      var rest := parts.greeterEnd + parts.session + parts.end + parts.restart;
      AskedAmid([], parts.stop, rest, pid);
      assert [] + parts.stop + rest == parts.All();
    }
  }

  /** One request: whatever it is, the greeter stays the recorded one or is reaped. */
  lemma HandledInside(req: Message, answer: Message, alive: bool, x: Exchange, host: Host, was: Stand, now: Stand)
    requires Handled(req, answer, alive, x, host, was, now)
    ensures InsideTurn(x.before) && InsideTurn(x.after)
    ensures was.pid > 0 && now.pid != was.pid ==> Asked(x.after, was.pid)
  {
    hide AnswersAttempt, Answered, GrantRun, Scanned, Released, AttemptTrace, LoginParts.All, Asked;
    if req.kind.Login? {
      AttemptIsUpkeep(x.a, req, was.Vt());
      if alive && answer.success {
        GrantInside(x.parts, HandleIn(x.a), req, host, was, now);
      } else if alive {
        ReleaseIsUpkeep(x.after, Owner(HandleIn(x.a), false, x.a.NoSession?));
      }
    }
  }

  /** Neither the request nor the response is of the loop. */
  lemma AroundIsInside(line: string, before: seq<Event>, said: Event, after: seq<Event>, pid: int)
    requires InsideTurn(before) && InsideTurn(after) && (said.Reply? || said.BrokenPipe?)
    ensures var calls := [Request(line, false)] + (before + [said] + after);
      InsideTurn(calls) && (Asked(after, pid) ==> Asked(calls, pid))
  {
    hide Asks;
    var head := [Request(line, false)] + before + [said];
    assert [Request(line, false)] + (before + [said] + after) == head + after + [];
    if Asked(after, pid) {
      AskedAmid(head, after, [], pid);
    }
  }

  lemma ConnectedInside(lib: Library, chunks: Option<seq<string>>, calls: seq<Event>, fate: Fate, host: Host,
                        was: Stand, now: Stand)
    requires Connected(lib, chunks, calls, fate, host, was, now)
    ensures InsideTurn(calls)
    ensures was.pid > 0 && now.pid != was.pid ==> Asked(calls, was.pid)
  {
    hide Received, FirstLine, Ipc.Decoded, Handled, Asked, Ipc.Wire;
    if calls != [] {
      var line := FirstLine(Received(chunks.value)).value;
      if fate != ByException {
        var req := Ipc.Decoded(lib, line).value;
        var answer, x :| Exchanged(line, req, answer, x, calls, fate, host, was, now);
        HandledInside(req, answer, fate == Alive, x, host, was, now);
        AroundIsInside(line, x.before, Said(answer, fate == Alive), x.after, was.pid);
      }
    }
  }

  lemma CheckedInside(calls: seq<Event>, was: Stand, now: Stand, accounts: set<string>)
    requires Checked(calls, was, now, accounts)
    ensures InsideTurn(calls)
    ensures was.pid > 0 ==> Asked(calls, was.pid)
  {
    hide Released, GreeterStarted;
    if was.pid > 0 {
      assert Asks(calls[0], was.pid);
      if calls != [StillRunning(was.pid)] {
        var status, end, start :|
          calls == [Reaped(was.pid, status)] + end + start && Replaced(end, start, was.greeter, now, accounts);
        if now.Command() != "" {
          ReleaseIsUpkeep(end, was.greeter);
          GreeterIsUpkeep(start, now, accounts);
        }
      }
    }
  }

  predicate Returned(e: Event) {
    e == Polled(Readable) || e == Polled(Quiet)
  }

  /** A turn has its loop head and its poll at the front and nowhere else. If the poll returned and the daemon lived
      on, the greeter that was recorded is asked about or reaped. */
  ghost predicate ProperTurn(calls: seq<Event>, g: int, fate: Fate) {
    && |calls| >= 2 && calls[0] == LoopHead(g) && calls[1].Polled?
    && (forall i :: 2 <= i < |calls| ==> !calls[i].LoopHead? && !calls[i].Polled?)
    && (g > 0 && Returned(calls[1]) && fate == Alive ==> Asked(calls, g))
  }

  lemma TurnIsProper(lib: Library, calls: seq<Event>, fate: Fate, was: Stand, now: Stand)
    requires Turn(lib, calls, fate, was, now)
    ensures ProperTurn(calls, was.pid, fate)
  {
    hide Connected, Checked, Asked;
    var p, rest, host :|
      calls == [LoopHead(was.pid), Polled(p)] + rest && AfterPoll(lib, p, rest, fate, host, was, now);
    var head := [LoopHead(was.pid), Polled(p)];
    if p.Quiet? {
      CheckedInside(rest, was, now, host.accounts);
      if was.pid > 0 {
        AskedAmid(head, rest, [], was.pid);
        assert calls == head + rest + [];
      }
    } else if p.Readable? {
      var chunks, served, mid, checked :|
        WithClient(lib, chunks, served, mid, checked, rest, fate, host, was, now);
      ConnectedInside(lib, chunks, served, fate, host, was, mid);
      assert calls == head + [Accepted(chunks)] + served + checked;
      if fate == Alive {
        CheckedInside(checked, mid, now, host.accounts);
        if was.pid > 0 && mid.pid == was.pid {
          AskedAmid(head + [Accepted(chunks)] + served, checked, [], was.pid);
          assert calls == head + [Accepted(chunks)] + served + checked + [];
        } else if was.pid > 0 {
          AskedAmid(head + [Accepted(chunks)], served, checked, was.pid);
        }
      }
    }
  }

  /** The greeter that is recorded at loop head `i` is asked about or reaped before the next loop head. */
  ghost predicate AskedSoon(log: seq<Event>, i: nat)
    requires i < |log| && log[i].LoopHead?
  {
    exists k :: i < k < |log| && Asks(log[k], log[i].greeterPid) && forall m :: i < m < k ==> !log[m].LoopHead?
  }

  ghost predicate LastHead(log: seq<Event>, i: nat) {
    forall m :: i < m < |log| ==> !log[m].LoopHead?
  }

  /** At `i` there is a loop head with a greeter, and the poll that follows returns. */
  predicate Looks(log: seq<Event>, i: nat) {
    i + 1 < |log| && log[i].LoopHead? && log[i].greeterPid > 0 && Returned(log[i + 1])
  }

  /** No turn whose poll returned passes over the greeter, except one in which the daemon is ended. */
  ghost predicate LooksAfterGreeter(log: seq<Event>, fate: Fate) {
    forall i: nat :: Looks(log, i) ==> AskedSoon(log, i) || (fate != Alive && LastHead(log, i))
  }

  lemma OneTurnMore(log: seq<Event>, calls: seq<Event>, g: int, fate: Fate)
    requires LooksAfterGreeter(log, Alive) && ProperTurn(calls, g, fate)
    ensures LooksAfterGreeter(log + calls, fate)
  {
    var more := log + calls;
    hide Asks;
    forall i: nat | Looks(more, i) ensures AskedSoon(more, i) || (fate != Alive && LastHead(more, i)) {
      if i < |log| {
        assert i + 1 < |log|;
        assert Looks(log, i);
        var k :| i < k < |log| && Asks(log[k], log[i].greeterPid) && forall m :: i < m < k ==> !log[m].LoopHead?;
        assert more[k] == log[k];
      } else {
        assert i == |log| && more[i] == calls[0] && more[i + 1] == calls[1];
        if fate == Alive {
          var k :| 0 <= k < |calls| && Asks(calls[k], g);
          AskIsNoHead(calls[k], g);
          assert more[|log| + k] == calls[k];
        }
      }
    }
  }

  lemma AskIsNoHead(e: Event, pid: int)
    requires Asks(e, pid)
    ensures !e.LoopHead?
  {
  }

  lemma NoTurnMore(log: seq<Event>, calls: seq<Event>, fate: Fate)
    requires LooksAfterGreeter(log, fate) && InsideTurn(calls)
    ensures LooksAfterGreeter(log + calls, fate)
  {
    var more := log + calls;
    hide Asks;
    forall i: nat | Looks(more, i) ensures AskedSoon(more, i) || (fate != Alive && LastHead(more, i)) {
      assert i + 1 < |log| && Looks(log, i);
      if AskedSoon(log, i) {
        var k :| i < k < |log| && Asks(log[k], log[i].greeterPid) && forall m :: i < m < k ==> !log[m].LoopHead?;
        assert more[k] == log[k];
      }
    }
  }

  lemma {:induction false} ChainLooks(lib: Library, start: seq<Event>, first: Stand, laps: seq<Lap>, fate: Fate)
    requires InsideTurn(start) && Chain(lib, first, laps, fate)
    ensures LooksAfterGreeter(start + Calls(laps), fate)
    decreases |laps|
  {
    hide Turn, LooksAfterGreeter, ProperTurn;
    if laps == [] {
      NoLooks();
      NoTurnMore([], start, Alive);
      assert start + Calls(laps) == [] + start;
    } else {
      var init, last := laps[..|laps| - 1], laps[|laps| - 1];
      ChainLooks(lib, start, first, init, Alive);
      TurnIsProper(lib, last.calls, fate, StandAfter(first, init), last.now);
      OneTurnMore(start + Calls(init), last.calls, StandAfter(first, init).pid, fate);
      assert start + Calls(laps) == start + Calls(init) + last.calls;
    }
  }

  lemma NoLooks()
    ensures LooksAfterGreeter([], Alive)
  {
  }

  /** In a whole run, whenever a poll returns the recorded greeter is asked about or reaped before the next loop head,
      unless the daemon is ended by the client of that very poll. */
  lemma LifeLooksAfterGreeter(lib: Library, life: Life, was: Stand, accounts: set<string>, fate: Fate)
    requires Lived(lib, life, was, accounts, fate)
    ensures LooksAfterGreeter(life.Trace(), fate)
  {
    hide Chain, Stopped, Released, GreeterStarted, Calls, LooksAfterGreeter;
    if life.first.Command() != "" {
      GreeterIsUpkeep(life.start, life.first, accounts);
    }
    ChainLooks(lib, life.start, life.first, life.laps, fate);
    if fate == Alive {
      var stop, end :|
        life.windup == stop + end && Stopped(stop, life.Last().pid) && Released(end, life.Last().greeter);
      StopIsUpkeep(stop, life.Last().pid);
      ReleaseIsUpkeep(end, life.Last().greeter);
    }
    NoTurnMore(life.start + Calls(life.laps), life.windup, fate);
  }

  /** Without a greeter and without clients nothing happens: a greeter that could not be forked is not tried again. */
  lemma {:induction false} NeverTriedAgain(lib: Library, first: Stand, laps: seq<Lap>, fate: Fate)
    requires Chain(lib, first, laps, fate) && first.pid == -1
    requires forall e :: e in Calls(laps) ==> !e.Accepted?
    ensures StandAfter(first, laps) == first
    ensures forall e :: e in Calls(laps) ==> e == LoopHead(-1) || e.Polled?
    decreases |laps|
  {
    hide Turn;
    if laps != [] {
      var init, last := laps[..|laps| - 1], laps[|laps| - 1];
      assert forall e :: e in Calls(init) ==> e in Calls(laps);
      NeverTriedAgain(lib, first, init, Alive);
      assert forall e :: e in last.calls ==> e in Calls(laps);
      IdleTurn(lib, last.calls, fate, first, last.now);
    }
  }

  lemma IdleTurn(lib: Library, calls: seq<Event>, fate: Fate, was: Stand, now: Stand)
    requires Turn(lib, calls, fate, was, now) && was.pid == -1
    requires forall e :: e in calls ==> !e.Accepted?
    ensures now == was && exists p :: calls == [LoopHead(-1), Polled(p)]
  {
    hide Connected, Released, GreeterStarted;
    var p, rest, host :|
      calls == [LoopHead(was.pid), Polled(p)] + rest && AfterPoll(lib, p, rest, fate, host, was, now);
    assert forall e :: e in rest ==> e in calls;
    if p.Readable? {
      ClientIsAccepted(lib, rest, fate, host, was, now);
      assert false;
    }
    assert calls == [LoopHead(-1), Polled(p)];
  }

  lemma ClientIsAccepted(lib: Library, rest: seq<Event>, fate: Fate, host: Host, was: Stand, now: Stand)
    requires AfterPoll(lib, Readable, rest, fate, host, was, now)
    ensures exists e :: e in rest && e.Accepted?
  {
    hide Connected, Checked;
    var chunks, served, mid, checked :|
      WithClient(lib, chunks, served, mid, checked, rest, fate, host, was, now);
    assert rest[0] == Accepted(chunks);
  }

  // ---------------------------------------------------------------- a greeter that was reaped

  ghost predicate NoneTried(log: seq<Event>, i: nat, n: nat)
    requires i <= n <= |log|
  {
    forall k :: i <= k < n ==> !TriesGreeter(log[k])
  }

  /** Without a new greeter, the greeters that are there have been there all the time. */
  lemma {:induction false} GreetersRemain(log: seq<Event>, i: nat, n: nat)
    requires i <= n <= |log| && NoneTried(log, i, n)
    ensures forall pid :: pid in At(log, n).children && At(log, n).children[pid] == Greeter ==>
      && pid in At(log, i).children
      && forall k :: i <= k < n ==> !(log[k].Reaped? && log[k].pid == pid)
    ensures At(log, n).greeter == At(log, i).greeter
  {
    hide Replay;
    if i < n {
      GreetersRemain(log, i, n - 1);
      AtStep(log, n - 1);
      RolesStep(At(log, n - 1), log[n - 1]);
    }
  }

  lemma RolesStep(s: State, e: Event)
    requires !TriesGreeter(e)
    ensures Step(s, e).greeter == s.greeter
    ensures forall pid :: pid in Step(s, e).children && Step(s, e).children[pid] == Greeter ==>
      pid in s.children && s.children[pid] == Greeter && !(e.Reaped? && e.pid == pid)
  {
    hide OnHandle;
  }

  /** Until another one is tried, the recorded greeter is never reaped and stays the recorded one. */
  lemma GreeterStays(log: seq<Event>, i: nat, j: nat)
    requires Safe(log) && i < j < |log| && NoneTried(log, i, j)
    requires log[i].LoopHead? && log[i].greeterPid > 0 && log[j].LoopHead?
    ensures log[j].greeterPid == log[i].greeterPid
    ensures forall k :: i <= k < j ==> !(log[k].Reaped? && log[k].pid == log[i].greeterPid)
  {
    hide Replay;
    assert Allowed(At(log, i), log[i]) && Allowed(At(log, j), log[j]);
    GreetersRemain(log, i, j);
    assert log[j].greeterPid in At(log, j).children;
  }

  /** A recorded greeter that is found dead, or is stopped for a session, is replaced, or it is tried, before the next
      loop head. */
  lemma ReapedIsReplaced(log: seq<Event>, i: nat, k: nat, j: nat)
    requires Safe(log) && i < k < j < |log|
    requires log[i].LoopHead? && log[i].greeterPid > 0 && log[j].LoopHead?
    requires log[k].Reaped? && log[k].pid == log[i].greeterPid
    ensures exists t :: i < t < j && TriesGreeter(log[t])
  {
    hide Safe;
    if NoneTried(log, i, j) {
      GreeterStays(log, i, j);
      assert false;
    }
  }
}
