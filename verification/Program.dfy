/** The whole program, and what passes between its two processes. */
module Program {
  import opened Text
  import opened Messages
  import opened Sessions
  import opened Configuration
  import opened Json
  import opened Ipc
  import opened Framing
  import opened Trace
  import opened Runs
  import opened Environment
  import opened Pam
  import opened Turns
  import opened Rounds
  import opened DisplayManager

  // ---------------------------------------------------------------- a whole run

  /** How the process ends: with an exit code, or otherwise. */
  datatype Exit = Code(code: int) | Died(fate: Fate)

  /** `main`: initialises the daemon and runs it until it is told to stop, with any JSON library. */
  method RunDisplayManager(file: string, readable: bool, host: Host, listening: bool, library: Library, budget: nat)
    returns (exit: Exit, ghost log: seq<Event>, ghost life: Life)
    ensures Safe(log) && PamSafe(log)
    ensures !listening ==> exit == Code(1) && log == []
    ensures listening ==> exit == Code(0) || exit == Died(ByException) || exit == Died(BySignal)
    // it is the first greeter, turn after turn of the main loop, and what is left to be done
    ensures listening ==>
      && log == life.Trace()
      && Lived(library, life, Initial(file, readable, host), host.accounts, FateOf(exit))
    // what is heard and said is what the requests and responses of the trace are
    ensures forall i :: 0 <= i < |log| && log[i].Request? ==> (log[i].throws <==> Throws(library, log[i].line))
    ensures forall i :: 0 <= i < |log| && log[i].Reply? ==> log[i].line == Wire(log[i].message)
    // it dies exactly of a line on which the decoder throws, or of a client that is gone when it is answered
    ensures exit.Code? ==> forall i :: 0 <= i < |log| ==> !Ends(log[i])
    ensures exit.Died? ==> exists last :: EndsAfterHead(library, log, last, exit.fate) && LeavesGreeter(log, last)
    // it answers every request, except one on which it dies of SIGPIPE
    ensures Pending(log, |log|, Unanswered) <==> exit == Died(BySignal)
    // otherwise nothing is left
    ensures exit.Code? ==> forall pid :: !Pending(log, |log|, Child(pid))
    ensures exit.Code? ==> forall h :: AllOver(log, |log|, h)
    ensures exit == Died(ByException) ==> forall h :: Pending(log, |log|, Handle(h)) ==> LastSetup(log, |log|, h)
    // the greeter is tried first, is there until a fork of it fails, and is asked about after every poll
    ensures listening && Initial(file, readable, host).Command() != "" ==> PresentUntilFailed(log)
    ensures LooksAfterGreeter(log, FateOf(exit))
  {
    hide World.Valid, Replay, PamSafe, Safe, Pending, AllOver, Loaded, Settled, Scanned, Throws, EndsAfterHead,
         PresentUntilFailed, LeavesGreeter, LeftBehind, FateTells, LastSetup, Wire, Lived, Life.Trace,
         LooksAfterGreeter, ThrowsOf;
    NoLooks();
    var world := new World(budget, ThrowsOf(library), Wire);
    var machine := new Machine(host);
    var config := new Config(file);
    var daemon := new Daemon(world, machine, config, library);
    var ok := daemon.Init(readable, listening);
    if !ok {
      world.FieldsTellTheTrace();
      log, life := world.log, Life([], daemon.Now(), [], []);
      NothingHappened(log);
      return Code(1), log, life;
    }
    ghost var was := daemon.Now();
    assert was == Initial(file, readable, host);
    AppendNothing(world.log);
    var fate;
    fate, life := daemon.Run();
    log := world.log;
    assert log == life.Trace();
    exit := if fate == Alive then Code(0) else Died(fate);
    world.FieldsTellTheTrace();
    LinesAreHeard(library, log);
    EndOfRun(library, log, life, was, host.accounts, fate, daemon.greeterPid, daemon.GreeterOwner().handle);
  }

  lemma LinesAreHeard(lib: Library, log: seq<Event>)
    requires forall i :: 0 <= i < |log| && log[i].Request? ==> (log[i].throws <==> ThrowsOf(lib)(log[i].line))
    ensures forall i :: 0 <= i < |log| && log[i].Request? ==> (log[i].throws <==> Throws(lib, log[i].line))
  {
  }

  function FateOf(exit: Exit): Fate {
    if exit.Died? then exit.fate else Alive
  }

  /** What the daemon has in hand after `init`. */
  function Initial(file: string, readable: bool, host: Host): Stand {
    Stand(-1, NO_OWNER, host.users, Scanned(host.usr, host.local),
          if readable then Loaded(file, DEFAULTS) else DEFAULTS, file)
  }

  /** What a run comes to, in its trace. */
  lemma EndOfRun(lib: Library, log: seq<Event>, life: Life, was: Stand, accounts: set<string>, fate: Fate,
                 greeterPid: int, greeterHandle: nat)
    requires Safe(log) && log == life.Trace() && Lived(lib, life, was, accounts, fate)
    requires Replay(log).fate == fate && (fate != BySignal ==> !Replay(log).owed)
    requires fate == Alive ==> Replay(log).children == map[] && Replay(log).live == map[]
    requires fate != Alive ==> LeftBehind(Replay(log), greeterPid, greeterHandle) && greeterPid == life.Last().pid
    ensures fate == Alive ==> forall i :: 0 <= i < |log| ==> !Ends(log[i])
    ensures fate != Alive ==> EndsAfterHead(lib, log, greeterPid, fate) && LeavesGreeter(log, greeterPid)
    ensures Pending(log, |log|, Unanswered) <==> fate == BySignal
    ensures fate == Alive ==> forall pid :: !Pending(log, |log|, Child(pid))
    ensures fate == Alive ==> forall h :: AllOver(log, |log|, h)
    ensures fate == ByException ==> forall h :: Pending(log, |log|, Handle(h)) ==> LastSetup(log, |log|, h)
    ensures was.Command() != "" ==> PresentUntilFailed(log)
    ensures LooksAfterGreeter(log, fate)
  {
    hide Replay, Safe, Pending, AllOver, EndsAfterHead, PresentUntilFailed, LeavesGreeter, LeftBehind, FateTells,
         LastSetup, Chain, LooksAfterGreeter, GreeterStarted, WoundUp, Calls;
    LifeLooksAfterGreeter(lib, life, was, accounts, fate);
    AtEnd(log);
    FateIsTold(log, |log|);
    UnansweredIsOwed(log);
    if fate == Alive {
      NothingEnded(log);
      NothingLeft(log);
    } else {
      LeftIsGreeters(log, greeterPid, greeterHandle);
      ChainEnds(lib, life.start, life.first, life.laps, fate);
      AppendNothing(life.start + Calls(life.laps));
      if fate == BySignal {
        WaitingIfKilled(lib, log, greeterPid);
      }
    }
    if was.Command() != "" {
      TriedAtStart(log, life.start, life.first, accounts);
    }
  }

  lemma NothingEnded(log: seq<Event>)
    requires FateTells(log, |log|, Alive)
    ensures forall i :: 0 <= i < |log| ==> !Ends(log[i])
  {
  }

  /** Every loop head before the first greeter that could not be forked has one. */
  ghost predicate PresentUntilFailed(log: seq<Event>) {
    forall i :: 0 <= i < |log| && log[i].LoopHead? && (forall k :: 0 <= k < i ==> !FailsGreeter(log[k])) ==>
      log[i].greeterPid > 0
  }

  lemma NothingHappened(log: seq<Event>)
    requires log == []
    ensures forall x :: !Pending(log, |log|, x)
    ensures forall h :: AllOver(log, |log|, h)
  {
  }

  lemma NothingLeft(log: seq<Event>)
    requires Safe(log) && Replay(log).children == map[] && Replay(log).live == map[]
    ensures forall pid :: !Pending(log, |log|, Child(pid))
    ensures forall h :: AllOver(log, |log|, h)
  {
    hide Replay, Pending, AllOver;
    SafeIsPamSafe(log);
    hide Safe, PamSafe;
    AtEnd(log);
    NoChildPending(log, |log|);
    forall h ensures AllOver(log, |log|, h) {
      NotLiveIsOver(log, |log|, h);
    }
  }

  lemma UnansweredIsOwed(log: seq<Event>)
    requires Safe(log)
    ensures Pending(log, |log|, Unanswered) <==> Replay(log).owed
  {
    hide Replay, Pending, Step, Allowed, PamAllowed, Thing.Begins, Thing.Finishes;
    SafeIsPamSafe(log);
    AtEnd(log);
    var s := At(log, |log|);
    assert Booked(s, Unanswered) <==> s.owed;
    PendingIsBooked(log, |log|, Unanswered);
  }

  /** A request that is on its way when the daemon is killed is never answered. */
  lemma WaitingIfKilled(lib: Library, log: seq<Event>, greeterPid: int)
    requires EndsAfterHead(lib, log, greeterPid, BySignal)
    ensures Pending(log, |log|, Unanswered)
  {
    hide Replay, Throws;
    var before, chunks, tail :|
      && log == before + [LoopHead(greeterPid), Polled(Readable), Accepted(chunks)] + tail
      && Ended(lib, BySignal, tail);
    var r := |before| + 3;
    assert log[r] == tail[0] && Unanswered.Begins(log[r]);
    forall k | r < k < |log| ensures !Unanswered.Finishes(log[k]) {
      assert log[k] == tail[k - r];
    }
  }

  /** A handle on which a user tries to log in. */
  ghost predicate UsersHandle(log: seq<Event>, n: nat, h: nat)
    requires n <= |log|
  {
    exists user, start: nat :: StartedAt(log, n, h, USER_SERVICE, user, start)
  }

  ghost predicate OpenToUser(log: seq<Event>, n: nat, h: nat)
    requires n <= |log|
  {
    Pending(log, n, Handle(h)) && UsersHandle(log, n, h)
  }

  /** The only child left is the greeter, if there is one. Every handle left is that of the last greeter that was set
      up or one on which a user tries to log in, and of each there is at most one. */
  ghost predicate LeavesGreeter(log: seq<Event>, greeterPid: int) {
    && (forall pid :: Pending(log, |log|, Child(pid)) <==> pid == greeterPid && pid > 0)
    && (forall h :: Pending(log, |log|, Handle(h)) ==> LastSetup(log, |log|, h) || UsersHandle(log, |log|, h))
    && (forall g, h :: LastSetup(log, |log|, g) && LastSetup(log, |log|, h) ==> g == h)
    && (forall g, h :: OpenToUser(log, |log|, g) && OpenToUser(log, |log|, h) ==> g == h)
  }

  /** What the books have when the daemon is ended, in the trace. */
  lemma LeftIsGreeters(log: seq<Event>, greeterPid: int, greeterHandle: nat)
    requires Safe(log) && LeftBehind(Replay(log), greeterPid, greeterHandle)
    ensures LeavesGreeter(log, greeterPid)
    ensures Replay(log).fate != BySignal ==> forall h :: Pending(log, |log|, Handle(h)) ==> LastSetup(log, |log|, h)
  {
    hide Replay, Pending, LastSetup, UsersHandle, Safe;
    AtEnd(log);
    SafeIsPamSafe(log);
    var s := At(log, |log|);
    var own :| Settled(s.(live := s.live - {own}), greeterPid, greeterHandle)
               && (own in s.live ==> s.live[own].asked == USER_SERVICE && s.fate == BySignal);
    forall pid ensures Pending(log, |log|, Child(pid)) <==> pid == greeterPid && pid > 0 {
      PendingIsBooked(log, |log|, Child(pid));
    }
    forall h | Pending(log, |log|, Handle(h))
      ensures if h == own then UsersHandle(log, |log|, h) && s.fate == BySignal
              else LastSetup(log, |log|, h) && !UsersHandle(log, |log|, h)
    {
      PendingIsBooked(log, |log|, Handle(h));
      assert h != own ==> h in s.live - {own};
      LiveIsWhose(log, h);
    }
    forall g, h | LastSetup(log, |log|, g) && LastSetup(log, |log|, h) ensures g == h {
      LastSetupIsOne(log, g, h);
    }
  }

  /** The books say for whom a live handle was started. */
  lemma LiveIsWhose(log: seq<Event>, h: nat)
    requires Safe(log) && h in At(log, |log|).live
    ensures At(log, |log|).live[h].asked == GREETER_SERVICE ==> LastSetup(log, |log|, h) && !UsersHandle(log, |log|, h)
    ensures At(log, |log|).live[h].asked == USER_SERVICE ==> UsersHandle(log, |log|, h)
  {
    hide Replay, Reached, Safe, LastSetup;
    SafeIsPamSafe(log);
    var a := At(log, |log|).live[h];
    var p := StagesHappened(log, |log|, h);
    ReachedIsStarted(log, |log|, h, a, p);
    if a.asked == GREETER_SERVICE {
      NoLaterSetup(log, |log|, h, a.user, p.start);
      NotUsers(log, h, a.user, p.start);
    }
  }

  lemma NotUsers(log: seq<Event>, h: nat, user: string, start: nat)
    requires PamSafe(log) && StartedAt(log, |log|, h, GREETER_SERVICE, user, start)
    ensures !UsersHandle(log, |log|, h)
  {
    hide PamSafe;
    ServicesDiffer();
    forall other: string, again: nat ensures !StartedAt(log, |log|, h, USER_SERVICE, other, again) {
      if again < |log| && log[again].PamStart? && log[again].handle == h {
        StartedOnce(log, start, again);
      }
    }
  }

  lemma LastSetupIsOne(log: seq<Event>, g: nat, h: nat)
    requires LastSetup(log, |log|, g) && LastSetup(log, |log|, h)
    ensures g == h
  {
  }

  /** The greeter of the start comes before every loop head. */
  lemma TriedAtStart(log: seq<Event>, start: seq<Event>, first: Stand, accounts: set<string>)
    requires Safe(log) && start <= log && GreeterStarted(start, first, accounts)
    ensures PresentUntilFailed(log)
  {
    hide Replay, Safe;
    StartHasNoLoopHead(log, start, first, accounts);
    var tried := |start| - 1;
    forall i | 0 <= i < |log| && log[i].LoopHead? && (forall k :: 0 <= k < i ==> !FailsGreeter(log[k]))
      ensures log[i].greeterPid > 0
    {
      PresentUntilFailure(log, i, tried);
    }
  }

  lemma StartHasNoLoopHead(log: seq<Event>, start: seq<Event>, first: Stand, accounts: set<string>)
    requires start <= log && GreeterStarted(start, first, accounts)
    ensures start != [] && TriesGreeter(log[|start| - 1])
    ensures forall i :: 0 <= i < |start| ==> !log[i].LoopHead?
  {
    hide IntToString, IsGreeterUser;
  }

  /** A run can go that way: no PAM, no process, and a loop that goes on without a greeter. */
  lemma GreeterMissing(settings: Settings)
    requires settings.general.greeterCommand != ""
    ensures var name := if settings.general.greeterUser == "" then "sddm" else settings.general.greeterUser;
      var command := settings.general.greeterCommand;
      var log := [ PamStartFailed(GREETER_SERVICE, name), PamStartFailed("login", name),
                   ForkFailed(GreeterProcess(name, command)), LoopHead(-1), Polled(Quiet), LoopHead(-1) ];
      && AllPossible(log) && Safe(log)
      && GreeterStarted(log[..3], Stand(-1, NO_OWNER, [], [FALLBACK], settings, ""), {})
      && log[5].LoopHead? && log[5].greeterPid == -1 && !Pending(log, 5, GreeterFork)
  {
    hide Step, Allowed, PamAllowed, Possible, Replay, Safe, AllPossible, GreeterStarted;
    var name := if settings.general.greeterUser == "" then "sddm" else settings.general.greeterUser;
    var e0, e1 := PamStartFailed(GREETER_SERVICE, name), PamStartFailed("login", name);
    var e2 := ForkFailed(GreeterProcess(name, settings.general.greeterCommand));
    var log, failed := [e0, e1, e2, LoopHead(-1), Polled(Quiet), LoopHead(-1)], START.(greeter := Failed);
    MissingStates(name, settings.general.greeterCommand);
    NothingYet();
    assert log[..0] == [];
    MayGoOn(log, 0, START, START);
    MayGoOn(log, 1, START, START);
    MayGoOn(log, 2, START, failed);
    MayGoOn(log, 3, failed, failed);
    LoopCall(failed, Polled(Quiet));
    MayGoOn(log, 4, failed, failed);
    MayGoOn(log, 5, failed, failed);
    assert log[..6] == log;
    assert log[..3] == [e0, e1, e2];
    MissingStart(log[..3], name, Stand(-1, NO_OWNER, [], [FALLBACK], settings, ""));
  }

  /** A possible and safe trace can go on with an event that is possible and allowed. */
  lemma MayGoOn(log: seq<Event>, n: nat, s: State, t: State)
    requires n < |log| && Replay(log[..n]) == s && AllPossible(log[..n]) && Safe(log[..n])
    requires Possible(s, log[n]) && Allowed(s, log[n]) && Step(s, log[n]) == t
    ensures Replay(log[..n + 1]) == t && AllPossible(log[..n + 1]) && Safe(log[..n + 1])
  {
    hide Step, Allowed, PamAllowed, Possible, Replay, Safe;
    var before, more := log[..n], log[..n + 1];
    assert more == before + [log[n]];
    ReplayAppend(before, log[n]);
    SafeAppend(before, log[n]);
    forall i | 0 <= i < |more| ensures Possible(Replay(more[..i]), more[i]) {
      assert more[..i] == if i < n then before[..i] else before;
    }
  }

  lemma MissingStart(start: seq<Event>, name: string, now: Stand)
    requires start == [ PamStartFailed(GREETER_SERVICE, name), PamStartFailed("login", name),
                        ForkFailed(GreeterProcess(name, now.Command())) ]
    requires name == (if now.settings.general.greeterUser == "" then "sddm" else now.settings.general.greeterUser)
    requires now.pid == -1 && now.greeter == NO_OWNER
    ensures GreeterStarted(start, now, {})
  {
    var setup := start[..2];
    assert GreeterSetup(setup, NO_OWNER, name, now.Vt());
    GreeterIsStarted(setup, name, now, {});
    assert start == setup + [GreeterForked(-1, name, now.Command())];
  }

  lemma NothingYet()
    ensures Replay([]) == START && Safe([]) && AllPossible([])
  {
  }

  lemma MissingStates(account: string, command: string)
    ensures forall service :: var e := PamStartFailed(service, account);
      Possible(START, e) && Allowed(START, e) && Step(START, e) == START
    ensures var e := ForkFailed(GreeterProcess(account, command));
      Possible(START, e) && Allowed(START, e) && Step(START, e) == START.(greeter := Failed)
    ensures var s := START.(greeter := Failed);
      Possible(s, LoopHead(-1)) && Allowed(s, LoopHead(-1)) && Step(s, LoopHead(-1)) == s
  {
    StartOnce(START, GREETER_SERVICE, account);
    ForkCalls(START, GreeterProcess(account, command));
    LoopHeadCall(START.(greeter := Failed), -1, 0);
  }

  // ---------------------------------------------------------------- from the list to the launch

  /** What the greeter sends to log in with a session of its list. */
  function LoginWith(username: string, password: string, session: SessionInfo): Message {
    Message(Login, false, "", username, password, session.exec, session.id, "", [], [])
  }

  /** The daemon sends its list, the user picks entry `k` of what arrives, and the daemon looks up what it
      reads in what is sent then, however the two streams are cut. It finds the command of entry `k` exactly if
      no earlier entry is mistaken for it. */
  lemma PickedSessionIsFound(lib: Library, cache: seq<SessionInfo>, k: nat, username: string, password: string,
                             reply: seq<string>, sent: string, request: seq<string>, junk: string, more: string)
    requires Conforms(lib) && FromScan(cache) && k < |cache|
    requires Flatten(reply) == Wire(Answer(true, "").(sessions := cache)) + junk
    requires Heard(lib, reply).Fine? && k < |Heard(lib, reply).value.sessions| ==>
      Conveys(lib, sent, LoginWith(username, password, Heard(lib, reply).value.sessions[k]))
    requires Flatten(request) == sent + more
    ensures Heard(lib, request) == Fine(LoginWith(username, password, cache[k]))
    ensures Chosen(cache, cache[k].id, cache[k].exec).exec == cache[k].exec <==> NotMistaken(cache, k)
  {
    hide Conforms, Scanned, Wire, Heard, Chosen, NotMistaken, Flatten;
    var usr, local :| cache == Scanned(usr, local);
    ScannedWellFormed(usr, local);
    WireConveys(lib, Answer(true, "").(sessions := cache));
    PickedCommandRuns(cache, k);
  }

  /** Exactly one kind of session process is forked, or tried to be, and it is `what`. */
  ghost predicate Launches(calls: seq<Event>, what: Launch) {
    && (exists i :: 0 <= i < |calls| && TriesSession(calls[i]))
    && (forall i :: 0 <= i < |calls| && TriesSession(calls[i]) ==> calls[i].what == what)
  }

  lemma LaunchesAmid(a: seq<Event>, b: seq<Event>, c: seq<Event>, what: Launch)
    requires NoSessionTried(a) && Launches(b, what) && NoSessionTried(c)
    ensures Launches(a + b + c, what)
  {
    hide TriesSession;
    var i :| 0 <= i < |b| && TriesSession(b[i]);
    assert (a + b + c)[|a| + i] == b[i];
  }

  lemma NoneTriedConcat(a: seq<Event>, b: seq<Event>)
    requires NoSessionTried(a) && NoSessionTried(b)
    ensures NoSessionTried(a + b)
  {
  }

  /** The session is launched with the environment that PAM gave for it. */
  ghost predicate WithPamEnvironment(calls: seq<Event>, h: nat, what: Launch) {
    && what.SessionProcess?
    && forall i :: 0 <= i < |calls| && TriesSession(calls[i]) ==> i > 0 && calls[i - 1] == GetEnvList(h, what.pamEnvs)
  }

  lemma PamEnvironmentAmid(a: seq<Event>, b: seq<Event>, c: seq<Event>, h: nat, what: Launch)
    requires NoSessionTried(a) && WithPamEnvironment(b, h, what) && NoSessionTried(c)
    ensures WithPamEnvironment(a + b + c, h, what)
  {
    hide TriesSession;
    var all := a + b + c;
    forall i | 0 <= i < |all| && TriesSession(all[i]) ensures i > 0 && all[i - 1] == GetEnvList(h, what.pamEnvs) {
      assert |a| <= i < |a| + |b| && all[i] == b[i - |a|];
      assert all[i - 1] == b[i - |a| - 1];
    }
  }

  lemma SessionTriesOne(run: seq<Event>, h: nat, what: Launch)
    requires SessionRun(run, h, what)
    ensures Launches(run, what) && WithPamEnvironment(run, h, what)
  {
    if run == [GetEnvList(h, what.pamEnvs)] + [ForkFailed(what)] {
      assert run[1] == ForkFailed(what) && TriesSession(run[1]);
    } else {
      var pid, n, status :|
        run == [GetEnvList(h, what.pamEnvs)] + [Fork(pid, what)] + Repeat(Interrupted(pid), n) + [Reaped(pid, status)];
      RepeatIsUpkeep(Interrupted(pid), n);
      hide Repeat;
      assert run[1] == Fork(pid, what) && TriesSession(run[1]);
    }
  }

  /** What follows a granted login launches the requested session of the requested user with the environment that PAM
      gave for it, and no other. */
  lemma GrantLaunches(parts: LoginParts, h: nat, req: Message, host: Host, was: Stand, now: Stand)
    requires GrantRun(parts, h, req, host, was, now)
    ensures Launches(parts.All(), parts.what) && WithPamEnvironment(parts.All(), h, parts.what)
    ensures parts.what.SessionProcess?
    ensures parts.what.user == ChosenUser(was.users, req.username)
    ensures parts.what.session == Chosen(was.sessions, req.desktopName, req.sessionExec)
    ensures parts.what.vt == was.Vt()
  {
    hide Launches, WithPamEnvironment, Stopped, Released, SessionRun, GreeterStarted, Remembered, ChosenUser, Chosen,
         LoginParts.All, Upkeep, NoSessionTried;
    SessionTriesOne(parts.session, h, parts.what);
    StopIsUpkeep(parts.stop, was.pid);
    ReleaseIsUpkeep(parts.greeterEnd, was.greeter);
    ReleaseIsUpkeep(parts.end, Owner(h, true, true));
    NothingIsUpkeep();
    if parts.restart != [] {
      GreeterIsUpkeep(parts.restart, now, host.accounts);
    }
    UpkeepConcat(parts.stop, parts.greeterEnd);
    UpkeepConcat(parts.end, parts.restart);
    UpkeepIsInside(parts.stop + parts.greeterEnd);
    UpkeepIsInside(parts.end + parts.restart);
    LaunchesAmid(parts.stop + parts.greeterEnd, parts.session, parts.end + parts.restart, parts.what);
    PamEnvironmentAmid(parts.stop + parts.greeterEnd, parts.session, parts.end + parts.restart, h, parts.what);
    AllParts(parts);
  }

  lemma AllParts(parts: LoginParts)
    ensures parts.stop + parts.greeterEnd + parts.session + (parts.end + parts.restart) == parts.All()
  {
  }

  /** A refused login forks nothing, and a granted one nothing before its response. */
  lemma ExchangeTriesNone(req: Message, vt: int, answer: Message, alive: bool, a: Attempt,
                          before: seq<Event>, after: seq<Event>)
    requires LoginExchange(req, vt, answer, alive, a, before, after)
    ensures AnswersAttempt(answer, a) && (answer.success <==> a.Granted?)
    ensures NoSessionTried(before) && (!(alive && answer.success) ==> NoSessionTried(after))
  {
    hide AnswersAttempt, Released, Upkeep, NoSessionTried, AttemptTrace;
    AttemptIsUpkeep(a, req, vt);
    UpkeepIsInside(before);
    NothingIsUpkeep();
    if alive && !answer.success {
      ReleaseIsUpkeep(after, Owner(HandleIn(a), false, a.NoSession?));
    }
    if !(alive && answer.success) {
      UpkeepIsInside(after);
    }
  }

  /** Neither the request nor the response is a launch. */
  lemma AroundResponse(line: string, before: seq<Event>, said: Event, after: seq<Event>)
    requires (said.Reply? || said.BrokenPipe?) && NoSessionTried(before)
    ensures var calls := [Request(line, false)] + (before + [said] + after);
      && said in calls
      && (NoSessionTried(after) ==> NoSessionTried(calls))
      && (forall what :: Launches(after, what) ==> Launches(calls, what))
      && (forall h, what :: WithPamEnvironment(after, h, what) ==> WithPamEnvironment(calls, h, what))
  {
    var head := [Request(line, false)] + before + [said];
    var calls := [Request(line, false)] + (before + [said] + after);
    assert NoSessionTried(head);
    assert calls == head + after && calls == head + after + [];
    hide Launches, WithPamEnvironment;
    if NoSessionTried(after) {
      NoneTriedConcat(head, after);
    }
    forall what | Launches(after, what) ensures Launches(calls, what) {
      LaunchesAmid(head, after, [], what);
    }
    forall h, what | WithPamEnvironment(after, h, what) ensures WithPamEnvironment(calls, h, what) {
      PamEnvironmentAmid(head, after, [], h, what);
    }
  }

  /** A login from the request line to the last event: what it launches. */
  lemma ExchangeLaunches(line: string, req: Message, answer: Message, x: Exchange, calls: seq<Event>, fate: Fate,
                         host: Host, was: Stand, now: Stand)
    requires req.kind.Login? && Exchanged(line, req, answer, x, calls, fate, host, was, now)
    ensures AnswersAttempt(answer, x.a) && (answer.success <==> x.a.Granted?) && Said(answer, fate == Alive) in calls
    ensures var what := x.parts.what;
      if fate == Alive && answer.success
      then Launches(calls, what) && WithPamEnvironment(calls, HandleIn(x.a), what)
           && what.user == ChosenUser(was.users, req.username)
           && what.session == Chosen(was.sessions, req.desktopName, req.sessionExec)
      else NoSessionTried(calls)
  {
    hide AnswersAttempt, GrantRun, NoSessionTried, Launches, Wire, LoginParts.All, WithPamEnvironment,
         Released, AttemptTrace, Chosen, ChosenUser;
    ExchangeTriesNone(req, was.Vt(), answer, fate == Alive, x.a, x.before, x.after);
    AroundResponse(line, x.before, Said(answer, fate == Alive), x.after);
    if fate == Alive && answer.success {
      GrantLaunches(x.parts, HandleIn(x.a), req, host, was, now);
    }
  }

  lemma HeardIsUnderstood(lib: Library, chunks: seq<string>, crashed: bool, req: Option<Message>)
    requires Understood(lib, FirstLine(Received(chunks)), crashed, req)
    ensures forall m :: Heard(lib, chunks) == Fine(m) ==> req == Some(m)
  {
    hide Decoded, Received, FirstLine;
  }

  /** The daemon serves a login request, however it arrives. If it is granted and the client takes the response, one
      session process is forked or tried: the requested session, for the user who logged in, with what PAM put into
      its environment. If not, none is. */
  method ServeLogin(daemon: Daemon, socket: Socket, ghost req: Message)
    returns (answer: Message, alive: bool, ghost a: Attempt, ghost calls: seq<Event>, ghost what: Launch)
    requires daemon.Ready() && socket.Valid()
    requires !daemon.world.st.owed && daemon.world.st.fate == Alive
    requires req.kind.Login? && Heard(daemon.library, socket.pending) == Fine(req)
    modifies daemon, daemon.world, daemon.launcher, daemon.config, daemon.greeterPam, socket
    ensures daemon.world.log == old(daemon.world.log) + calls && (alive ==> daemon.Ready())
    ensures AnswersAttempt(answer, a) && (answer.success <==> a.Granted?) && Said(answer, alive) in calls
    ensures alive && answer.success ==>
      && Launches(calls, what) && WithPamEnvironment(calls, HandleIn(a), what)
      && what.user == ChosenUser(old(daemon.cachedUsers), req.username)
      && what.session == Chosen(old(daemon.cachedSessions), req.desktopName, req.sessionExec)
    ensures !(alive && answer.success) ==> NoSessionTried(calls)
  {
    hide World.Valid, Wire, Chosen, Flatten, Received, FirstLine, Handled, AnswersAttempt, Settled, ChosenUser,
         Launches, NoSessionTried, WithPamEnvironment, Throws, Conforms, Said, Abandoned, Decoded;
    ghost var was, host := daemon.Now(), daemon.machine.host;
    ghost var x;
    var fate, heard;
    fate, heard, answer, x, calls := daemon.HandleClientConnection(socket);
    HeardIsUnderstood(daemon.library, old(socket.pending), fate == ByException, heard);
    alive, a := fate == Alive, x.a;
    ghost var line :| Exchanged(line, req, answer, x, calls, fate, host, was, daemon.Now());
    what := x.parts.what;
    ExchangeLaunches(line, req, answer, x, calls, fate, host, was, daemon.Now());
  }

  /** Some way of cutting a stream into reads. */
  method CutStream(stream: string) returns (chunks: seq<string>)
    ensures Flatten(chunks) == stream
    ensures forall i :: 0 <= i < |chunks| ==> 0 < |chunks[i]| < BUFFER_SIZE
  {
    chunks := *;
    if Flatten(chunks) == stream && forall i :: 0 <= i < |chunks| ==> 0 < |chunks[i]| < BUFFER_SIZE {
      return;
    }
    chunks := [];
    assert stream[..0] == "";
    for n := 0 to |stream|
      invariant Flatten(chunks) == stream[..n]
      invariant forall i :: 0 <= i < |chunks| ==> 0 < |chunks[i]| < BUFFER_SIZE
    {
      var before := chunks;
      chunks := chunks + [[stream[n]]];
      assert chunks[..|chunks| - 1] == before;
      assert stream[..n] + [stream[n]] == stream[..n + 1];
    }
    assert stream[..|stream|] == stream;
  }

  /** From the list to the process: the greeter has asked for the list and reads what the daemon wrote, the user picks
      entry `k` of it, the greeter asks to log in with it, and the daemon serves what it reads, however the streams are
      cut. If the login is granted and the greeter takes the response, one session process is forked or tried, for the
      user who logged in, and it runs the command of entry `k` exactly if no earlier entry is mistaken for it. If not,
      none is. Who reads the response learns whether the login was granted. */
  method PickedSessionIsLaunched(daemon: Daemon, list: Socket, back: Socket, k: nat, username: string, password: string,
                                 more: string, ghost junk: string)
    returns (told: Outcome<bool>, answer: Message, alive: bool, ghost a: Attempt, ghost calls: seq<Event>,
             ghost what: Launch)
    requires Conforms(daemon.library) && daemon.Ready() && list.Valid() && back.Valid() && list != back
    requires !daemon.world.st.owed && daemon.world.st.fate == Alive
    requires FromScan(daemon.cachedSessions) && k < |daemon.cachedSessions|
    requires Flatten(list.pending) == Wire(Answer(true, "").(sessions := daemon.cachedSessions)) + junk
    modifies daemon, daemon.world, daemon.launcher, daemon.config, daemon.greeterPam, list, back
    ensures daemon.world.log == old(daemon.world.log) + calls && (alive ==> daemon.Ready())
    ensures AnswersAttempt(answer, a) && (answer.success <==> a.Granted?) && Said(answer, alive) in calls
    ensures alive && answer.success ==>
      && Launches(calls, what) && WithPamEnvironment(calls, HandleIn(a), what) && what.user.username == username
      && (what.session.exec == old(daemon.cachedSessions)[k].exec <==> NotMistaken(old(daemon.cachedSessions), k))
    ensures !(alive && answer.success) ==> NoSessionTried(calls)
    ensures forall rest :: Flatten(old(back.pending)) == Wire(answer) + rest ==> told == Fine(answer.success)
  {
    hide World.Valid, Scanned, Wire, Heard, Chosen, NotMistaken, Flatten, AnswersAttempt, Settled, ChosenUser, FromScan,
         Launches, NoSessionTried, WithPamEnvironment, Conforms, Said, Received, AnswerOn;
    var cache, lib := daemon.cachedSessions, daemon.library;
    ghost var users, reply, written := daemon.cachedUsers, list.pending, back.pending;
    WireConveys(lib, Answer(true, "").(sessions := cache));
    AnswerArrives(lib, Answer(true, "").(sessions := cache), Answering, list.pending, junk);
    var ok, sessions, sent := SessionsRequest(lib, [], Answering, list);
    var error;
    told, error, sent := LoginRequest(lib, username, password, sessions[k].exec, sessions[k].id, Answering, back);
    var chunks := CutStream(sent + more);
    PickedSessionIsFound(lib, cache, k, username, password, reply, sent, chunks, junk, more);
    ChosenUserHasTheName(users, username);
    var socket := new Socket(chunks);
    answer, alive, a, calls, what := ServeLogin(daemon, socket, LoginWith(username, password, cache[k]));
    forall rest | Flatten(written) == Wire(answer) + rest ensures told == Fine(answer.success) {
      AnswerArrives(lib, answer, Answering, written, rest);
    }
  }
}
