/** What the daemon asks of PAM, of the kernel and of its clients, as a trace of calls with their
    outcomes, and what a trace must satisfy to be safe. */
module Trace {
  import opened Text
  import opened Messages

  const GREETER_SERVICE := "miqudm-greeter"
  const USER_SERVICE := "miqudm"

  datatype Role = Greeter | Session

  /** What a forked child becomes. */
  datatype Launch =
    | GreeterProcess(account: string, command: string)
    | SessionProcess(user: UserInfo, session: SessionInfo, pamEnvs: seq<string>, vt: int)
  {
    function Role(): Role {
      if GreeterProcess? then Greeter else Session
    }
  }

  datatype Signal = SIGTERM | SIGKILL

  datatype Poll = Readable | Quiet | PollInterrupted | PollFailed

  /** How a child ended, as the `W...` macros of `waitpid` tell. */
  datatype ExitStatus = Exited(code: int) | Signaled(signal: int) | OtherStatus(raw: int)

  /** A PAM handle is named by the number of its successful `pam_start`; 0 is the null pointer. `asked` is the
      service the caller wanted, `service` the one that was started. `chunks` is what the reads on an accepted
      connection deliver. `throws` tells whether the decoder throws on the line. A pipe is broken when the client is
      gone before the response is written. Process ids are the kernel's and come back after a child has been reaped. */
  datatype Event =
    | PamStart(handle: nat, service: string, asked: string, user: string)
    | PamStartFailed(service: string, user: string)
    | SetConversation(handle: nat, password: string, ok: bool)
    | Authenticate(handle: nat, ok: bool)
    | AcctMgmt(handle: nat, ok: bool)
    | EstablishCred(handle: nat, ok: bool)
    | OpenSession(handle: nat, ok: bool)
    | PutEnv(handle: nat, entry: string)
    | GetEnvList(handle: nat, entries: seq<string>)
    | CloseSession(handle: nat, ok: bool)
    | DeleteCred(handle: nat, ok: bool)
    | PamEnd(handle: nat)
    | Fork(pid: int, what: Launch)
    | ForkFailed(what: Launch)
    | Kill(pid: int, signal: Signal, group: bool)
    | StillRunning(pid: int)
    | Reaped(pid: int, status: ExitStatus)
    | NotAChild(pid: int)
    | Interrupted(pid: int)
    | Request(line: string, throws: bool)
    | Reply(message: Message, line: string)
    | BrokenPipe(message: Message)
    | LogindCall(action: string, ok: bool)
    | LoopHead(greeterPid: int)
    | Polled(poll: Poll)
    | Accepted(chunks: Option<seq<string>>)

  /** The handle that a PAM event is about. */
  function HandleOf(e: Event): nat {
    match e
    case PamStart(h, _, _, _) => h
    case SetConversation(h, _, _) => h
    case Authenticate(h, _) => h
    case AcctMgmt(h, _) => h
    case EstablishCred(h, _) => h
    case OpenSession(h, _) => h
    case PutEnv(h, _) => h
    case GetEnvList(h, _) => h
    case CloseSession(h, _) => h
    case DeleteCred(h, _) => h
    case PamEnd(h) => h
    case _ => 0
  }

  // ---------------------------------------------------------------- the state after a trace

  /** One live PAM handle. `stage` counts how far start, authenticate, acct_mgmt, setcred and
      open_session have succeeded in that order; closing or deleting starts over. */
  datatype Auth = Auth(asked: string, user: string, stage: nat, credentials: bool, open: bool)

  const COMPLETE := 4

  function Advanced(a: Auth, stage: nat, ok: bool): Auth {
    if ok && a.stage + 1 == stage then a.(stage := stage) else a
  }

  /** What the last attempt to fork a greeter came to. */
  datatype GreeterFork = Untried | Worked | Failed

  /** Whether the daemon lives, or was ended by an exception of the decoder or by SIGPIPE. */
  datatype Fate = Alive | ByException | BySignal

  /** `owed`: a request has been heard and not been answered yet. */
  datatype State = State(
    started: nat,
    live: map<nat, Auth>,
    children: map<int, Role>,
    greeter: GreeterFork,
    replies: nat,
    owed: bool,
    fate: Fate)

  const START := State(0, map[], map[], Untried, 0, false, Alive)

  /** What a call on a live handle does to it. */
  function OnHandle(a: Auth, e: Event): Auth {
    match e
    case Authenticate(_, ok) => Advanced(a, 1, ok)
    case AcctMgmt(_, ok) => Advanced(a, 2, ok)
    case EstablishCred(_, ok) => if ok then Advanced(a, 3, ok).(credentials := true) else a
    case OpenSession(_, ok) => if ok then Advanced(a, 4, ok).(open := true) else a
    case CloseSession(_, _) => a.(stage := 0, open := false)
    case DeleteCred(_, _) => a.(stage := 0, credentials := false)
    case _ => a
  }

  function Step(s: State, e: Event): State {
    match e
    case PamStart(h, _, asked, user) =>
      s.(started := s.started + 1, live := s.live[h := Auth(asked, user, 0, false, false)])
    case PamEnd(h) => s.(live := s.live - {h})
    case Fork(pid, what) =>
      s.(children := s.children[pid := what.Role()], greeter := if what.GreeterProcess? then Worked else s.greeter)
    case ForkFailed(what) => if what.GreeterProcess? then s.(greeter := Failed) else s
    case Reaped(pid, _) => s.(children := s.children - {pid})
    case Request(_, throws) => if throws then s.(fate := ByException) else s.(owed := true)
    case Reply(_, _) => s.(replies := s.replies + 1, owed := false)
    case BrokenPipe(_) => s.(fate := BySignal)
    case LoopHead(_) => s
    case Polled(_) => s
    case Accepted(_) => s
    case _ =>
      var h := HandleOf(e);
      if h in s.live then s.(live := s.live[h := OnHandle(s.live[h], e)]) else s
  }

  function Replay(log: seq<Event>): State {
    if log == [] then START else Step(Replay(log[..|log| - 1]), log[|log| - 1])
  }

  // ---------------------------------------------------------------- stopping a process

  function Repeat(e: Event, n: nat): seq<Event> {
    if n == 0 then [] else Repeat(e, n - 1) + [e]
  }

  /** A process is asked to stop, polled at most `polls` times, and killed only if it is still there
      after the last poll: `waits` polls found it running. */
  function StopTrace(pid: int, waits: nat, polls: nat, status: ExitStatus): seq<Event> {
    [Kill(pid, SIGTERM, true), Kill(pid, SIGTERM, false)]
    + Repeat(StillRunning(pid), waits)
    + (if waits < polls then [] else [Kill(pid, SIGKILL, true), Kill(pid, SIGKILL, false)])
    + [Reaped(pid, status)]
  }

  lemma {:induction false} RepeatedOnly(e: Event, n: nat)
    ensures |Repeat(e, n)| == n && forall k :: 0 <= k < n ==> Repeat(e, n)[k] == e
  {
    if n > 0 {
      RepeatedOnly(e, n - 1);
    }
  }

  /** The group and the process get SIGTERM first. SIGKILL comes, to both, exactly if every poll found the process
      there, and after all of them; at the end it is waited for. */
  lemma StopTells(pid: int, waits: nat, polls: nat, status: ExitStatus)
    requires waits <= polls
    ensures var calls := StopTrace(pid, waits, polls, status);
      && |calls| == waits + (if waits < polls then 3 else 5)
      && calls[0] == Kill(pid, SIGTERM, true) && calls[1] == Kill(pid, SIGTERM, false)
      && (forall k :: 2 <= k < 2 + waits ==> calls[k] == StillRunning(pid))
      && (waits == polls ==>
            calls[2 + polls] == Kill(pid, SIGKILL, true) && calls[3 + polls] == Kill(pid, SIGKILL, false))
      && calls[|calls| - 1] == Reaped(pid, status)
  {
    RepeatedOnly(StillRunning(pid), waits);
  }

  /** The three trace pieces of a stop, put together. */
  lemma StoppedByTerm(before: seq<Event>, pid: int, waits: nat, polls: nat, status: ExitStatus)
    requires waits < polls
    ensures before + [Kill(pid, SIGTERM, true), Kill(pid, SIGTERM, false)] + Repeat(StillRunning(pid), waits)
            + [Reaped(pid, status)]
         == before + StopTrace(pid, waits, polls, status)
  {
  }

  lemma StoppedByKill(before: seq<Event>, pid: int, polls: nat, status: ExitStatus)
    ensures before + [Kill(pid, SIGTERM, true), Kill(pid, SIGTERM, false)] + Repeat(StillRunning(pid), polls)
            + [Kill(pid, SIGKILL, true), Kill(pid, SIGKILL, false), Reaped(pid, status)]
         == before + StopTrace(pid, polls, polls, status)
  {
  }

  /** The books after `pid`, if it is one, has been waited for. */
  function WithoutChild(s: State, pid: int): State {
    if pid > 0 then s.(children := s.children - {pid}) else s
  }

  // ---------------------------------------------------------------- safety

  /** A call to PAM on a handle. */
  predicate IsCall(e: Event) {
    || e.SetConversation? || e.Authenticate? || e.AcctMgmt? || e.EstablishCred? || e.OpenSession?
    || e.PutEnv? || e.GetEnvList? || e.CloseSession? || e.DeleteCred? || e.PamEnd?
  }

  /** Correct use of PAM by any program: a call needs a live handle, credentials are deleted and a
      session is closed only when there is one, and a handle is ended with neither left behind. */
  predicate PamAllowed(s: State, e: Event) {
    match e
    case PamStart(h, _, _, _) => h == s.started + 1
    case DeleteCred(h, _) => h in s.live && s.live[h].credentials
    case CloseSession(h, _) => h in s.live && s.live[h].open
    case PamEnd(h) => h in s.live && !s.live[h].credentials && !s.live[h].open
    case _ => IsCall(e) ==> HandleOf(e) in s.live
  }

  predicate OnlyGreeter(s: State) {
    && |s.children| <= 1 && (forall pid :: pid in s.children ==> s.children[pid] == Greeter)
  }

  predicate OnlyGreeterHandle(s: State) {
    && |s.live| <= 1 && (forall h :: h in s.live ==> s.live[h].asked == GREETER_SERVICE)
  }

  /** There is one handle, and on it `user` has been authenticated, checked, given credentials and a
      session, in that order. */
  predicate OnlyCompleteLogin(s: State, user: string) {
    && |s.live| == 1 && (forall h :: h in s.live ==> s.live[h] == Auth(USER_SERVICE, user, COMPLETE, true, true))
  }

  /** On some handle a user has completed all five stages. */
  predicate SomeoneLoggedIn(s: State) {
    exists h :: h in s.live && s.live[h] == Auth(USER_SERVICE, s.live[h].user, COMPLETE, true, true)
  }

  /** A response is given only if it is owed and there is no session yet, and it grants a login exactly if someone
      has logged in. */
  predicate MayRespond(s: State, message: Message) {
    OnlyGreeter(s) && s.owed && (message == LOGIN_GRANTED <==> SomeoneLoggedIn(s))
  }

  /** What the display manager may do in state `s`. */
  predicate Allowed(s: State, e: Event) {
    && PamAllowed(s, e)
    && match e
       case PamStart(_, service, asked, _) =>
         && (service == asked || service == "login")
         && (asked == GREETER_SERVICE || asked == USER_SERVICE)
         && OnlyGreeter(s)
         && |s.live| <= 1
         && (asked == GREETER_SERVICE ==> s.live == map[] && s.children == map[])
       case Fork(pid, what) =>
         && pid > 0
         && s.children == map[]
         && (if what.GreeterProcess? then OnlyGreeterHandle(s) else OnlyCompleteLogin(s, what.user.username) && !s.owed)
       case Kill(pid, _, _) => pid in s.children
       case Request(_, _) => !s.owed && s.fate == Alive
       case Reply(message, _) => MayRespond(s, message)
       case BrokenPipe(message) => MayRespond(s, message)
       case LoopHead(g) =>
         && s.children == (if g > 0 then map[g := Greeter] else map[])
         && OnlyGreeterHandle(s)
         && !s.owed && s.fate == Alive
         && (g > 0 <==> s.greeter == Worked)
       case _ => true
  }

  /** Every event was a correct use of PAM when it happened. */
  ghost predicate PamSafe(log: seq<Event>) {
    forall i :: 0 <= i < |log| ==> PamAllowed(Replay(log[..i]), log[i])
  }

  /** Every event was allowed when it happened. */
  ghost predicate Safe(log: seq<Event>) {
    forall i :: 0 <= i < |log| ==> Allowed(Replay(log[..i]), log[i])
  }

  /** What the operating system guarantees: a new handle is new, a new child has the pid of no unreaped
      child, and `waitpid` reports on children only. */
  predicate Possible(s: State, e: Event) {
    match e
    case PamStart(h, _, _, _) => h == s.started + 1
    case Fork(pid, _) => pid > 0 && pid !in s.children
    case StillRunning(pid) => pid in s.children
    case Reaped(pid, _) => pid in s.children
    case Interrupted(pid) => pid in s.children
    case NotAChild(pid) => pid !in s.children
    case _ => true
  }

  /** The operating system may answer all calls of the trace as it says. */
  ghost predicate AllPossible(log: seq<Event>) {
    forall i :: 0 <= i < |log| ==> Possible(Replay(log[..i]), log[i])
  }

  /** A call that neither starts nor ends a handle, on a live one. */
  lemma CallOnLive(s: State, e: Event)
    requires HandleOf(e) in s.live && HandleOf(e) != 0 && !e.PamStart? && !e.PamEnd?
    requires e.DeleteCred? ==> s.live[HandleOf(e)].credentials
    requires e.CloseSession? ==> s.live[HandleOf(e)].open
    ensures PamAllowed(s, e) && Allowed(s, e)
    ensures Step(s, e) == s.(live := s.live[HandleOf(e) := OnHandle(s.live[HandleOf(e)], e)])
  {
  }

  /** A call that leaves the state alone. */
  lemma CallWithoutEffect(s: State, e: Event)
    requires HandleOf(e) in s.live && HandleOf(e) != 0
    requires e.SetConversation? || e.PutEnv? || e.GetEnvList?
    ensures PamAllowed(s, e) && Allowed(s, e) && Step(s, e) == s
  {
    assert s.live[HandleOf(e) := s.live[HandleOf(e)]] == s.live;
  }

  lemma EndOfLive(s: State, h: nat)
    requires h in s.live && !s.live[h].credentials && !s.live[h].open
    ensures PamAllowed(s, PamEnd(h)) && Allowed(s, PamEnd(h))
    ensures Step(s, PamEnd(h)) == s.(live := s.live - {h})
  {
  }

  predicate StartEffect(s: State, service: string, asked: string, user: string) {
    var e := PamStart(s.started + 1, service, asked, user);
    && PamAllowed(s, e)
    && Step(s, e) == s.(started := s.started + 1, live := s.live[s.started + 1 := Auth(asked, user, 0, false, false)])
  }

  /** A first `pam_start`, successful or not, for service `asked`, or a second one for "login" after a failure. */
  lemma StartOnce(s: State, asked: string, user: string)
    ensures StartEffect(s, asked, asked, user) && StartEffect(s, "login", asked, user)
    ensures Allowed(s, PamStart(s.started + 1, asked, asked, user)) ==>
      Allowed(s, PamStart(s.started + 1, "login", asked, user))
    ensures forall service :: PamAllowed(s, PamStartFailed(service, user)) && Allowed(s, PamStartFailed(service, user))
    ensures forall service :: Step(s, PamStartFailed(service, user)) == s
  {
  }

  /** Asking about a process changes nothing until it is reaped. */
  lemma WaitCalls(s: State, pid: int)
    ensures forall e :: e in {StillRunning(pid), NotAChild(pid), Interrupted(pid)} ==>
      PamAllowed(s, e) && Allowed(s, e) && Step(s, e) == s
    ensures forall status :: var e := Reaped(pid, status);
      PamAllowed(s, e) && Allowed(s, e) && Step(s, e) == s.(children := s.children - {pid})
  {
  }

  /** A signal changes nothing in the books, and is allowed exactly for an unreaped child. */
  lemma KillCall(s: State, pid: int)
    ensures forall signal, group :: var e := Kill(pid, signal, group);
      PamAllowed(s, e) && Step(s, e) == s && (Allowed(s, e) <==> pid in s.children)
  {
  }

  lemma ForkCalls(s: State, what: Launch)
    ensures forall pid :: var e := Fork(pid, what);
      && PamAllowed(s, e)
      && Step(s, e) == s.(children := s.children[pid := what.Role()],
                          greeter := if what.GreeterProcess? then Worked else s.greeter)
    ensures var e := ForkFailed(what);
      PamAllowed(s, e) && Allowed(s, e) && Step(s, e) == if what.GreeterProcess? then s.(greeter := Failed) else s
  {
  }

  lemma LoopCall(s: State, e: Event)
    requires e.Polled? || e.Accepted?
    ensures PamAllowed(s, e) && Allowed(s, e) && Step(s, e) == s && Possible(s, e)
  {
  }

  /** Handles are numbered from 1 up to the number of successful starts. */
  predicate Numbered(s: State) {
    forall h :: h in s.live ==> 0 < h <= s.started
  }

  lemma StepNumbered(s: State, e: Event)
    requires Numbered(s) && Possible(s, e)
    ensures Numbered(Step(s, e))
  {
  }

  lemma ReplayAppend(log: seq<Event>, e: Event)
    ensures Replay(log + [e]) == Step(Replay(log), e)
  {
    assert (log + [e])[..|log|] == log;
  }

  lemma SafeAppend(log: seq<Event>, e: Event)
    ensures PamSafe(log + [e]) <==> PamSafe(log) && PamAllowed(Replay(log), e)
    ensures Safe(log + [e]) <==> Safe(log) && Allowed(Replay(log), e)
  {
    var more := log + [e];
    hide PamAllowed, Allowed, Replay;
    assert forall i :: 0 <= i <= |log| ==> more[..i] == log[..i];
    assert log[..|log|] == log;
    assert more[|log|] == e;
    assert forall i :: 0 <= i < |log| ==> more[i] == log[i];
  }
}
