/** What the daemon does between two events of a run, as pieces of its trace. */
module Turns {
  import opened Text
  import opened Messages
  import opened Sessions
  import opened Configuration
  import opened Json
  import Ipc
  import opened Framing
  import opened Trace
  import opened Pam

  // ---------------------------------------------------------------- the pieces of a run

  /** The variables that logind needs before a PAM session is opened. */
  function SessionVariables(h: nat, sessionClass: string, vt: int): seq<Event> {
    [ PutEnv(h, "XDG_SESSION_CLASS" + "=" + sessionClass),
      PutEnv(h, "XDG_SESSION_TYPE" + "=" + "wayland"),
      PutEnv(h, "XDG_SEAT" + "=" + "seat0"),
      PutEnv(h, "XDG_VTNR" + "=" + IntToString(vt)) ]
  }

  function DesktopVariables(h: nat, desktopName: string): seq<Event> {
    if desktopName == "" then []
    else
      [ PutEnv(h, "XDG_CURRENT_DESKTOP" + "=" + desktopName),
        PutEnv(h, "XDG_SESSION_DESKTOP" + "=" + desktopName) ]
  }

  /** `start`: the service, or "login" after it failed. */
  function Started(h: nat, fallback: bool, service: string, user: string): seq<Event> {
    if fallback then [PamStartFailed(service, user), PamStart(h, "login", service, user)]
    else [PamStart(h, service, service, user)]
  }

  /** How far a login got. */
  datatype Attempt =
    | NotStarted
    | NoConversation(h: nat, fallback: bool)
    | Unauthenticated(h: nat, fallback: bool)
    | NoAccount(h: nat, fallback: bool)
    | NoCredentials(h: nat, fallback: bool)
    | NoSession(h: nat, fallback: bool)
    | Granted(h: nat, fallback: bool)

  /** The PAM calls of a login that got that far. */
  function AttemptTrace(a: Attempt, req: Message, vt: int): seq<Event> {
    if a.NotStarted? then [PamStartFailed(USER_SERVICE, req.username), PamStartFailed("login", req.username)]
    else
      Started(a.h, a.fallback, USER_SERVICE, req.username)
      + match a
        case NoConversation(h, _) => [SetConversation(h, req.password, false)]
        case Unauthenticated(h, _) => [SetConversation(h, req.password, true), Authenticate(h, false)]
        case NoAccount(h, _) =>
          [SetConversation(h, req.password, true), Authenticate(h, true), AcctMgmt(h, false)]
        case NoCredentials(h, _) =>
          [SetConversation(h, req.password, true), Authenticate(h, true), AcctMgmt(h, true), EstablishCred(h, false)]
        case NoSession(h, _) => CheckedUser(h, req.password) + Variables(h, req, vt) + [OpenSession(h, false)]
        case Granted(h, _) => CheckedUser(h, req.password) + Variables(h, req, vt) + [OpenSession(h, true)]
  }

  function CheckedUser(h: nat, password: string): seq<Event> {
    [SetConversation(h, password, true), Authenticate(h, true), AcctMgmt(h, true), EstablishCred(h, true)]
  }

  function Variables(h: nat, req: Message, vt: int): seq<Event> {
    SessionVariables(h, "user", vt) + DesktopVariables(h, req.desktopName)
  }

  /** How the response to a failed login begins; what PAM says of the error follows. */
  function RefusalText(a: Attempt): string
    requires !a.Granted?
  {
    match a
    case NotStarted => "PAM initialization error: "
    case NoConversation(_, _) => "Authentication failed: "
    case Unauthenticated(_, _) => "Authentication failed: "
    case NoAccount(_, _) => "Account check failed: "
    case NoCredentials(_, _) => "Failed to establish credentials: "
    case NoSession(_, _) => "Failed to open session: "
  }

  /** The response to a login that got that far. */
  ghost predicate AnswersAttempt(answer: Message, a: Attempt) {
    if a.Granted? then answer == LOGIN_GRANTED
    else exists text :: answer == Answer(false, RefusalText(a) + text)
  }

  /** A refusal says which stage failed. */
  lemma RefusalTells(answer: Message, a: Attempt)
    requires AnswersAttempt(answer, a) && !a.Granted?
    ensures !answer.success && answer.kind == Response
    ensures a.NotStarted? ==> "PAM initialization error: " <= answer.message
    ensures a.NoConversation? || a.Unauthenticated? ==> "Authentication failed: " <= answer.message
    ensures a.NoAccount? ==> "Account check failed: " <= answer.message
    ensures a.NoCredentials? ==> "Failed to establish credentials: " <= answer.message
    ensures a.NoSession? ==> "Failed to open session: " <= answer.message
  {
  }

  lemma RefusalAnswers(problem: string, a: Attempt)
    requires !a.Granted? && exists text :: problem == RefusalText(a) + text
    ensures AnswersAttempt(Answer(false, problem), a)
  {
  }

  lemma GrantAnswers(a: Attempt)
    requires a.Granted?
    ensures AnswersAttempt(LOGIN_GRANTED, a) && LOGIN_GRANTED.success
  {
  }

  /** The attempt fails at the first of the three checks that does not succeed, and nothing is called after it. */
  predicate CheckFails(a: Attempt, h: nat, fallback: bool, password: string, calls: seq<Event>) {
    var given := SetConversation(h, password, true);
    match a
    case NoConversation(_, _) => a == NoConversation(h, fallback) && calls == [SetConversation(h, password, false)]
    case Unauthenticated(_, _) => a == Unauthenticated(h, fallback) && calls == [given, Authenticate(h, false)]
    case NoAccount(_, _) =>
      a == NoAccount(h, fallback) && calls == [given, Authenticate(h, true), AcctMgmt(h, false)]
    case NoCredentials(_, _) =>
      && a == NoCredentials(h, fallback)
      && calls == [given, Authenticate(h, true), AcctMgmt(h, true), EstablishCred(h, false)]
    case _ => false
  }

  lemma FailedCheckTrace(a: Attempt, h: nat, fallback: bool, calls: seq<Event>, req: Message, vt: int)
    requires CheckFails(a, h, fallback, req.password, calls)
    ensures AttemptTrace(a, req, vt) == Started(h, fallback, USER_SERVICE, req.username) + calls
    ensures HandleIn(a) == h && !a.Granted? && !a.NoSession?
  {
    hide Started;
  }

  /** The handle of an attempt, if it got one. */
  function HandleIn(a: Attempt): nat {
    if a.NotStarted? then 0 else a.h
  }

  /** The five calls that have to succeed; the start may be that of the fallback. */
  function FiveStages(h: nat, service: string, user: string): seq<Event> {
    [ PamStart(h, service, USER_SERVICE, user), Authenticate(h, true), AcctMgmt(h, true), EstablishCred(h, true),
      OpenSession(h, true) ]
  }

  predicate Includes(calls: seq<Event>, wanted: seq<Event>) {
    forall i :: 0 <= i < |wanted| ==> wanted[i] in calls
  }

  /** What may come between a request and its response. */
  predicate Prepares(e: Event) {
    || e.PamStart? || e.PamStartFailed? || e.SetConversation? || e.Authenticate? || e.AcctMgmt? || e.EstablishCred?
    || e.OpenSession? || e.PutEnv? || e.LogindCall?
  }

  /** The entries that are put into the environment of a handle. */
  function EntriesPut(calls: seq<Event>, h: nat): seq<string> {
    if calls == [] then []
    else
      var last := calls[|calls| - 1];
      EntriesPut(calls[..|calls| - 1], h) + if last.PutEnv? && last.handle == h then [last.entry] else []
  }

  /** What tells logind what kind of session this is. */
  function Descriptions(sessionClass: string, vt: int): seq<string> {
    ["XDG_SESSION_CLASS=" + sessionClass, "XDG_SESSION_TYPE=wayland", "XDG_SEAT=seat0", "XDG_VTNR=" + IntToString(vt)]
  }

  /** And which desktop it is, if the request says so. */
  function DesktopDescriptions(desktopName: string): seq<string> {
    if desktopName == "" then []
    else ["XDG_CURRENT_DESKTOP=" + desktopName, "XDG_SESSION_DESKTOP=" + desktopName]
  }

  lemma {:induction false} EntriesPutConcat(a: seq<Event>, b: seq<Event>, h: nat)
    ensures EntriesPut(a + b, h) == EntriesPut(a, h) + EntriesPut(b, h)
  {
    if b == [] {
      assert a + b == a;
    } else {
      var init, last := b[..|b| - 1], b[|b| - 1];
      EntriesPutConcat(a, init, h);
      assert (a + b)[..|a + b| - 1] == a + init;
      assert (a + b)[|a + b| - 1] == last;
    }
  }

  lemma {:induction false} NoEntriesPut(calls: seq<Event>, h: nat)
    requires forall i :: 0 <= i < |calls| ==> !calls[i].PutEnv?
    ensures EntriesPut(calls, h) == []
  {
    if calls != [] {
      NoEntriesPut(calls[..|calls| - 1], h);
    }
  }

  lemma OneEntryPut(e: Event, h: nat)
    ensures EntriesPut([e], h) == if e.PutEnv? && e.handle == h then [e.entry] else []
  {
    assert [e][..0] == [];
  }

  lemma VariablesDescribe(h: nat, sessionClass: string, vt: int, desktopName: string)
    ensures EntriesPut(SessionVariables(h, sessionClass, vt), h) == Descriptions(sessionClass, vt)
    ensures EntriesPut(DesktopVariables(h, desktopName), h) == DesktopDescriptions(desktopName)
  {
    hide EntriesPut, IntToString;
    forall e {
      OneEntryPut(e, h);
    }
    var v := SessionVariables(h, sessionClass, vt);
    EntriesPutConcat([v[0]] + [v[1]] + [v[2]], [v[3]], h);
    EntriesPutConcat([v[0]] + [v[1]], [v[2]], h);
    EntriesPutConcat([v[0]], [v[1]], h);
    assert v == [v[0]] + [v[1]] + [v[2]] + [v[3]];
    assert "XDG_SESSION_CLASS" + "=" == "XDG_SESSION_CLASS=" && "XDG_VTNR" + "=" == "XDG_VTNR=";
    assert "XDG_SESSION_TYPE" + "=" + "wayland" == "XDG_SESSION_TYPE=wayland";
    assert "XDG_SEAT" + "=" + "seat0" == "XDG_SEAT=seat0";
    NoEntriesPut([], h);
    if desktopName != "" {
      var d := DesktopVariables(h, desktopName);
      EntriesPutConcat([d[0]], [d[1]], h);
      assert d == [d[0]] + [d[1]];
      assert "XDG_CURRENT_DESKTOP" + "=" == "XDG_CURRENT_DESKTOP=";
      assert "XDG_SESSION_DESKTOP" + "=" == "XDG_SESSION_DESKTOP=";
    }
  }

  /** When the user's session is opened, logind has been told exactly that it is a Wayland session of class "user" on
      seat0 and the configured terminal, and which desktop it is, if the request says so. */
  lemma SessionIsDescribed(a: Attempt, req: Message, vt: int, k: nat)
    requires k < |AttemptTrace(a, req, vt)| && AttemptTrace(a, req, vt)[k].OpenSession?
    ensures EntriesPut(AttemptTrace(a, req, vt)[..k], HandleIn(a))
         == Descriptions("user", vt) + DesktopDescriptions(req.desktopName)
  {
    hide EntriesPut, IntToString, Descriptions, DesktopDescriptions;
    var h := HandleIn(a);
    SessionTrace(a, req, vt);
    var start, checks := Started(h, a.fallback, USER_SERVICE, req.username), CheckedUser(h, req.password);
    var session, desktop := SessionVariables(h, "user", vt), DesktopVariables(h, req.desktopName);
    VariablesDescribe(h, "user", vt, req.desktopName);
    NoEntriesPut(start + checks, h);
    EntriesPutConcat(start + checks, session, h);
    EntriesPutConcat(start + checks + session, desktop, h);
    assert AttemptTrace(a, req, vt) == start + checks + session + desktop + [OpenSession(h, a.Granted?)];
    assert AttemptTrace(a, req, vt)[..k] == start + checks + session + desktop;
  }

  /** What is in the trace of an attempt, and which of its calls say that it worked. */
  predicate OfAttempt(e: Event, a: Attempt, req: Message) {
    && Prepares(e)
    && (e.SetConversation? ==> e.password == req.password)
    && (e.PamStart? || e.PamStartFailed? ==> e.user == req.username)
    && (e.OpenSession? ==> e.ok == a.Granted?)
    && (e.EstablishCred? && e.ok ==> a.NoSession? || a.Granted?)
    && (e.PamStart? ==> !a.NotStarted?)
  }

  ghost predicate AllOfAttempt(calls: seq<Event>, a: Attempt, req: Message) {
    forall i :: 0 <= i < |calls| ==> OfAttempt(calls[i], a, req)
  }

  lemma AllOfAttemptConcat(x: seq<Event>, y: seq<Event>, a: Attempt, req: Message)
    requires AllOfAttempt(x, a, req) && AllOfAttempt(y, a, req)
    ensures AllOfAttempt(x + y, a, req)
  {
    hide OfAttempt;
  }

  lemma AttemptCalls(a: Attempt, req: Message, vt: int)
    ensures AllOfAttempt(AttemptTrace(a, req, vt), a, req)
    ensures a.NoSession? || a.Granted? ==> EstablishCred(a.h, true) in AttemptTrace(a, req, vt)
  {
    hide IntToString, Variables;
    if a.NoSession? || a.Granted? {
      SessionTrace(a, req, vt);
      var start, checks := Started(a.h, a.fallback, USER_SERVICE, req.username), CheckedUser(a.h, req.password);
      var before := start + checks;
      VariablesOfAttempt(a, req, vt);
      AllOfAttemptConcat(start, checks, a, req);
      AllOfAttemptConcat(before, Variables(a.h, req, vt), a, req);
      AllOfAttemptConcat(before + Variables(a.h, req, vt), [OpenSession(a.h, a.Granted?)], a, req);
      assert before[|start| + 3] == EstablishCred(a.h, true);
    }
  }

  lemma VariablesOfAttempt(a: Attempt, req: Message, vt: int)
    requires !a.NotStarted?
    ensures AllOfAttempt(Variables(a.h, req, vt), a, req)
  {
    hide IntToString;
  }

  /** A login is granted exactly if all five stages succeeded on one handle. */
  lemma GrantedIsFiveStages(a: Attempt, req: Message, vt: int)
    ensures a.Granted? <==>
      exists h, service :: Includes(AttemptTrace(a, req, vt), FiveStages(h, service, req.username))
  {
    hide Variables, AttemptTrace;
    var calls := AttemptTrace(a, req, vt);
    if a.Granted? {
      SessionTrace(a, req, vt);
      var service := if a.fallback then "login" else USER_SERVICE;
      assert Includes(calls, FiveStages(a.h, service, req.username));
    } else {
      AttemptCalls(a, req, vt);
      forall h, service ensures !Includes(calls, FiveStages(h, service, req.username)) {
        assert FiveStages(h, service, req.username)[4] == OpenSession(h, true) && OpenSession(h, true) !in calls;
      }
    }
  }

  /** Whatever comes of it, PAM is given the password of the request and no other. */
  lemma PasswordIsTheRequests(a: Attempt, req: Message, vt: int)
    ensures forall e :: e in AttemptTrace(a, req, vt) && e.SetConversation? ==> e.password == req.password
    ensures forall e :: e in AttemptTrace(a, req, vt) && (e.PamStart? || e.PamStartFailed?) ==> e.user == req.username
  {
    hide AttemptTrace;
    AttemptCalls(a, req, vt);
  }

  /** A refused login leaves nothing open: its handle is ended once, as the last thing; the credentials are
      deleted if and only if they were set; and no session was opened. */
  lemma RefusedIsBalanced(a: Attempt, req: Message, vt: int, refused: seq<Event>)
    requires !a.Granted? && (a.NotStarted? <==> HandleIn(a) == 0)
    requires Released(refused, Owner(HandleIn(a), false, a.NoSession?))
    ensures var all := AttemptTrace(a, req, vt) + refused;
      && (forall k :: 0 <= k < |all| ==> (all[k].PamEnd? <==> !a.NotStarted? && k == |all| - 1))
      && (a.NotStarted? ==> forall k :: 0 <= k < |all| ==> !all[k].PamStart?)
      && (!a.NotStarted? ==> all != [] && all[|all| - 1] == PamEnd(a.h))
      && (forall h :: OpenSession(h, true) !in all)
      && ((exists ok :: DeleteCred(HandleIn(a), ok) in all) <==> EstablishCred(HandleIn(a), true) in all)
  {
    hide AttemptTrace;
    AttemptCalls(a, req, vt);
    if !a.NotStarted? {
      var closeOk, deleteOk :| refused == Ending(a.h, false, a.NoSession?, closeOk, deleteOk);
      assert refused == (if a.NoSession? then [DeleteCred(a.h, deleteOk)] else []) + [PamEnd(a.h)];
      if a.NoSession? {
        assert refused[0] == DeleteCred(a.h, deleteOk);
      }
    }
  }

  /** The user that a login is for: a cached account, or a made-up one. */
  function ChosenUser(cache: seq<UserInfo>, username: string): UserInfo {
    if cache == [] then BLANK_USER.(username := username, homeDir := "/home/" + username, shell := "/bin/bash")
    else if cache[0].username == username then cache[0]
    else ChosenUser(cache[1..], username)
  }

  /** Whoever it is, it is the user who was authenticated: the first account of that name, or one that is made up. */
  lemma {:induction false} ChosenUserHasTheName(cache: seq<UserInfo>, username: string)
    ensures ChosenUser(cache, username).username == username
    ensures forall i :: 0 <= i < |cache| && cache[i].username == username ==>
      ChosenUser(cache, username) == cache[i] || exists j :: 0 <= j < i && cache[j].username == username
    ensures (forall i :: 0 <= i < |cache| ==> cache[i].username != username) ==>
      ChosenUser(cache, username) == UserInfo(username, "", "/home/" + username, "", 0, 0, "/bin/bash")
  {
    if cache != [] && cache[0].username != username {
      ChosenUserHasTheName(cache[1..], username);
    }
  }

  /** The books at rest: the only child is the recorded greeter, the only live handle the greeter's. */
  predicate Settled(s: State, greeterPid: int, greeterHandle: nat) {
    && s.children == (if greeterPid > 0 then map[greeterPid := Greeter] else map[])
    && (greeterHandle == 0 ==> s.live == map[])
    && (greeterHandle != 0 ==> s.live.Keys == {greeterHandle} && s.live[greeterHandle].asked == GREETER_SERVICE)
  }

  /** A flag that is down is down in the books. */
  lemma NullIsNotOpen(s: State, o: Owner)
    requires InOrder(s, o) && Numbered(s) && !o.session
    ensures o.handle in s.live ==> !s.live[o.handle].open
  {
  }

  lemma NullIsNotLive(s: State)
    requires Numbered(s)
    ensures 0 !in s.live && s.live - {0} == s.live
  {
  }

  /** The trace of stopping the greeter process `pid`, if there is one: at most 20 polls. */
  ghost predicate Stopped(stop: seq<Event>, pid: int) {
    if pid > 0
    then exists waits, status :: waits <= 20 && stop == StopTrace(pid, waits, 20, status)
    else stop == []
  }

  /** The trace of giving up a handle, if there is one. */
  ghost predicate Released(end: seq<Event>, owner: Owner) {
    if owner.handle != 0
    then exists closeOk, deleteOk :: end == Ending(owner.handle, owner.session, owner.credentials, closeOk, deleteOk)
    else end == []
  }

  /** What the daemon has in hand between two events of a run: the recorded greeter and what there is of its PAM handle,
      the caches, and the settings with their file. */
  datatype Stand = Stand(
    pid: int,
    greeter: Owner,
    users: seq<UserInfo>,
    sessions: seq<SessionInfo>,
    settings: Settings,
    file: string)
  {
    function Command(): string {
      settings.general.greeterCommand
    }

    function Vt(): int {
      settings.general.vt
    }
  }

  /** What the daemon finds on the machine: the accounts that `getpwnam` knows and those that a scan lists, the session
      directories, and whether the configuration can be written. */
  datatype Host = Host(
    accounts: set<string>,
    users: seq<UserInfo>,
    usr: Directory,
    local: Directory,
    writable: bool)

  /** The PAM side of starting a greeter; what credentials and session come to is not asked, but the object that owns
      the handle keeps it. */
  ghost predicate GreeterSetup(setup: seq<Event>, owner: Owner, user: string, vt: int) {
    var h := owner.handle;
    if h == 0
    then
      && owner == Owner(0, false, false)
      && setup == [PamStartFailed(GREETER_SERVICE, user), PamStartFailed("login", user)]
    else exists fallback ::
      setup == Started(h, fallback, GREETER_SERVICE, user)
               + SessionVariables(h, "greeter", vt)
               + [EstablishCred(h, owner.credentials), OpenSession(h, owner.session)]
  }

  /** When the greeter's session is opened, logind has been told exactly that it is a Wayland session of class "greeter"
      on seat0 and the configured terminal. */
  lemma GreeterIsDescribed(setup: seq<Event>, owner: Owner, user: string, vt: int, k: nat)
    requires GreeterSetup(setup, owner, user, vt) && k < |setup| && setup[k].OpenSession?
    ensures EntriesPut(setup[..k], owner.handle) == Descriptions("greeter", vt)
  {
    hide EntriesPut, IntToString, Descriptions;
    var h := owner.handle;
    var fallback :| setup == Started(h, fallback, GREETER_SERVICE, user) + SessionVariables(h, "greeter", vt)
                             + [EstablishCred(h, owner.credentials), OpenSession(h, owner.session)];
    var start, session, cred := Started(h, fallback, GREETER_SERVICE, user), SessionVariables(h, "greeter", vt),
                                [EstablishCred(h, owner.credentials)];
    VariablesDescribe(h, "greeter", vt, "");
    NoEntriesPut(start, h);
    NoEntriesPut(cred, h);
    EntriesPutConcat(start, session, h);
    EntriesPutConcat(start + session, cred, h);
    assert setup == start + session + cred + [OpenSession(h, owner.session)];
    assert setup[..k] == start + session + cred;
  }

  function GreeterForked(pid: int, user: string, command: string): Event {
    if pid > 0 then Fork(pid, GreeterProcess(user, command)) else ForkFailed(GreeterProcess(user, command))
  }

  /** A greeter from its PAM handle to its process, or to the fork that failed. */
  ghost predicate GreeterStarted(start: seq<Event>, now: Stand, accounts: set<string>) {
    exists setup, user ::
      && IsGreeterUser(user, now.settings.general.greeterUser, accounts)
      && GreeterSetup(setup, now.greeter, user, now.Vt())
      && start == setup + [GreeterForked(now.pid, user, now.Command())]
  }

  lemma GreeterIsStarted(setup: seq<Event>, user: string, now: Stand, accounts: set<string>)
    requires IsGreeterUser(user, now.settings.general.greeterUser, accounts)
    requires GreeterSetup(setup, now.greeter, user, now.Vt())
    ensures GreeterStarted(setup + [GreeterForked(now.pid, user, now.Command())], now, accounts)
  {
  }

  const NO_OWNER := Owner(0, false, false)

  /** As the daemon does it after a session: not while it is stopping, and not without a command. */
  ghost predicate Restarted(restart: seq<Event>, now: Stand, accounts: set<string>) {
    || (restart == [] && now.pid == -1 && now.greeter == NO_OWNER)
    || GreeterStarted(restart, now, accounts)
  }

  /** What the last greeter left of PAM is released, and a new one is started, if there is a command. */
  ghost predicate Replaced(end: seq<Event>, start: seq<Event>, owner: Owner, now: Stand, accounts: set<string>) {
    if now.Command() == "" then end == [] && start == [] && now.pid == -1 && now.greeter == owner
    else Released(end, owner) && GreeterStarted(start, now, accounts)
  }

  /** The check for a greeter that died: the recorded one is asked about, and replaced if it is gone. */
  ghost predicate Checked(calls: seq<Event>, was: Stand, now: Stand, accounts: set<string>) {
    && now == was.(pid := now.pid, greeter := now.greeter)
    && if was.pid <= 0 then calls == [] && now == was
       else
         || (calls == [StillRunning(was.pid)] && now == was)
         || exists status, end, start ::
              && calls == [Reaped(was.pid, status)] + end + start
              && Replaced(end, start, was.greeter, now, accounts)
  }

  /** The daemon starts a greeter again as long as it runs and has a command, and not when it has been told to stop. */
  predicate Resumes(ran: bool, runs: bool, command: string, restart: seq<Event>) {
    (runs && command != "" ==> restart != []) && (!ran ==> restart == [])
  }

  /** The user's process from PAM's environment, which it is given, to its end, or the fork that failed. */
  ghost predicate SessionRun(run: seq<Event>, h: nat, what: Launch) {
    && what.SessionProcess?
    && (|| run == [GetEnvList(h, what.pamEnvs)] + [ForkFailed(what)]
        || (exists pid, n, status ::
              run == [GetEnvList(h, what.pamEnvs)] + [Fork(pid, what)] + Repeat(Interrupted(pid), n)
                     + [Reaped(pid, status)]))
  }

  /** What follows the reply to a granted login, in order. */
  datatype LoginParts = LoginParts(
    stop: seq<Event>,
    greeterEnd: seq<Event>,
    session: seq<Event>,
    end: seq<Event>,
    restart: seq<Event>,
    what: Launch)
  {
    function All(): seq<Event> {
      stop + greeterEnd + session + end + restart
    }
  }

  const NO_PARTS := LoginParts([], [], [], [], [], GreeterProcess("", ""))

  /** What follows the response to a granted login: what is stopped, what runs, what starts again. */
  ghost predicate GrantRun(parts: LoginParts, h: nat, req: Message, host: Host, was: Stand, now: Stand) {
    && Stopped(parts.stop, was.pid) && Released(parts.greeterEnd, was.greeter)
    && parts.what.SessionProcess?
    && parts.what.user == ChosenUser(was.users, req.username)
    && parts.what.session == Chosen(was.sessions, req.desktopName, req.sessionExec)
    && parts.what.vt == was.Vt()
    && SessionRun(parts.session, h, parts.what)
    && Released(parts.end, Owner(h, true, true))
    && Restarted(parts.restart, now, host.accounts)
    && Remembered(was, now, req.username, host.writable)
  }

  /** The response that is written, or that its client does not wait for. */
  function Said(message: Message, alive: bool): Event {
    if alive then Reply(message, Ipc.Wire(message)) else BrokenPipe(message)
  }

  function AfterResponse(s: State, alive: bool): State {
    if alive then s.(replies := s.replies + 1, owed := false) else s.(fate := BySignal)
  }

  /** The daemon has been killed while it responded: besides what there was, there is the handle `h` of the
      attempt, if it got one. */
  predicate Abandoned(was: State, now: State, h: nat) {
    && now == was.(started := now.started, live := now.live, fate := BySignal)
    && now.live - {h} == was.live
    && (h in now.live ==> now.live[h].asked == USER_SERVICE)
  }

  /** A login's response and what the daemon does around it. */
  ghost predicate LoginExchange(req: Message, vt: int, answer: Message, alive: bool, a: Attempt,
                                before: seq<Event>, after: seq<Event>) {
    && AnswersAttempt(answer, a) && (answer.success <==> a.Granted?) && (a.NotStarted? <==> HandleIn(a) == 0)
    && before == AttemptTrace(a, req, vt)
    && (alive && !answer.success ==> Released(after, Owner(HandleIn(a), false, a.NoSession?)))
    && (!alive ==> after == [])
  }

  /** The last user is remembered if the settings ask for it, in the file too if it can be written; of the rest only the
      greeter changes. */
  predicate Remembered(was: Stand, now: Stand, username: string, writable: bool) {
    && now == was.(pid := now.pid, greeter := now.greeter, settings := now.settings, file := now.file)
    && if was.settings.general.rememberLastUser
       then now.settings == WithLastUser(was.settings, username)
            && now.file == if writable then Rendered(now.settings) else was.file
       else now.settings == was.settings && now.file == was.file
  }

  /** How a request is met: how far a login got, and what the daemon does before and after the response. */
  datatype Exchange = Exchange(a: Attempt, before: seq<Event>, after: seq<Event>, parts: LoginParts)

  /** A login, its response and what follows. */
  ghost predicate LoginHandled(req: Message, answer: Message, alive: bool, x: Exchange, host: Host, was: Stand,
                               now: Stand) {
    && LoginExchange(req, was.Vt(), answer, alive, x.a, x.before, x.after)
    && if alive && answer.success
       then x.after == x.parts.All() && GrantRun(x.parts, HandleIn(x.a), req, host, was, now)
       else now == was
  }

  /** Any other request and its response: a list that is asked for is read afresh. */
  ghost predicate QueryHandled(req: Message, answer: Message, host: Host, was: Stand, now: Stand) {
    && answer.kind == Response
    && now == was.(users := if req.kind.GetUsers? then host.users else was.users,
                   sessions := if req.kind.GetSessions? then Scanned(host.usr, host.local) else was.sessions)
    && Answered(req, answer, now.users, now.sessions)
  }

  /** One request and one response. */
  ghost predicate Handled(req: Message, answer: Message, alive: bool, x: Exchange, host: Host, was: Stand, now: Stand) {
    if req.kind.Login? then LoginHandled(req, answer, alive, x, host, was, now)
    else
      && QueryHandled(req, answer, host, was, now)
      && x.before == PowerCalls(req, answer.success) && x.after == []
  }

  /** A request from its line to the last call that it brings about. */
  ghost predicate Exchanged(line: string, req: Message, answer: Message, x: Exchange, calls: seq<Event>, fate: Fate,
                            host: Host, was: Stand, now: Stand) {
    && calls == [Request(line, false)] + (x.before + [Said(answer, fate == Alive)] + x.after)
    && Handled(req, answer, fate == Alive, x, host, was, now)
  }

  /** A line that arrived, from its request to the last call that it brings about. */
  ghost predicate Served(lib: Library, line: string, calls: seq<Event>, fate: Fate, host: Host, was: Stand,
                         now: Stand) {
    match Ipc.Decoded(lib, line)
    case Thrown => fate == ByException && calls == [Request(line, true)] && now == was
    case Fine(req) =>
      && fate != ByException
      && exists answer, x :: Exchanged(line, req, answer, x, calls, fate, host, was, now)
  }

  /** A connection, or none: without a line nothing happens. */
  ghost predicate Connected(lib: Library, chunks: Option<seq<string>>, calls: seq<Event>, fate: Fate, host: Host,
                            was: Stand, now: Stand) {
    var line := if chunks.Some? then FirstLine(Received(chunks.value)) else None;
    if line.Some? then Served(lib, line.value, calls, fate, host, was, now)
    else calls == [] && fate == Alive && now == was
  }

  /** A poll that found a client: the connection, and unless it ends the daemon the check for a greeter that died. */
  ghost predicate WithClient(lib: Library, chunks: Option<seq<string>>, served: seq<Event>, mid: Stand,
                             checked: seq<Event>, rest: seq<Event>, fate: Fate, host: Host, was: Stand, now: Stand) {
    && rest == [Accepted(chunks)] + served + checked
    && Connected(lib, chunks, served, fate, host, was, mid)
    && if fate == Alive then Checked(checked, mid, now, host.accounts) else checked == [] && now == mid
  }

  /** What follows a poll: nothing if it did not return, and otherwise at least the check. */
  ghost predicate AfterPoll(lib: Library, p: Poll, rest: seq<Event>, fate: Fate, host: Host, was: Stand, now: Stand) {
    match p
    case Readable =>
      exists chunks, served, mid, checked ::
        WithClient(lib, chunks, served, mid, checked, rest, fate, host, was, now)
    case Quiet => fate == Alive && Checked(rest, was, now, host.accounts)
    case _ => fate == Alive && rest == [] && now == was
  }

  /** One turn of the main loop. */
  ghost predicate Turn(lib: Library, calls: seq<Event>, fate: Fate, was: Stand, now: Stand) {
    exists p, rest, host ::
      calls == [LoopHead(was.pid), Polled(p)] + rest && AfterPoll(lib, p, rest, fate, host, was, now)
  }

  lemma PollsIdly(lib: Library, p: Poll, host: Host, was: Stand)
    ensures !p.Readable? && !p.Quiet? ==> AfterPoll(lib, p, [], Alive, host, was, was)
  {
  }

  /** The poll of this turn failed, which ends the loop. */
  predicate Breaks(calls: seq<Event>) {
    |calls| > 1 && calls[1] == Polled(PollFailed)
  }

  /** The first greeter of a run, if there is a command. */
  ghost predicate FirstStarted(start: seq<Event>, first: Stand, accounts: set<string>) {
    if first.Command() == "" then start == [] && first.pid == -1 && first.greeter == NO_OWNER
    else GreeterStarted(start, first, accounts)
  }

  /** What is left to be done after the main loop. */
  ghost predicate WoundUp(windup: seq<Event>, last: Stand) {
    exists stop, end :: windup == stop + end && Stopped(stop, last.pid) && Released(end, last.greeter)
  }

  // ---------------------------------------------------------------- a run as a chain of turns

  /** One turn and what the daemon has in hand after it. */
  datatype Lap = Lap(calls: seq<Event>, now: Stand)

  function Calls(laps: seq<Lap>): seq<Event> {
    if laps == [] then [] else Calls(laps[..|laps| - 1]) + laps[|laps| - 1].calls
  }

  function StandAfter(first: Stand, laps: seq<Lap>): Stand {
    if laps == [] then first else laps[|laps| - 1].now
  }

  /** Each turn starts from what the one before it left; only the last one may end the daemon, or the loop. */
  ghost predicate Chain(lib: Library, first: Stand, laps: seq<Lap>, fate: Fate)
    decreases |laps|
  {
    if laps == [] then fate == Alive
    else
      var init, last := laps[..|laps| - 1], laps[|laps| - 1];
      && Chain(lib, first, init, Alive)
      && (init != [] ==> !Breaks(init[|init| - 1].calls))
      && Turn(lib, last.calls, fate, StandAfter(first, init), last.now)
  }

  /** A whole run: the first greeter, the turns of the main loop, and what is done after it. */
  datatype Life = Life(start: seq<Event>, first: Stand, laps: seq<Lap>, windup: seq<Event>)
  {
    function Trace(): seq<Event> {
      start + Calls(laps) + windup
    }

    function Last(): Stand {
      StandAfter(first, laps)
    }
  }

  ghost predicate Lived(lib: Library, life: Life, was: Stand, accounts: set<string>, fate: Fate) {
    && life.first == was.(pid := life.first.pid, greeter := life.first.greeter)
    && FirstStarted(life.start, life.first, accounts)
    && Chain(lib, life.first, life.laps, fate)
    && if fate == Alive then WoundUp(life.windup, life.Last()) else life.windup == []
  }

  lemma NoLaps()
    ensures Calls([]) == []
  {
  }

  lemma WholeLife(log: seq<Event>, life: Life)
    ensures log + life.start + Calls(life.laps) + life.windup == log + life.Trace()
    ensures life.windup == [] ==> log + life.start + Calls(life.laps) == log + life.Trace()
  {
    hide Calls;
  }

  lemma OneMoreLap(lib: Library, first: Stand, laps: seq<Lap>, lap: Lap, fate: Fate)
    requires Chain(lib, first, laps, Alive) && Turn(lib, lap.calls, fate, StandAfter(first, laps), lap.now)
    requires laps != [] ==> !Breaks(laps[|laps| - 1].calls)
    ensures Chain(lib, first, laps + [lap], fate) && StandAfter(first, laps + [lap]) == lap.now
    ensures Calls(laps + [lap]) == Calls(laps) + lap.calls
  {
    hide Turn;
    assert (laps + [lap])[..|laps|] == laps;
  }

  predicate TriesSession(e: Event) {
    (e.Fork? || e.ForkFailed?) && e.what.SessionProcess?
  }

  ghost predicate NoSessionTried(calls: seq<Event>) {
    forall i :: 0 <= i < |calls| ==> !TriesSession(calls[i])
  }

  lemma ResponseCall(s: State, message: Message, alive: bool)
    requires MayRespond(s, message)
    ensures var e := Said(message, alive);
      PamAllowed(s, e) && Allowed(s, e) && Possible(s, e) && Step(s, e) == AfterResponse(s, alive)
  {
  }

  lemma NobodyAtRest(s: State, greeterPid: int, greeterHandle: nat)
    requires Settled(s, greeterPid, greeterHandle)
    ensures !SomeoneLoggedIn(s)
  {
    ServicesDiffer();
  }

  lemma NobodyBeside(s: State, h: nat, greeterPid: int, greeterHandle: nat)
    requires Settled(s.(live := s.live - {h}), greeterPid, greeterHandle) && (h in s.live ==> !s.live[h].open)
    ensures !SomeoneLoggedIn(s)
  {
    ServicesDiffer();
    assert forall k :: k in s.live && k != h ==> k in s.live - {h};
  }

  lemma ServicesDiffer()
    ensures USER_SERVICE != GREETER_SERVICE
  {
    assert |USER_SERVICE| == 6 && |GREETER_SERVICE| == 14;
  }

  lemma SomebodyBeside(s: State, h: nat, user: string, greeterHandle: nat)
    requires s.live - {greeterHandle} == map[h := Auth(USER_SERVICE, user, COMPLETE, true, true)]
    ensures SomeoneLoggedIn(s)
  {
    assert h in s.live - {greeterHandle};
    assert s.live[h] == Auth(USER_SERVICE, s.live[h].user, COMPLETE, true, true);
  }

  /** An answer that does not grant a login. */
  predicate IsOrdinary(answer: Message) {
    !answer.success || answer.message in ["", "pong", "Power action triggered"]
  }

  /** Only a login is answered with `LOGIN_GRANTED`. */
  lemma NotGranted(answer: Message)
    requires IsOrdinary(answer)
    ensures answer != LOGIN_GRANTED
  {
    assert |LOGIN_GRANTED.message| == 16 && |"pong"| == 4 && |"Power action triggered"| == 22;
  }

  /** What the directories held at some time. */
  ghost predicate FromScan(sessions: seq<SessionInfo>) {
    exists usr, local :: sessions == Scanned(usr, local)
  }

  const POWER_ACTIONS := ["poweroff", "reboot", "suspend", "hibernate"]

  function PowerAnswer(ok: bool): Message {
    Answer(ok, if ok then "Power action triggered" else "Failed to execute power action")
  }

  /** The answers to everything but a login: a list is what the cache holds now. */
  predicate Answered(req: Message, answer: Message, users: seq<UserInfo>, sessions: seq<SessionInfo>) {
    match req.kind
    case Ping => answer == Answer(true, "pong")
    case GetUsers => answer == Answer(true, "").(users := users)
    case GetSessions => answer == Answer(true, "").(sessions := sessions)
    case PowerAction => answer == PowerAnswer(answer.success) && (answer.success ==> req.powerAction in POWER_ACTIONS)
    case _ => answer == Answer(false, "Unknown IPC command")
  }

  /** What the daemon makes of the line that arrived, if one did. */
  predicate Understood(lib: Library, line: Option<string>, crashed: bool, req: Option<Message>) {
    if line.None? then !crashed && req == None
    else if crashed then req == None && Ipc.Decoded(lib, line.value) == Ipc.Thrown
    else req.Some? && Ipc.Decoded(lib, line.value) == Ipc.Fine(req.value)
  }

  /** A line on which the decoder throws. */
  predicate Throws(lib: Library, line: string) {
    Ipc.Decoded(lib, line).Thrown?
  }

  function ThrowsOf(lib: Library): string -> bool {
    line => Throws(lib, line)
  }

  lemma ThrowsIsDecoded(lib: Library, line: string)
    ensures Throws(lib, line) <==> Ipc.Decoded(lib, line) == Ipc.Thrown
  {
    hide Ipc.Decoded;
  }

  /** A request may be heard while none waits, and then one waits unless the decoder throws. */
  lemma RequestCall(s: State, line: string, throws: bool, greeterPid: int, greeterHandle: nat)
    requires !s.owed && s.fate == Alive
    ensures var e := Request(line, throws);
      && PamAllowed(s, e) && Allowed(s, e)
      && Step(s, e) == s.(owed := !throws, fate := if throws then ByException else Alive)
      && (Settled(s, greeterPid, greeterHandle) ==> Settled(Step(s, e), greeterPid, greeterHandle))
  {
  }

  /** What a request that is no login asks of logind, which agrees or not. */
  function PowerCalls(req: Message, ok: bool): seq<Event> {
    if req.kind.PowerAction? && req.powerAction in POWER_ACTIONS then [LogindCall(req.powerAction, ok)] else []
  }

  /** For one: a client that sends an empty array ends the daemon, however its bytes arrive. */
  lemma EmptyArrayEndsDaemon(lib: Library, chunks: seq<string>, junk: string)
    requires Conforms(lib) && Flatten(chunks) == "[]" + ['\n'] + junk
    ensures FirstLine(Received(chunks)) == Some("[]") && Throws(lib, "[]")
    ensures forall crashed, req :: Understood(lib, FirstLine(Received(chunks)), crashed, req) ==> crashed
  {
    hide Ipc.Decoded, Received, IndexOf, Conforms;
    SplitAtNewline("[]", junk);
    assert Flatten(chunks)[2] == '\n';
    FirstLineSurvives(chunks);
    Ipc.EmptyArrayThrows(lib);
  }

  /** A message that was sent is heard as it was sent, and nothing else is. */
  lemma SentIsHeard(lib: Library, chunks: seq<string>)
    ensures forall m, junk, crashed, req ::
      (Conforms(lib) && Flatten(chunks) == Ipc.Wire(m) + junk
       && Understood(lib, FirstLine(Received(chunks)), crashed, req)) ==> !crashed && req == Some(m)
  {
    hide Ipc.Wire, Ipc.Decoded, Ipc.Encoded, Received, FirstLine, Flatten, Conforms;
    forall m, junk, crashed, req |
      && Conforms(lib) && Flatten(chunks) == Ipc.Wire(m) + junk
      && Understood(lib, FirstLine(Received(chunks)), crashed, req)
      ensures !crashed && req == Some(m)
    {
      Delivered(lib, m, chunks, junk);
    }
  }

  lemma FateOf(was: State, now: State, h: nat)
    ensures Abandoned(was, now, h) ==> now.fate == BySignal && now.replies == was.replies
  {
  }

  lemma LogindCalls(s: State)
    ensures forall action, ok :: var e := LogindCall(action, ok);
      PamAllowed(s, e) && Allowed(s, e) && Step(s, e) == s
  {
    forall action, ok
      ensures var e := LogindCall(action, ok); PamAllowed(s, e) && Allowed(s, e) && Step(s, e) == s
    {
      assert HandleOf(LogindCall(action, ok)) == 0;
    }
  }

  const FALLBACK_ACCOUNTS := ["sddm", "greeter", "miqudm", "nobody"]

  /** Who the greeter runs as: the configured account if there is one, else the first fallback that exists,
      else just a name. */
  ghost predicate IsGreeterUser(user: string, configured: string, accounts: set<string>) {
    if configured != "" && configured in accounts then user == configured
    else
      || (exists i :: 0 <= i < |FALLBACK_ACCOUNTS| && user == FALLBACK_ACCOUNTS[i] && user in accounts
            && forall j :: 0 <= j < i ==> FALLBACK_ACCOUNTS[j] !in accounts)
      || (&& (forall j :: 0 <= j < |FALLBACK_ACCOUNTS| ==> FALLBACK_ACCOUNTS[j] !in accounts)
          && user == if configured == "" then "sddm" else configured)
  }


  /** The last events of a daemon that was ended: a line on which the decoder throws, or a request, what it took to
      answer it, and the response that nobody waited for. */
  ghost predicate Ended(lib: Library, fate: Fate, tail: seq<Event>) {
    match fate
    case Alive => false
    case ByException => |tail| == 1 && tail[0].Request? && tail[0].throws && Throws(lib, tail[0].line)
    case BySignal =>
      && |tail| >= 2 && tail[0].Request? && !tail[0].throws && !Throws(lib, tail[0].line)
      && tail[|tail| - 1].BrokenPipe?
      && forall k :: 0 < k < |tail| - 1 ==> Prepares(tail[k])
  }

  /** They come right after a poll that found a client. */
  ghost predicate EndsAfterHead(lib: Library, log: seq<Event>, greeterPid: int, fate: Fate) {
    exists before, chunks, tail ::
      log == before + [LoopHead(greeterPid), Polled(Readable), Accepted(chunks)] + tail && Ended(lib, fate, tail)
  }

  lemma ServedEnds(lib: Library, line: string, calls: seq<Event>, fate: Fate, host: Host, was: Stand, now: Stand)
    requires Served(lib, line, calls, fate, host, was, now) && fate != Alive
    ensures Ended(lib, fate, calls) && now.pid == was.pid
  {
    hide Ipc.Decoded, AttemptTrace, Released, AnswersAttempt, Scanned, Answered, GrantRun;
    ThrowsIsDecoded(lib, line);
    if fate == BySignal {
      var req := Ipc.Decoded(lib, line).value;
      var answer, x :| Exchanged(line, req, answer, x, calls, fate, host, was, now);
      if req.kind.Login? {
        AttemptCalls(x.a, req, was.Vt());
      }
      assert calls == [Request(line, false)] + x.before + [Said(answer, false)];
    }
  }

  lemma TurnEnds(lib: Library, calls: seq<Event>, fate: Fate, was: Stand, now: Stand)
    requires Turn(lib, calls, fate, was, now) && fate != Alive
    ensures EndsAfterHead(lib, calls, was.pid, fate) && now.pid == was.pid
  {
    hide Served, Ended, Checked, Received, FirstLine;
    var p, rest, host :|
      calls == [LoopHead(was.pid), Polled(p)] + rest && AfterPoll(lib, p, rest, fate, host, was, now);
    var chunks, served, mid, checked :|
      WithClient(lib, chunks, served, mid, checked, rest, fate, host, was, now);
    ServedEnds(lib, FirstLine(Received(chunks.value)).value, served, fate, host, was, now);
    assert calls == [] + [LoopHead(was.pid), Polled(Readable), Accepted(chunks)] + served;
  }

  /** A run that is ended from outside is so in its last turn, by what a client sent or did. */
  lemma ChainEnds(lib: Library, log: seq<Event>, first: Stand, laps: seq<Lap>, fate: Fate)
    requires Chain(lib, first, laps, fate) && fate != Alive
    ensures EndsAfterHead(lib, log + Calls(laps), StandAfter(first, laps).pid, fate)
  {
    hide Turn, Ended;
    var init, last := laps[..|laps| - 1], laps[|laps| - 1];
    TurnEnds(lib, last.calls, fate, StandAfter(first, init), last.now);
    var g := last.now.pid;
    var before, chunks, tail :|
      && last.calls == before + [LoopHead(g), Polled(Readable), Accepted(chunks)] + tail
      && Ended(lib, fate, tail);
    assert log + Calls(laps)
        == (log + Calls(init) + before) + [LoopHead(g), Polled(Readable), Accepted(chunks)] + tail;
  }

  /** What there is when the daemon is ended: the greeter, its handle, and the handle of a login under way. */
  ghost predicate LeftBehind(s: State, greeterPid: int, greeterHandle: nat) {
    exists h :: Settled(s.(live := s.live - {h}), greeterPid, greeterHandle)
                && (h in s.live ==> s.live[h].asked == USER_SERVICE && s.fate == BySignal)
  }

  lemma SettledIsLeft(s: State, greeterPid: int, greeterHandle: nat)
    requires Settled(s, greeterPid, greeterHandle) && Numbered(s)
    ensures LeftBehind(s, greeterPid, greeterHandle)
  {
    NullIsNotLive(s);
    assert s.(live := s.live - {0}) == s;
  }

  lemma AbandonedIsLeft(was: State, now: State, h: nat, greeterPid: int, greeterHandle: nat)
    requires Settled(was, greeterPid, greeterHandle) && Abandoned(was.(owed := true), now, h)
    ensures LeftBehind(now, greeterPid, greeterHandle)
  {
    assert Settled(now.(live := now.live - {h}), greeterPid, greeterHandle);
  }

  lemma OnlyChildGone(pid: int)
    ensures map[pid := Greeter] - {pid} == map[]
  {
  }

  lemma LoopHeadCall(s: State, greeterPid: int, greeterHandle: nat)
    requires Settled(s, greeterPid, greeterHandle) && !s.owed && s.fate == Alive
    requires (greeterPid > 0 <==> s.greeter == Worked)
    ensures var e := LoopHead(greeterPid);
      Possible(s, e) && PamAllowed(s, e) && Allowed(s, e) && Step(s, e) == s
  {
    SettledIsSmall(s, greeterPid, greeterHandle);
  }

  lemma AllGone(s: State, greeterPid: int, greeterHandle: nat)
    requires Settled(s, greeterPid, greeterHandle) && Numbered(s)
    ensures greeterPid > 0 ==> greeterPid in s.children
    ensures WithoutChild(s, greeterPid).children == map[]
    ensures s.live - {greeterHandle} == map[]
  {
    GreeterIsOnlyChild(s, greeterPid);
  }

  lemma SettledIsSmall(s: State, greeterPid: int, greeterHandle: nat)
    requires Settled(s, greeterPid, greeterHandle)
    ensures OnlyGreeter(s) && |s.live| <= 1 && OnlyGreeterHandle(s)
  {
    if greeterHandle != 0 {
      OneHandle(s.live, greeterHandle);
    }
  }

  /** The books may also count replies and starts. */
  lemma SettledAnyReplies(s: State, greeterPid: int, greeterHandle: nat)
    ensures forall alive ::
      Settled(AfterResponse(s, alive), greeterPid, greeterHandle) <==> Settled(s, greeterPid, greeterHandle)
  {
  }

  lemma RespondedWithout(s: State, h: nat)
    ensures AfterResponse(s, true).(live := s.live - {h}) == AfterResponse(s.(live := s.live - {h}), true)
  {
  }

  /** What a response makes of the books of a login on handle `h`, with the handle released or not. */
  lemma BooksAfterResponse(before: State, s: State, h: nat)
    requires s == before.(live := s.live, started := s.started) && s.live - {h} == before.live
    requires h in s.live ==> s.live[h].asked == USER_SERVICE
    ensures var t := AfterResponse(s, true).(live := s.live - {h});
      && t == before.(started := t.started, replies := t.replies, owed := false)
      && t.replies == before.replies + 1 && !t.owed && t.fate == before.fate
    ensures Abandoned(before, AfterResponse(s, false), h)
  {
  }

  /** A second handle beside the greeter's. */
  lemma BesideGreeter(before: State, s: State, h: nat, greeterPid: int, greeterHandle: nat)
    requires Settled(before, greeterPid, greeterHandle)
    requires s == before.(live := s.live, started := s.started)
    requires s.live - {h} == before.live && h !in before.live
    ensures OnlyGreeter(s) && Settled(s.(live := s.live - {h}), greeterPid, greeterHandle)
    ensures greeterHandle != 0 ==>
      greeterHandle != h && greeterHandle in s.live && s.live[greeterHandle] == before.live[greeterHandle]
    ensures h != 0 && h in s.live ==> s.live - {greeterHandle} == map[h := s.live[h]]
    ensures s.children == if greeterPid > 0 then map[greeterPid := Greeter] else map[]
  {
    hide OnlyGreeter, OnlyGreeterHandle, WithoutChild;
    TwoHandles(before.live, s.live, h, greeterHandle);
    GreeterIsOnlyChild(s, greeterPid);
  }

  lemma GreeterIsOnlyChild(s: State, greeterPid: int)
    requires s.children == (if greeterPid > 0 then map[greeterPid := Greeter] else map[])
    ensures OnlyGreeter(s) && WithoutChild(s, greeterPid).children == map[]
  {
  }

  lemma TwoHandles(before: map<nat, Auth>, live: map<nat, Auth>, h: nat, g: nat)
    requires live - {h} == before && h !in before
    requires if g == 0 then before == map[] else before.Keys == {g}
    ensures g != 0 ==> g != h && g in live && live[g] == before[g]
    ensures h != 0 && h in live ==> live - {g} == map[h := live[h]]
  {
    assert forall k :: k in live && k != h ==> k in before;
    if g != 0 {
      assert g in live - {h};
    }
    if h != 0 && h in live {
      assert forall k :: k in live - {g} <==> k == h;
    }
  }

  lemma AppendParts(log: seq<Event>, parts: LoginParts)
    ensures log + parts.stop + parts.greeterEnd + parts.session + parts.end + parts.restart == log + parts.All()
  {
  }

  lemma ChildGone(pid: int)
    ensures map[][pid := Role.Session] - {pid} == map[]
  {
  }

  lemma EmptyAfter(h: nat, user: string)
    ensures map[h := Auth(USER_SERVICE, user, COMPLETE, true, true)] - {h} == map[]
  {
  }

  lemma SessionMayFork(s: State, h: nat, what: Launch)
    requires s.children == map[] && what.SessionProcess?
    requires !s.owed
    requires s.live == map[h := Auth(USER_SERVICE, what.user.username, COMPLETE, true, true)]
    ensures forall pid :: pid > 0 ==> Allowed(s, Fork(pid, what))
  {
  }

  lemma AppendReplacement(log: seq<Event>, reaped: Event, end: seq<Event>, start: seq<Event>)
    ensures log + [reaped] + end + start == log + ([reaped] + end + start)
  {
  }

  lemma AppendNothing<T>(a: seq<T>)
    ensures a + [] == a
  {
  }

  lemma RegroupExchange(log: seq<Event>, before: seq<Event>, said: Event, after: seq<Event>)
    ensures log + before + [said] + after == log + (before + [said] + after)
  {
  }

  lemma AppendAssociates<T>(a: seq<T>, b: seq<T>, c: seq<T>)
    ensures a + b + c == a + (b + c)
  {
  }

  lemma NewHandle(before: State, after: State, h: nat)
    requires Numbered(before) && (h == 0 || h > before.started)
    requires after.live - {h} == before.live - {0}
    ensures after.live - {h} == before.live && h !in before.live
  {
    NullIsNotLive(before);
  }

  lemma UserMayStart(s: State, user: string)
    requires OnlyGreeter(s) && |s.live| <= 1 && Numbered(s)
    ensures Allowed(s.(live := s.live - {0}), PamStart(s.started + 1, USER_SERVICE, USER_SERVICE, user))
  {
    NullIsNotLive(s);
    assert USER_SERVICE != GREETER_SERVICE by { assert |USER_SERVICE| == 6 && |GREETER_SERVICE| == 14; }
  }

  lemma NotStartedTrace(req: Message, vt: int)
    ensures AttemptTrace(NotStarted, req, vt)
         == [PamStartFailed(USER_SERVICE, req.username), PamStartFailed("login", req.username)]
  {
  }

  lemma SessionTrace(a: Attempt, req: Message, vt: int)
    requires a.NoSession? || a.Granted?
    ensures AttemptTrace(a, req, vt)
         == Started(a.h, a.fallback, USER_SERVICE, req.username)
            + (CheckedUser(a.h, req.password) + Variables(a.h, req, vt) + [OpenSession(a.h, a.Granted?)])
  {
  }

  lemma OnlyOneLeft(live: map<nat, Auth>, h: nat)
    requires h in live && live - {h} == map[]
    ensures live.Keys == {h}
  {
    assert forall k :: k in live && k != h ==> k in live - {h};
  }

  lemma StartedTrace(h: nat, service: string, user: string)
    ensures Started(h, false, service, user) == [PamStart(h, service, service, user)]
    ensures Started(h, true, service, user) == [PamStartFailed(service, user), PamStart(h, "login", service, user)]
  {
  }

  lemma NoOwner()
    ensures Released([], Owner(0, false, false))
  {
  }

  lemma EmptyWithout(live: map<nat, Auth>)
    ensures live - live.Keys == map[]
  {
  }

  lemma GreeterMayStart(s: State, user: string)
    requires s.live == map[] && s.children == map[]
    ensures Allowed(s, PamStart(s.started + 1, GREETER_SERVICE, GREETER_SERVICE, user))
    ensures s.live - {0} == s.live && s.(live := s.live) == s
  {
  }

  lemma OneHandle(live: map<nat, Auth>, h: nat)
    requires live.Keys == {h}
    ensures |live| == 1
  {
    assert |live.Keys| == 1;
  }

  lemma GreeterMayFork(s: State, h: nat, what: Launch)
    requires s.children == map[] && what.GreeterProcess?
    requires h == 0 ==> s.live == map[]
    requires h != 0 ==> s.live.Keys == {h} && s.live[h].asked == GREETER_SERVICE
    ensures forall pid :: pid > 0 ==> Allowed(s, Fork(pid, what))
  {
    if h != 0 {
      OneHandle(s.live, h);
    }
  }
}
