/** The display manager: greeter, logins and the main loop. */
module DisplayManager {
  import opened Text
  import opened Messages
  import opened Sessions
  import opened Configuration
  import opened Json
  import Ipc
  import opened Framing
  import opened Trace
  import opened Environment
  import opened Pam
  import opened Launcher
  import opened Turns

  /** The machine, which others change as well. */
  class Machine {
    var host: Host

    constructor (host: Host)
      ensures this.host == host
    {
      this.host := host;
    }

    method Change()
      modifies this
    {
      host := *;
    }
  }

  class Daemon {
    const world: World
    const machine: Machine
    const launcher: SessionLauncher
    const config: Config
    const library: Library
    var greeterPid: int
    var greeterPam: PamAuth?
    var activePam: PamAuth?
    var cachedUsers: seq<UserInfo>
    var cachedSessions: seq<SessionInfo>

    function GreeterOwner(): Owner
      reads this, greeterPam
    {
      if greeterPam == null then Owner(0, false, false) else greeterPam.AsOwner()
    }

    function Now(): Stand
      reads this, greeterPam, config
    {
      Stand(greeterPid, GreeterOwner(), cachedUsers, cachedSessions, config.Current(), config.file)
    }

    /** The world knows the decoder and the encoder. */
    ghost predicate Wired() {
      world.throws == ThrowsOf(library) && world.wire == Ipc.Wire
    }

    /** What holds whenever the main loop looks at the socket. */
    ghost predicate AtRest()
      reads this, world, launcher, greeterPam
    {
      && world.Valid() && world.safe && world.pamSafe
      && Wired()
      && launcher.world == world && launcher.sessionPid == -1
      && activePam == null
      && (greeterPid > 0 || greeterPid == -1)
      && (greeterPam != null ==> greeterPam.world == world && greeterPam.Valid())
      && Settled(world.st, greeterPid, GreeterOwner().handle)
    }

    constructor (world: World, machine: Machine, config: Config, library: Library)
      requires world.Valid() && world.safe && world.pamSafe
      requires world.st.children == map[] && world.st.live == map[]
      requires world.throws == ThrowsOf(library) && world.wire == Ipc.Wire
      ensures this.world == world && this.machine == machine && this.config == config && this.library == library
      ensures AtRest() && greeterPid == -1 && greeterPam == null && fresh(launcher)
    {
      this.world, this.machine, this.config, this.library := world, machine, config, library;
      launcher := new SessionLauncher(world);
      greeterPid := -1;
      greeterPam, activePam := null, null;
      cachedUsers, cachedSessions := [], [];
    }

    /** `init`: the configuration and the caches; the socket may not come up. */
    method Init(readable: bool, listening: bool) returns (ok: bool)
      requires AtRest()
      modifies this`cachedUsers, this`cachedSessions, config`general, config`autologin
      ensures AtRest()
      ensures ok == listening
      ensures cachedUsers == machine.host.users && cachedSessions == Scanned(machine.host.usr, machine.host.local)
      ensures config.Current() == if readable then Loaded(config.file, old(config.Current())) else old(config.Current())
      ensures config.file == old(config.file)
    {
      hide World.Valid, Loaded, Scanned, Configuration.Means;
      var _ := config.Load(readable);
      Rescan(true);
      Rescan(false);
      ok := listening;
    }

    /** While the daemon runs, a greeter is recorded exactly if the last fork of one worked; without a command
        none is ever tried. */
    ghost predicate Attended(command: string)
      reads this, world
    {
      && (command == "" ==> world.st.greeter == Untried)
      && (world.running ==> (greeterPid > 0 <==> world.st.greeter == Worked))
    }

    /** At rest, and as well attended as forks allow. */
    ghost predicate Ready()
      reads this, world, launcher, greeterPam, config
    {
      AtRest() && Attended(config.general.greeterCommand)
    }

    /** No request has been heard and no response given. */
    twostate predicate Silent()
      reads world
    {
      && world.st.replies == old(world.st.replies)
      && world.st.owed == old(world.st.owed)
      && world.st.fate == old(world.st.fate)
    }

    /** `getpwnam` for the configured user, then for the fallbacks. */
    method GreeterUser() returns (user: string)
      ensures IsGreeterUser(user, config.general.greeterUser, machine.host.accounts)
    {
      var accounts := machine.host.accounts;
      user := config.general.greeterUser;
      if user != "" && user in accounts {
        return;
      }
      var fallbacks := ["sddm", "greeter", "miqudm", "nobody"];
      for i := 0 to |fallbacks|
        invariant forall j :: 0 <= j < i ==> FALLBACK_ACCOUNTS[j] !in accounts
      {
        if fallbacks[i] in accounts {
          return fallbacks[i];
        }
      }
      if user == "" {
        user := "sddm";
      }
    }

    // -------------------------------------------------------------- the greeter

    /** The variables that logind reads when a session is opened. */
    method SetSessionVariables(pam: PamAuth, sessionClass: string)
      requires pam.Valid() && pam.world == world && pam.handle != 0 && world.safe && world.pamSafe
      modifies world
      ensures pam.Valid() && world.Later() && world.safe && world.pamSafe
      ensures world.st == old(world.st)
      ensures world.log == old(world.log) + SessionVariables(pam.handle, sessionClass, config.general.vt)
    {
      hide World.Valid, Step, Allowed, PamAllowed, IntToString;
      var _ := pam.SetEnv("XDG_SESSION_CLASS", sessionClass);
      var _ := pam.SetEnv("XDG_SESSION_TYPE", "wayland");
      var _ := pam.SetEnv("XDG_SEAT", "seat0");
      var _ := pam.SetEnv("XDG_VTNR", IntToString(config.general.vt));
    }

    /** Leaves neither the process nor its PAM handle behind. */
    method StopGreeter() returns (ghost stop: seq<Event>, ghost end: seq<Event>)
      requires world.Valid() && world.safe && world.pamSafe
      requires greeterPid > 0 ==> greeterPid in world.st.children
      requires greeterPam != null ==> greeterPam.world == world && greeterPam.Valid()
      modifies this`greeterPid, this`greeterPam, world, greeterPam
      ensures world.Valid() && world.Later() && world.safe && world.pamSafe
      ensures greeterPam == null && greeterPid == if old(greeterPid) > 0 then -1 else old(greeterPid)
      ensures world.st == WithoutChild(old(world.st), old(greeterPid)).(
                            live := old(world.st.live) - {old(GreeterOwner()).handle})
      ensures world.log == old(world.log) + stop + end
      ensures Stopped(stop, old(greeterPid)) && Released(end, old(GreeterOwner()))
    {
      hide World.Valid, Step, Allowed, PamAllowed, Ending, StopTrace;
      stop, end := [], [];
      if greeterPid > 0 {
        stop := StopGreeterProcess();
      }
      if greeterPam != null {
        end := EndPam(greeterPam);
        greeterPam := null;
      } else {
        world.HandlesAreNumbered();
        NullIsNotLive(world.st);
      }
    }

    /** Closing, deleting and ending in turn, as both call sites do. */
    method EndPam(pam: PamAuth) returns (ghost end: seq<Event>)
      requires pam.Valid() && pam.world == world && world.safe && world.pamSafe
      modifies world, pam
      ensures pam.Valid() && pam.handle == 0 && world.Later() && world.safe && world.pamSafe
      ensures world.st == old(world.st).(live := old(world.st.live) - {old(pam.handle)})
      ensures world.log == old(world.log) + end
      ensures Released(end, old(pam.AsOwner()))
    {
      hide World.Valid, Step, Allowed, PamAllowed;
      ghost var h := pam.handle;
      var a := pam.CloseSession();
      var b := pam.DeleteCredentials();
      ghost var before := world.log;
      pam.End();
      end := world.log[|old(world.log)|..];
      if h != 0 {
        assert end == Ending(h, old(pam.sessionOpened), old(pam.credentialsSet), a, b);
      }
    }

    method StopGreeterProcess() returns (ghost stop: seq<Event>)
      requires world.Valid() && world.safe && world.pamSafe
      requires greeterPid > 0 && greeterPid in world.st.children
      modifies this`greeterPid, world
      ensures world.Valid() && world.Later() && world.safe && world.pamSafe
      ensures greeterPid == -1
      ensures world.st == WithoutChild(old(world.st), old(greeterPid))
      ensures world.log == old(world.log) + stop
      ensures Stopped(stop, old(greeterPid))
    {
      hide World.Valid, Step, Allowed, PamAllowed, StopTrace;
      ghost var pid, waits := greeterPid, 0;
      WaitCalls(world.st, pid);
      world.SendToBoth(greeterPid, SIGTERM);
      ghost var asked := world.log;
      for i := 0 to 20
        invariant waits == i && greeterPid == pid
        invariant world.Valid() && world.Later() && world.safe && world.pamSafe
        invariant world.st == old(world.st)
        invariant world.log == asked + Repeat(StillRunning(pid), waits)
      {
        var w := world.WaitNoHang(greeterPid);
        if w != NotYet {
          greeterPid := -1;
          StoppedByTerm(old(world.log), pid, waits, 20, w.status);
          stop := StopTrace(pid, waits, 20, w.status);
          return;
        }
        waits := waits + 1;
      }
      world.SendToBoth(greeterPid, SIGKILL);
      var status := world.WaitKilled(greeterPid);
      greeterPid := -1;
      StoppedByKill(old(world.log), pid, 20, status);
      stop := StopTrace(pid, 20, 20, status);
    }

    /** Destroying a `PamAuth` object. */
    method Destroy(pam: PamAuth) returns (ghost end: seq<Event>)
      requires pam.Valid() && pam.world == world && world.safe && world.pamSafe
      modifies world, pam
      ensures pam.Valid() && pam.handle == 0 && world.Later() && world.safe && world.pamSafe
      ensures world.st == old(world.st).(live := old(world.st.live) - {old(pam.handle)})
      ensures world.log == old(world.log) + end && Released(end, old(pam.AsOwner()))
    {
      hide World.Valid, Step, Allowed, PamAllowed, Ending;
      pam.End();
      end := world.log[|old(world.log)|..];
    }

    /** A PAM handle for the greeter, with its variables, credentials and session, if PAM is willing. */
    method SetUpGreeterPam(user: string) returns (pam: PamAuth, ghost setup: seq<Event>)
      requires world.Valid() && world.safe && world.pamSafe
      requires world.st.live == map[] && world.st.children == map[]
      modifies world
      ensures fresh(pam) && pam.world == world && pam.Valid()
      ensures world.Later() && world.safe && world.pamSafe
      ensures world.st == old(world.st).(live := world.st.live, started := world.st.started)
      ensures Settled(world.st, -1, pam.handle)
      ensures world.log == old(world.log) + setup && GreeterSetup(setup, pam.AsOwner(), user, config.general.vt)
    {
      hide World.Valid, Step, Allowed, PamAllowed, Started, SessionVariables;
      ghost var fallback;
      pam, setup, fallback := StartGreeterPam(user);
      if pam.handle != 0 {
        var credOk, openOk := OpenGreeterSession(pam);
        setup := setup + SessionVariables(pam.handle, "greeter", config.general.vt)
                 + [EstablishCred(pam.handle, credOk), OpenSession(pam.handle, openOk)];
      }
    }

    method StartGreeterPam(user: string) returns (pam: PamAuth, ghost calls: seq<Event>, ghost fallback: bool)
      requires world.Valid() && world.safe && world.pamSafe
      requires world.st.live == map[] && world.st.children == map[]
      modifies world
      ensures fresh(pam) && pam.world == world && pam.Valid()
      ensures world.Later() && world.safe && world.pamSafe
      ensures world.st == old(world.st).(live := world.st.live, started := world.st.started)
      ensures pam.handle == 0 ==> world.st.live == map[]
      ensures pam.handle != 0 ==>
        world.st.live.Keys == {pam.handle}
        && world.st.live[pam.handle] == Auth(GREETER_SERVICE, user, 0, false, false)
      ensures world.log == old(world.log) + calls
      ensures calls == if pam.handle != 0 then Started(pam.handle, fallback, GREETER_SERVICE, user)
                       else [PamStartFailed(GREETER_SERVICE, user), PamStartFailed("login", user)]
    {
      hide World.Valid, Step, Allowed, PamAllowed, Started;
      pam := new PamAuth(world);
      GreeterMayStart(world.st, user);
      var ok := pam.Start(user, GREETER_SERVICE);
      StartedTrace(pam.handle, GREETER_SERVICE, user);
      fallback := |world.log| == |old(world.log)| + 2;
      calls := if ok then Started(pam.handle, fallback, GREETER_SERVICE, user)
               else [PamStartFailed(GREETER_SERVICE, user), PamStartFailed("login", user)];
    }

    method OpenGreeterSession(pam: PamAuth) returns (credOk: bool, openOk: bool)
      requires pam.Valid() && pam.world == world && pam.handle != 0 && world.safe && world.pamSafe
      requires world.st.live.Keys == {pam.handle} && !world.st.live[pam.handle].credentials
      requires !world.st.live[pam.handle].open
      modifies world, pam
      ensures pam.Valid() && pam.AsOwner() == Owner(old(pam.handle), openOk, credOk)
      ensures world.Later() && world.safe && world.pamSafe
      ensures world.st == old(world.st).(live := world.st.live)
      ensures world.st.live.Keys == {pam.handle}
      ensures world.st.live[pam.handle].asked == old(world.st.live[pam.handle].asked)
      ensures world.log == old(world.log) + SessionVariables(pam.handle, "greeter", config.general.vt)
                           + [EstablishCred(pam.handle, credOk), OpenSession(pam.handle, openOk)]
    {
      hide World.Valid, Step, Allowed, PamAllowed, SessionVariables;
      ghost var h := pam.handle;
      SetSessionVariables(pam, "greeter");
      credOk := pam.EstablishCredentials();
      openOk := pam.OpenSession();
      assert world.st.live - {h} == map[];
      OnlyOneLeft(world.st.live, h);
    }

    /** A greeter that is recorded is left alone; otherwise what the last one left of PAM is given up, and
        a new process is forked once. A failed fork is not tried again. */
    method StartGreeter() returns (ghost end: seq<Event>, ghost start: seq<Event>)
      requires AtRest()
      modifies this`greeterPid, this`greeterPam, world, greeterPam
      ensures AtRest() && world.Later()
      ensures greeterPam == null || greeterPam == old(greeterPam) || fresh(greeterPam)
      ensures Silent() && Now() == old(Now()).(pid := greeterPid, greeter := GreeterOwner())
      ensures world.log == old(world.log) + end + start
      ensures if old(greeterPid) > 0 || config.general.greeterCommand == ""
              then end == [] && start == [] && Now() == old(Now()) && world.st == old(world.st)
                   && greeterPam == old(greeterPam)
              else
                && Released(end, old(GreeterOwner()))
                && GreeterStarted(start, Now(), machine.host.accounts)
                && world.st.greeter == if greeterPid > 0 then Worked else Failed
    {
      hide World.Valid, Step, Allowed, PamAllowed, Settled, Released, GreeterStarted, PamAuth.Valid, Numbered;
      end, start := [], [];
      AppendNothing(world.log);
      if greeterPid > 0 {
        return;
      }
      var command := config.general.greeterCommand;
      if command == "" {
        return;
      }
      end, start := TryGreeter(command);
    }

    /** A PAM handle and one fork, whatever comes of them. */
    method TryGreeter(command: string) returns (ghost end: seq<Event>, ghost start: seq<Event>)
      requires AtRest() && greeterPid == -1 && command == config.general.greeterCommand
      modifies this`greeterPid, this`greeterPam, world, greeterPam
      ensures AtRest() && world.Later()
      ensures greeterPam != null && fresh(greeterPam)
      ensures Silent() && Now() == old(Now()).(pid := greeterPid, greeter := GreeterOwner())
      ensures world.log == old(world.log) + end + start
      ensures Released(end, old(GreeterOwner())) && GreeterStarted(start, Now(), machine.host.accounts)
      ensures world.st.greeter == if greeterPid > 0 then Worked else Failed
    {
      hide World.Valid, Step, Allowed, PamAllowed, Settled, Released, GreeterSetup, IsGreeterUser, GreeterStarted,
           GreeterForked;
      var name := GreeterUser();
      end := DropGreeterPam();
      ghost var setup;
      greeterPam, setup := SetUpGreeterPam(name);
      ForkGreeter(name, command);
      start := setup + [GreeterForked(greeterPid, name, command)];
      GreeterIsStarted(setup, name, Now(), machine.host.accounts);
      AppendAssociates(old(world.log) + end, setup, [GreeterForked(greeterPid, name, command)]);
    }

    /** What the last greeter left of PAM goes when the next one is set up. */
    method DropGreeterPam() returns (ghost end: seq<Event>)
      requires AtRest() && greeterPid == -1
      modifies this`greeterPam, world, greeterPam
      ensures world.Valid() && world.Later() && world.safe && world.pamSafe && greeterPam == null
      ensures world.st == old(world.st).(live := map[]) && world.st.children == map[]
      ensures world.log == old(world.log) + end && Released(end, old(GreeterOwner()))
    {
      hide World.Valid, Step, Allowed, PamAllowed, Released;
      end := [];
      NoOwner();
      AppendNothing(world.log);
      EmptyWithout(world.st.live);
      if greeterPam != null {
        end := Destroy(greeterPam);
        greeterPam := null;
      }
    }

    /** One try to fork the greeter. */
    method ForkGreeter(name: string, command: string)
      requires world.Valid() && world.safe && world.pamSafe
      requires world.st.children == map[] && greeterPid == -1 && greeterPam != null
      requires Settled(world.st, greeterPid, greeterPam.handle)
      modifies this`greeterPid, world
      ensures world.Valid() && world.Later() && world.safe && world.pamSafe
      ensures (greeterPid > 0 || greeterPid == -1) && Settled(world.st, greeterPid, greeterPam.handle)
      ensures world.st == if greeterPid > 0
                          then old(world.st).(children := map[greeterPid := Greeter], greeter := Worked)
                          else old(world.st).(greeter := Failed)
      ensures world.log == old(world.log) + [GreeterForked(greeterPid, name, command)]
    {
      hide World.Valid, Step, Allowed, PamAllowed;
      var what := GreeterProcess(name, command);
      ForkCalls(world.st, what);
      GreeterMayFork(world.st, greeterPam.handle, what);
      var pid := world.ForkChild(what);
      if pid < 0 {
        return;
      }
      greeterPid := pid;
    }

    // -------------------------------------------------------------- a login

    /** What the login handler does on its new handle between two checks: the handle stays alone in its
        change, and nobody objects. */
    twostate predicate OnOneHandle(pam: PamAuth)
      reads world, pam, pam.world
    {
      && pam.Valid() && world.Later() && world.safe && world.pamSafe
      && world.st == old(world.st).(live := world.st.live)
      && world.st.live - {pam.handle} == old(world.st.live) - {pam.handle}
    }

    method SetDesktopVariables(pam: PamAuth, desktopName: string)
      requires pam.Valid() && pam.world == world && pam.handle != 0 && world.safe && world.pamSafe
      modifies world
      ensures pam.Valid() && world.Later() && world.safe && world.pamSafe
      ensures world.st == old(world.st)
      ensures world.log == old(world.log) + DesktopVariables(pam.handle, desktopName)
    {
      hide World.Valid, Step, Allowed, PamAllowed;
      if desktopName != "" {
        var _ := pam.SetEnv("XDG_CURRENT_DESKTOP", desktopName);
        var _ := pam.SetEnv("XDG_SESSION_DESKTOP", desktopName);
      }
    }

    /** Authentication, account and credentials on a started handle. */
    method CheckUser(pam: PamAuth, ghost username: string, password: string, ghost fallback: bool)
      returns (ok: bool, problem: string, ghost a: Attempt, ghost calls: seq<Event>)
      requires pam.Valid() && pam.world == world && pam.handle != 0 && world.safe && world.pamSafe
      requires pam.handle in world.st.live && world.st.live[pam.handle] == Auth(USER_SERVICE, username, 0, false, false)
      modifies world, pam
      ensures pam.handle == old(pam.handle) && OnOneHandle(pam)
      ensures world.log == old(world.log) + calls
      ensures ok ==>
        && pam.handle in world.st.live && world.st.live[pam.handle] == Auth(USER_SERVICE, username, 3, true, false)
        && calls == CheckedUser(pam.handle, password)
      ensures !ok ==>
        && !pam.sessionOpened && !pam.credentialsSet
        && pam.handle in world.st.live && world.st.live[pam.handle].asked == USER_SERVICE
        && CheckFails(a, pam.handle, fallback, password, calls)
        && problem == RefusalText(a) + pam.errorMessage
    {
      hide World.Valid, Step, Allowed, PamAllowed;
      ghost var h := pam.handle;
      a := NotStarted;
      ok := pam.Authenticate(password);
      calls := world.log[|old(world.log)|..];
      if !ok {
        problem := "Authentication failed: " + pam.errorMessage;
        a := if |calls| == 1 then NoConversation(h, fallback) else Unauthenticated(h, fallback);
        return;
      }
      ghost var more;
      ok, problem, a, more := CheckAuthenticated(pam, username, password, fallback);
      calls := calls + more;
    }

    /** Account and credentials of a user who has been authenticated. */
    method CheckAuthenticated(pam: PamAuth, ghost username: string, ghost password: string, ghost fallback: bool)
      returns (ok: bool, problem: string, ghost a: Attempt, ghost calls: seq<Event>)
      requires pam.Valid() && pam.world == world && pam.handle != 0 && world.safe && world.pamSafe
      requires pam.handle in world.st.live && world.st.live[pam.handle] == Auth(USER_SERVICE, username, 1, false, false)
      modifies world, pam
      ensures pam.handle == old(pam.handle) && OnOneHandle(pam)
      ensures world.log == old(world.log) + calls
      ensures ok ==>
        && pam.handle in world.st.live && world.st.live[pam.handle] == Auth(USER_SERVICE, username, 3, true, false)
        && calls == [AcctMgmt(pam.handle, true), EstablishCred(pam.handle, true)]
      ensures !ok ==>
        && !pam.sessionOpened && !pam.credentialsSet
        && pam.handle in world.st.live && world.st.live[pam.handle].asked == USER_SERVICE
        && CheckFails(a, pam.handle, fallback, password,
                      [SetConversation(pam.handle, password, true), Authenticate(pam.handle, true)] + calls)
        && problem == RefusalText(a) + pam.errorMessage
    {
      hide World.Valid, Step, Allowed, PamAllowed;
      ghost var h := pam.handle;
      a, problem := NotStarted, "";
      ok := pam.CheckAccount();
      calls := [AcctMgmt(h, ok)];
      if !ok {
        problem := "Account check failed: " + pam.errorMessage;
        a := NoAccount(h, fallback);
        return;
      }
      ok := pam.EstablishCredentials();
      calls := calls + [EstablishCred(h, ok)];
      if !ok {
        problem := "Failed to establish credentials: " + pam.errorMessage;
        a := NoCredentials(h, fallback);
      }
    }

    /** All stages of a login up to the reply: start, authenticate, account, credentials, session. */
    method OpenUserSession(req: Message)
      returns (pam: PamAuth, ok: bool, problem: string, ghost a: Attempt)
      requires world.Valid() && world.safe && world.pamSafe
      requires OnlyGreeter(world.st) && |world.st.live| <= 1
      modifies world
      ensures fresh(pam) && pam.world == world && pam.Valid()
      ensures world.Later() && world.safe && world.pamSafe
      ensures world.st == old(world.st).(live := world.st.live, started := world.st.started)
      ensures world.st.live - {pam.handle} == old(world.st.live) && pam.handle !in old(world.st.live)
      ensures HandleIn(a) == pam.handle && (ok <==> a.Granted?) && (a.NotStarted? <==> HandleIn(a) == 0)
      ensures ok ==>
        && pam.handle != 0 && pam.handle in world.st.live
        && world.st.live[pam.handle] == Auth(USER_SERVICE, req.username, COMPLETE, true, true)
        && pam.sessionOpened && pam.credentialsSet
      ensures !ok ==> !pam.sessionOpened && (pam.credentialsSet <==> a.NoSession?)
      ensures !ok ==> problem == RefusalText(a) + pam.errorMessage
      ensures pam.handle in world.st.live ==> world.st.live[pam.handle].asked == USER_SERVICE
      ensures world.log == old(world.log) + AttemptTrace(a, req, config.general.vt)
    {
      hide World.Valid, Step, Allowed, PamAllowed, Started, OnlyGreeter, AttemptTrace, Numbered;
      ghost var fallback;
      pam, ok, fallback := StartLogin(req.username);
      if !ok {
        problem := "PAM initialization error: " + pam.errorMessage;
        a := NotStarted;
        NotStartedTrace(req, config.general.vt);
        return;
      }
      ghost var started := Started(pam.handle, fallback, USER_SERVICE, req.username);
      ghost var more;
      ok, problem, a, more := UseStarted(pam, req, fallback);
      AppendAssociates(old(world.log), started, more);
    }

    method StartLogin(username: string) returns (pam: PamAuth, ok: bool, ghost fallback: bool)
      requires world.Valid() && world.safe && world.pamSafe
      requires OnlyGreeter(world.st) && |world.st.live| <= 1
      modifies world
      ensures fresh(pam) && pam.world == world && pam.Valid() && (ok <==> pam.handle != 0)
      ensures world.Later() && world.safe && world.pamSafe
      ensures world.st == old(world.st).(live := world.st.live, started := world.st.started)
      ensures world.st.live - {pam.handle} == old(world.st.live) && pam.handle !in old(world.st.live)
      ensures ok ==>
        && world.st.live[pam.handle] == Auth(USER_SERVICE, username, 0, false, false)
        && world.log == old(world.log) + Started(pam.handle, fallback, USER_SERVICE, username)
      ensures !ok ==> 0 !in world.st.live
      ensures !ok ==>
        world.log == old(world.log) + [PamStartFailed(USER_SERVICE, username), PamStartFailed("login", username)]
    {
      hide World.Valid, Step, Allowed, PamAllowed, Started, OnlyGreeter, Numbered;
      pam := new PamAuth(world);
      world.HandlesAreNumbered();
      UserMayStart(world.st, username);
      ok := pam.Start(username, USER_SERVICE);
      NewHandle(old(world.st), world.st, pam.handle);
      StartedTrace(pam.handle, USER_SERVICE, username);
      world.HandlesAreNumbered();
      NullIsNotLive(world.st);
      fallback := |world.log| == |old(world.log)| + 2;
    }

    /** The stages after `start`. */
    method UseStarted(pam: PamAuth, req: Message, ghost fallback: bool)
      returns (ok: bool, problem: string, ghost a: Attempt, ghost calls: seq<Event>)
      requires pam.Valid() && pam.world == world && pam.handle != 0 && world.safe && world.pamSafe
      requires world.st.live[pam.handle] == Auth(USER_SERVICE, req.username, 0, false, false)
      modifies world, pam
      ensures pam.handle == old(pam.handle) && OnOneHandle(pam)
      ensures HandleIn(a) == pam.handle && (ok <==> a.Granted?)
      ensures ok ==>
        && world.st.live[pam.handle] == Auth(USER_SERVICE, req.username, COMPLETE, true, true)
        && pam.sessionOpened && pam.credentialsSet
      ensures !ok ==> !pam.sessionOpened && (pam.credentialsSet <==> a.NoSession?)
      ensures !ok ==> problem == RefusalText(a) + pam.errorMessage
      ensures pam.handle in world.st.live && world.st.live[pam.handle].asked == USER_SERVICE
      ensures world.log == old(world.log) + calls
      ensures AttemptTrace(a, req, config.general.vt)
           == Started(pam.handle, fallback, USER_SERVICE, req.username) + calls
    {
      hide World.Valid, Step, Allowed, PamAllowed, Started, SessionVariables, DesktopVariables, AttemptTrace;
      ghost var h := pam.handle;
      ok, problem, a, calls := CheckUser(pam, req.username, req.password, fallback);
      if !ok {
        FailedCheckTrace(a, h, fallback, calls, req, config.general.vt);
        return;
      }
      ghost var checked := world.log;
      SetSessionVariables(pam, "user");
      SetDesktopVariables(pam, req.desktopName);
      AppendAssociates(checked, SessionVariables(h, "user", config.general.vt), DesktopVariables(h, req.desktopName));
      ok := pam.OpenSession();
      a := if ok then Granted(h, fallback) else NoSession(h, fallback);
      SessionTrace(a, req, config.general.vt);
      calls := calls + Variables(h, req, config.general.vt) + [OpenSession(h, ok)];
      if !ok {
        problem := "Failed to open session: " + pam.errorMessage;
      }
    }

    /** Launches the session of the user who has just logged in, waits for its end, and gives up the
        user's PAM handle, whether or not the process could be forked. */
    method RunSession(user: UserInfo, session: SessionInfo)
      returns (ghost run: seq<Event>, ghost end: seq<Event>, ghost what: Launch)
      requires world.Valid() && world.safe && world.pamSafe
      requires launcher.world == world && launcher.sessionPid == -1
      requires activePam != null && activePam.world == world && activePam.Valid() && activePam.handle != 0
      requires activePam.sessionOpened && activePam.credentialsSet
      requires !world.st.owed
      requires world.st.children == map[]
      requires world.st.live == map[activePam.handle := Auth(USER_SERVICE, user.username, COMPLETE, true, true)]
      modifies this`activePam, world, launcher, activePam
      ensures world.Valid() && world.Later() && world.safe && world.pamSafe
      ensures activePam == null && launcher.sessionPid == -1
      ensures world.st == old(world.st).(live := map[])
      ensures world.log == old(world.log) + run + end
      ensures Released(end, old(activePam.AsOwner()))
      ensures what.SessionProcess? && what.user == user && what.session == session && what.vt == config.general.vt
      ensures SessionRun(run, old(activePam.handle), what)
    {
      hide World.Valid, Step, Allowed, PamAllowed, Released;
      ghost var h := activePam.handle;
      var envs := activePam.GetEnvironmentList();
      what := SessionProcess(user, session, envs, config.general.vt);
      SessionMayFork(world.st, h, what);
      var launched := launcher.Launch(user, session, envs, config.general.vt);
      if launched {
        ghost var pid := launcher.sessionPid;
        var code := launcher.WaitForExit();
        ChildGone(pid);
        ghost var n, status :| world.log == old(world.log) + [GetEnvList(h, envs)] + [Fork(pid, what)]
                                            + Repeat(Interrupted(pid), n) + [Reaped(pid, status)];
        run := [GetEnvList(h, envs)] + [Fork(pid, what)] + Repeat(Interrupted(pid), n) + [Reaped(pid, status)];
      } else {
        run := [GetEnvList(h, envs)] + [ForkFailed(what)];
      }
      assert world.log == old(world.log) + run;
      EmptyAfter(h, user.username);
      end := EndPam(activePam);
      activePam := null;
    }

    /** One response, as one line; if the client is gone, it is the last thing that the daemon does. */
    method Respond(message: Message) returns (alive: bool)
      requires world.Valid() && world.safe && world.pamSafe && Wired() && MayRespond(world.st, message)
      modifies world
      ensures world.Valid() && world.Later() && world.safe && world.pamSafe
      ensures world.log == old(world.log) + [Said(message, alive)]
      ensures world.st == AfterResponse(old(world.st), alive)
    {
      hide World.Valid, Step, Allowed, PamAllowed, MayRespond, Ipc.Wire;
      var line := Ipc.Serialize(message);
      ResponseCall(world.st, message, true);
      ResponseCall(world.st, message, false);
      alive := world.Send(message, line);
    }

    /** The account and the session that a granted request is for. */
    function RequestedUser(req: Message): UserInfo
      reads this
    {
      ChosenUser(cachedUsers, req.username)
    }

    function RequestedSession(req: Message): SessionInfo
      reads this
    {
      Chosen(cachedSessions, req.desktopName, req.sessionExec)
    }

    /** Remembers the user if the configuration says so; the file may not be writable. */
    method RememberUser(username: string)
      modifies config
      ensures Remembered(old(Now()), Now(), username, machine.host.writable)
    {
      hide Rendered;
      if config.general.rememberLastUser {
        config.general := config.general.(lastUser := username);
        var _ := config.Save(machine.host.writable);
      }
    }

    /** The reply to a login that failed; the attempt's object goes out of scope. */
    method RefuseLogin(pam: PamAuth, problem: string) returns (answer: Message, alive: bool, ghost refused: seq<Event>)
      requires pam.Valid() && pam.world == world && world.safe && world.pamSafe
      requires OnlyGreeter(world.st) && world.st.owed
      requires Wired() && launcher.world == world && launcher.sessionPid == -1 && activePam == null
      requires greeterPid > 0 || greeterPid == -1
      requires greeterPam != null ==> greeterPam.world == world && greeterPam.Valid() && greeterPam != pam
      requires GreeterOwner().handle != 0 ==> GreeterOwner().handle != pam.handle
      requires Settled(world.st.(live := world.st.live - {pam.handle}), greeterPid, GreeterOwner().handle)
      requires !pam.sessionOpened
      requires Attended(config.general.greeterCommand)
      modifies world, pam
      ensures world.Valid() && world.Later() && world.safe && world.pamSafe
      ensures GreeterOwner() == old(GreeterOwner()) && answer == Answer(false, problem)
      ensures world.log == old(world.log) + [Said(answer, alive)] + refused
      ensures alive ==> Ready() && Released(refused, old(pam.AsOwner()))
      ensures world.st == if alive
                          then AfterResponse(old(world.st), true).(live := old(world.st.live) - {old(pam.handle)})
                          else AfterResponse(old(world.st), false)
      ensures !alive ==> refused == []
    {
      hide World.Valid, Step, Allowed, PamAllowed, Released, Ipc.Wire, OnlyGreeter, Settled, SomeoneLoggedIn, Said;
      SettledAnyReplies(world.st.(live := world.st.live - {pam.handle}), greeterPid, GreeterOwner().handle);
      RespondedWithout(world.st, pam.handle);
      NullIsNotOpen(world.st, pam.AsOwner());
      NobodyBeside(world.st, pam.handle, greeterPid, GreeterOwner().handle);
      answer, refused := Answer(false, problem), [];
      NotGranted(answer);
      alive := Respond(answer);
      if alive {
        refused := DropAttempt(pam);
      }
    }

    /** The object of an attempt that failed is destroyed. */
    method DropAttempt(pam: PamAuth) returns (ghost refused: seq<Event>)
      requires pam.Valid() && pam.world == world && world.safe && world.pamSafe
      requires Wired() && launcher.world == world && launcher.sessionPid == -1 && activePam == null
      requires greeterPid > 0 || greeterPid == -1
      requires greeterPam != null ==> greeterPam.world == world && greeterPam.Valid() && greeterPam != pam
      requires GreeterOwner().handle != 0 ==> GreeterOwner().handle != pam.handle
      requires Settled(world.st.(live := world.st.live - {pam.handle}), greeterPid, GreeterOwner().handle)
      requires Attended(config.general.greeterCommand)
      modifies world, pam
      ensures Ready() && world.Later() && GreeterOwner() == old(GreeterOwner())
      ensures world.st == old(world.st).(live := old(world.st.live) - {old(pam.handle)})
      ensures world.log == old(world.log) + refused && Released(refused, old(pam.AsOwner()))
    {
      hide World.Valid, Step, Allowed, PamAllowed, Released, Settled;
      refused := Destroy(pam);
    }

    /** What follows the reply to a granted login. */
    method GrantLogin(req: Message, pam: PamAuth) returns (ghost parts: LoginParts)
      requires world.Valid() && world.safe && world.pamSafe
      requires Wired() && launcher.world == world && launcher.sessionPid == -1
      requires greeterPam != null ==> greeterPam.world == world && greeterPam.Valid() && greeterPam != pam
      requires pam.world == world && pam.Valid() && pam.handle != 0 && pam.sessionOpened && pam.credentialsSet
      requires greeterPid == -1 || (greeterPid > 0 && greeterPid in world.st.children)
      requires WithoutChild(world.st, greeterPid).children == map[]
      requires world.st.live - {GreeterOwner().handle}
            == map[pam.handle := Auth(USER_SERVICE, req.username, COMPLETE, true, true)]
      requires GreeterOwner().handle != pam.handle
      requires !world.st.owed
      requires config.general.greeterCommand == "" ==> world.st.greeter == Untried
      modifies this`greeterPid, this`greeterPam, this`activePam, world, launcher, config, pam, greeterPam
      ensures Ready() && world.Later() && Silent()
      ensures greeterPam == null || fresh(greeterPam)
      ensures world.log == old(world.log) + parts.All()
      ensures GrantRun(parts, old(pam.handle), req, machine.host, old(Now()), Now())
      ensures Resumes(old(world.running), world.running, config.general.greeterCommand, parts.restart)
    {
      hide World.Valid, Step, Allowed, PamAllowed, Stopped, Released, SessionRun, Rendered, ChosenUser, Chosen, Settled,
           Restarted, LoginParts.All, OnlyGreeter, OnlyGreeterHandle;
      ghost var stop, greeterEnd := StopGreeter();
      ChosenUserHasTheName(cachedUsers, req.username);
      var user := RequestedUser(req);
      var session := RequestedSession(req);
      RememberUser(req.username);
      activePam := pam;
      ghost var run, end, what, restart := RunSessionAndReturn(user, session);
      parts := LoginParts(stop, greeterEnd, run, end, restart, what);
      AppendParts(old(world.log), parts);
    }

    /** The reply to a granted login, before anything is torn down, and what follows it. */
    method AcceptLogin(req: Message, pam: PamAuth) returns (answer: Message, alive: bool, ghost parts: LoginParts)
      requires world.Valid() && world.safe && world.pamSafe
      requires Wired() && launcher.world == world && launcher.sessionPid == -1
      requires greeterPam != null ==> greeterPam.world == world && greeterPam.Valid() && greeterPam != pam
      requires pam.world == world && pam.Valid() && pam.handle != 0 && pam.sessionOpened && pam.credentialsSet
      requires greeterPid == -1 || greeterPid > 0
      requires world.st.children == if greeterPid > 0 then map[greeterPid := Greeter] else map[]
      requires world.st.live - {GreeterOwner().handle}
            == map[pam.handle := Auth(USER_SERVICE, req.username, COMPLETE, true, true)]
      requires GreeterOwner().handle != pam.handle
      requires world.st.owed
      requires config.general.greeterCommand == "" ==> world.st.greeter == Untried
      modifies this`greeterPid, this`greeterPam, this`activePam, world, launcher, config, pam, greeterPam
      ensures world.Valid() && world.Later() && world.safe && world.pamSafe && answer == LOGIN_GRANTED
      ensures world.log == old(world.log) + [Said(answer, alive)] + (if alive then parts.All() else [])
      ensures alive ==> Ready() && world.st.replies == old(world.st.replies) + 1 && !world.st.owed
                        && world.st.fate == old(world.st.fate)
      ensures alive ==> greeterPam == null || fresh(greeterPam)
      ensures alive ==>
        && GrantRun(parts, old(pam.handle), req, machine.host, old(Now()), Now())
        && Resumes(old(world.running), world.running, config.general.greeterCommand, parts.restart)
      ensures !alive ==> SameGreeter() && world.st == AfterResponse(old(world.st), false)
    {
      hide World.Valid, Step, Allowed, PamAllowed, LoginParts.All, GrantRun, Settled, Ipc.Wire,
           SomeoneLoggedIn, Said;
      GreeterIsOnlyChild(world.st, greeterPid);
      SomebodyBeside(world.st, pam.handle, req.username, GreeterOwner().handle);
      answer, parts := LOGIN_GRANTED, NO_PARTS;
      alive := Respond(answer);
      if alive {
        GreeterIsOnlyChild(world.st, greeterPid);
        parts := GrantLogin(req, pam);
      }
    }

    /** The session, and then the next greeter unless the daemon is stopping. */
    method RunSessionAndReturn(user: UserInfo, session: SessionInfo)
      returns (ghost run: seq<Event>, ghost end: seq<Event>, ghost what: Launch, ghost restart: seq<Event>)
      requires world.Valid() && world.safe && world.pamSafe
      requires Wired() && launcher.world == world && launcher.sessionPid == -1
      requires greeterPam == null && greeterPid == -1
      requires activePam != null && activePam.world == world && activePam.Valid() && activePam.handle != 0
      requires activePam.sessionOpened && activePam.credentialsSet
      requires world.st.children == map[] && !world.st.owed
      requires config.general.greeterCommand == "" ==> world.st.greeter == Untried
      requires world.st.live == map[activePam.handle := Auth(USER_SERVICE, user.username, COMPLETE, true, true)]
      modifies this`greeterPid, this`greeterPam, this`activePam, world, launcher, activePam
      ensures Ready() && world.Later() && Silent()
      ensures greeterPam == null || fresh(greeterPam)
      ensures world.log == old(world.log) + run + end + restart
      ensures Resumes(old(world.running), world.running, config.general.greeterCommand, restart)
      ensures Restarted(restart, Now(), machine.host.accounts)
      ensures Now() == old(Now()).(pid := greeterPid, greeter := GreeterOwner())
      ensures Released(end, old(activePam.AsOwner()))
      ensures what.SessionProcess? && what.user == user && what.session == session && what.vt == config.general.vt
      ensures SessionRun(run, old(activePam.handle), what)
    {
      hide World.Valid, Step, Allowed, PamAllowed, Stopped, SessionRun, GreeterSetup;
      run, end, what := RunSession(user, session);
      restart := [];
      if world.running {
        ghost var nothing;
        nothing, restart := StartGreeter();
      }
    }

    /** A login up to its response, beside the greeter. */
    method TryLogin(req: Message) returns (pam: PamAuth, ok: bool, problem: string, ghost a: Attempt)
      requires Ready()
      modifies world
      ensures fresh(pam) && pam.world == world && pam.Valid() && world.Valid()
      ensures world.Later() && world.safe && world.pamSafe
      ensures greeterPam != null ==> greeterPam.Valid() && greeterPam != pam
      ensures world.st == old(world.st).(live := world.st.live, started := world.st.started)
      ensures world.st.live - {pam.handle} == old(world.st.live)
      ensures OnlyGreeter(world.st) && Attended(config.general.greeterCommand)
      ensures Settled(world.st.(live := world.st.live - {pam.handle}), greeterPid, GreeterOwner().handle)
      ensures GreeterOwner().handle != 0 ==> GreeterOwner().handle != pam.handle
      ensures pam.handle in world.st.live ==> world.st.live[pam.handle].asked == USER_SERVICE
      ensures HandleIn(a) == pam.handle && (ok <==> a.Granted?) && (a.NotStarted? <==> HandleIn(a) == 0)
      ensures ok ==>
        && pam.handle != 0 && pam.sessionOpened && pam.credentialsSet
        && world.st.live - {GreeterOwner().handle}
           == map[pam.handle := Auth(USER_SERVICE, req.username, COMPLETE, true, true)]
        && world.st.children == (if greeterPid > 0 then map[greeterPid := Greeter] else map[])
      ensures !ok ==> !pam.sessionOpened && (pam.credentialsSet <==> a.NoSession?)
      ensures !ok ==> problem == RefusalText(a) + pam.errorMessage
      ensures world.log == old(world.log) + AttemptTrace(a, req, config.general.vt)
    {
      hide World.Valid, Step, Allowed, PamAllowed, AttemptTrace, OnlyGreeter, OnlyGreeterHandle, Settled, RefusalText,
           WithoutChild;
      SettledIsSmall(world.st, greeterPid, GreeterOwner().handle);
      pam, ok, problem, a := OpenUserSession(req);
      BesideGreeter(old(world.st), world.st, pam.handle, greeterPid, GreeterOwner().handle);
    }

    /** One login: one response, which says whether all five stages succeeded. A refusal gives up what the attempt
        got and leaves everything else as it was; a granted login replaces the greeter. If the client is gone when
        the daemon responds, the daemon dies with everything that it has then. */
    method HandleLogin(req: Message) returns (answer: Message, alive: bool, ghost x: Exchange)
      requires Ready() && world.st.owed
      modifies this`greeterPid, this`greeterPam, this`activePam, world, launcher, config, greeterPam
      ensures world.Valid() && world.Later() && world.safe && world.pamSafe
      ensures greeterPam == null || greeterPam == old(greeterPam) || fresh(greeterPam)
      ensures LoginHandled(req, answer, alive, x, machine.host, old(Now()), Now())
      ensures world.log == old(world.log) + x.before + [Said(answer, alive)] + x.after
      ensures alive ==> Ready() && world.st.replies == old(world.st.replies) + 1 && !world.st.owed
                        && world.st.fate == old(world.st.fate)
      ensures !(alive && answer.success) ==> SameGreeter()
      ensures alive && !answer.success ==>
        world.st == old(world.st).(started := world.st.started, replies := world.st.replies, owed := false)
      ensures alive && answer.success ==>
        Resumes(old(world.running), world.running, config.general.greeterCommand, x.parts.restart)
      ensures !alive ==> Abandoned(old(world.st), world.st, HandleIn(x.a))
    {
      hide World.Valid, Step, Allowed, PamAllowed, Stopped, Released, SessionRun, Rendered, ChosenUser, Chosen,
           AttemptTrace, Ipc.Wire, LoginParts.All, OnlyGreeter, OnlyGreeterHandle, Settled, GrantRun, AnswersAttempt,
           RefusalText, WithoutChild, Said, AfterResponse, Abandoned, MayRespond, PamAuth.Valid, Numbered;
      ghost var before;
      var pam, ok, problem;
      ghost var a;
      pam, ok, problem, a := TryLogin(req);
      before := AttemptTrace(a, req, config.general.vt);
      BooksAfterResponse(old(world.st), world.st, pam.handle);
      if !ok {
        ghost var refused;
        answer, alive, refused := RefuseLogin(pam, problem);
        RefusalAnswers(problem, a);
        x := Exchange(a, before, refused, NO_PARTS);
      } else {
        GrantAnswers(a);
        ghost var parts;
        answer, alive, parts := AcceptLogin(req, pam);
        x := Exchange(a, before, if alive then parts.All() else [], parts);
      }
    }

    // -------------------------------------------------------------- requests

    /** The greeter, its handle and the configuration are as they were; the caches may differ. */
    twostate predicate SameGreeter()
      reads this, greeterPam, config
    {
      && greeterPid == old(greeterPid) && greeterPam == old(greeterPam) && GreeterOwner() == old(GreeterOwner())
      && config.Current() == old(config.Current()) && config.file == old(config.file)
    }

    /** logind is asked for the four actions that the daemon knows and for no others. */
    method HandlePowerAction(req: Message) returns (answer: Message, alive: bool, ghost calls: seq<Event>)
      requires AtRest() && world.st.owed
      modifies world
      ensures AtRest() && world.Later()
      ensures answer == PowerAnswer(answer.success)
      ensures calls == if req.powerAction in POWER_ACTIONS then [LogindCall(req.powerAction, answer.success)] else []
      ensures req.powerAction !in POWER_ACTIONS ==> !answer.success
      ensures world.log == old(world.log) + calls + [Said(answer, alive)]
      ensures world.st == AfterResponse(old(world.st), alive)
    {
      hide World.Valid, Step, Allowed, PamAllowed, Ipc.Wire, Settled, OnlyGreeter, OnlyGreeterHandle, SomeoneLoggedIn,
           Said, PamAuth.Valid, Numbered;
      var ok;
      ok, calls := Trigger(req.powerAction);
      answer := Answer(ok, if ok then "Power action triggered" else "Failed to execute power action");
      alive := RespondAtRest(answer);
    }

    /** The four actions, each a call to logind. */
    method Trigger(action: string) returns (ok: bool, ghost calls: seq<Event>)
      requires AtRest()
      modifies world
      ensures AtRest() && world.Later() && world.st == old(world.st)
      ensures world.log == old(world.log) + calls
      ensures calls == if action in POWER_ACTIONS then [LogindCall(action, ok)] else []
      ensures action !in POWER_ACTIONS ==> !ok
    {
      hide World.Valid, Step, Allowed, PamAllowed, Settled, Numbered;
      LogindCalls(world.st);
      AppendNothing(world.log);
      ok := false;
      if action == "poweroff" {
        ok := world.AskLogind("poweroff");
      } else if action == "reboot" {
        ok := world.AskLogind("reboot");
      } else if action == "suspend" {
        ok := world.AskLogind("suspend");
      } else if action == "hibernate" {
        ok := world.AskLogind("hibernate");
      }
      calls := if action in POWER_ACTIONS then [LogindCall(action, ok)] else [];
    }

    /** A response while only the greeter is there. */
    method RespondAtRest(answer: Message) returns (alive: bool)
      requires AtRest() && world.st.owed
      requires IsOrdinary(answer)
      modifies world
      ensures AtRest() && world.Later()
      ensures world.log == old(world.log) + [Said(answer, alive)]
      ensures world.st == AfterResponse(old(world.st), alive)
    {
      hide World.Valid, Step, Allowed, PamAllowed, Ipc.Wire, Settled, OnlyGreeter, OnlyGreeterHandle, SomeoneLoggedIn,
           Said;
      SettledIsSmall(world.st, greeterPid, GreeterOwner().handle);
      SettledAnyReplies(world.st, greeterPid, GreeterOwner().handle);
      NobodyAtRest(world.st, greeterPid, GreeterOwner().handle);
      NotGranted(answer);
      alive := Respond(answer);
    }

    /** Reads the account database or the session directories afresh. */
    method Rescan(users: bool)
      modifies this`cachedUsers, this`cachedSessions
      ensures cachedUsers == if users then machine.host.users else old(cachedUsers)
      ensures cachedSessions == if users then old(cachedSessions) else Scanned(machine.host.usr, machine.host.local)
    {
      hide Scanned;
      if users {
        cachedUsers := machine.host.users;
      } else {
        cachedSessions := ScanAll(machine.host.usr, machine.host.local);
      }
    }

    /** What a request that is neither a login nor a power action is answered. */
    method ChooseAnswer(req: Message) returns (answer: Message)
      requires !req.kind.Login? && !req.kind.PowerAction?
      modifies this`cachedUsers, this`cachedSessions
      ensures QueryHandled(req, answer, machine.host, old(Now()), Now())
      ensures IsOrdinary(answer)
    {
      hide Scanned;
      if req.kind.Ping? {
        answer := Answer(true, "pong");
      } else if req.kind.GetUsers? {
        Rescan(true);
        answer := Answer(true, "").(users := cachedUsers);
      } else if req.kind.GetSessions? {
        Rescan(false);
        answer := Answer(true, "").(sessions := cachedSessions);
      } else {
        answer := Answer(false, "Unknown IPC command");
      }
    }

    /** The answer to a request that is not a login. */
    method AnswerQuery(req: Message) returns (answer: Message, alive: bool, ghost calls: seq<Event>)
      requires AtRest() && world.st.owed && !req.kind.Login?
      modifies this`cachedUsers, this`cachedSessions, world
      ensures AtRest() && world.Later() && SameGreeter()
      ensures world.log == old(world.log) + calls + [Said(answer, alive)]
      ensures world.st == AfterResponse(old(world.st), alive)
      ensures calls == PowerCalls(req, answer.success)
      ensures QueryHandled(req, answer, machine.host, old(Now()), Now())
    {
      hide World.Valid, Step, Allowed, PamAllowed, Ipc.Wire, Settled, OnlyGreeter, OnlyGreeterHandle, Scanned, Said,
           PamAuth.Valid, Numbered, AfterResponse;
      calls := [];
      AppendNothing(world.log);
      if req.kind.PowerAction? {
        answer, alive, calls := HandlePowerAction(req);
      } else {
        answer := ChooseAnswer(req);
        alive := RespondAtRest(answer);
      }
    }

    /** One request, one response. */
    method ProcessMessage(req: Message) returns (answer: Message, alive: bool, ghost x: Exchange)
      requires Ready() && world.st.owed
      modifies this, world, launcher, config, greeterPam
      ensures world.Valid() && world.Later() && world.safe && world.pamSafe
      ensures greeterPam == null || greeterPam == old(greeterPam) || fresh(greeterPam)
      ensures Handled(req, answer, alive, x, machine.host, old(Now()), Now())
      ensures world.log == old(world.log) + x.before + [Said(answer, alive)] + x.after
      ensures alive ==> Ready() && world.st.replies == old(world.st.replies) + 1 && !world.st.owed
                        && world.st.fate == old(world.st.fate)
      ensures !alive ==> Abandoned(old(world.st), world.st, HandleIn(x.a))
      ensures !(alive && req.kind.Login? && answer.success) ==> SameGreeter()
      ensures alive && req.kind.Login? && answer.success ==>
        Resumes(old(world.running), world.running, config.general.greeterCommand, x.parts.restart)
    {
      hide World.Valid, Step, Allowed, PamAllowed, Ipc.Wire, Settled, OnlyGreeter, OnlyGreeterHandle, Scanned,
           LoginHandled, QueryHandled, Said, PamAuth.Valid, Numbered;
      if req.kind.Login? {
        answer, alive, x := HandleLogin(req);
      } else {
        world.HandlesAreNumbered();
        NullIsNotLive(world.st);
        ghost var before;
        answer, alive, before := AnswerQuery(req);
        x := Exchange(NotStarted, before, [], NO_PARTS);
      }
    }

    /** A line has been read; nothing else changes. */
    method HearLine(line: string)
      requires Ready() && !world.st.owed && world.st.fate == Alive
      modifies world
      ensures Ready() && world.Later()
      ensures world.log == old(world.log) + [Request(line, Throws(library, line))]
      ensures world.st == old(world.st).(owed := !Throws(library, line),
                                         fate := if Throws(library, line) then ByException else Alive)
    {
      hide World.Valid, Step, Allowed, PamAllowed, Settled, Throws;
      RequestCall(world.st, line, Throws(library, line), greeterPid, GreeterOwner().handle);
      world.Hear(line);
    }

    /** A line that was read is heard, decoded and answered. */
    method ServeLine(line: string)
      returns (fate: Fate, req: Option<Message>, answer: Message, ghost x: Exchange, ghost calls: seq<Event>)
      requires Ready() && !world.st.owed && world.st.fate == Alive
      modifies this, world, launcher, config, greeterPam
      ensures world.Valid() && world.Later() && world.safe && world.pamSafe && fate == world.st.fate
      ensures fate != BySignal ==> Ready() && !world.st.owed
      ensures fate == BySignal ==> Abandoned(old(world.st).(owed := true), world.st, HandleIn(x.a))
      ensures greeterPam == null || greeterPam == old(greeterPam) || fresh(greeterPam)
      ensures Understood(library, Some(line), fate == ByException, req)
      ensures world.st.replies == old(world.st.replies) + if fate == Alive then 1 else 0
      ensures world.log == old(world.log) + calls
      ensures Served(library, line, calls, fate, machine.host, old(Now()), Now())
      ensures req.Some? ==>
        Exchanged(line, req.value, answer, x, calls, fate, machine.host, old(Now()), Now())
      ensures !(fate == Alive && req.Some? && req.value.kind.Login? && answer.success) ==> SameGreeter()
      ensures fate == Alive && req.Some? && req.value.kind.Login? && answer.success ==>
        Resumes(old(world.running), world.running, config.general.greeterCommand, x.parts.restart)
    {
      hide World.Valid, Step, Allowed, PamAllowed, Ipc.Wire, Ipc.Decoded, Ipc.Encoded, Settled, Handled, Throws,
           Conforms, Said, Abandoned, PamAuth.Valid, Numbered;
      fate, req, answer, x := Alive, None, BLANK_MESSAGE, Exchange(NotStarted, [], [], NO_PARTS);
      HearLine(line);
      ThrowsIsDecoded(library, line);
      var decoded := Ipc.Deserialize(library, line);
      if decoded.Thrown? {
        fate, calls := ByException, [Request(line, true)];
        return;
      }
      req := Some(decoded.value);
      var alive;
      answer, alive, x := ProcessMessage(decoded.value);
      ghost var rest := x.before + [Said(answer, alive)] + x.after;
      calls := [Request(line, false)] + rest;
      RegroupExchange(old(world.log) + [Request(line, false)], x.before, Said(answer, alive), x.after);
      AppendAssociates(old(world.log), [Request(line, false)], rest);
      FateOf(old(world.st).(owed := true), world.st, HandleIn(x.a));
      if !alive {
        fate := BySignal;
      }
      assert Exchanged(line, decoded.value, answer, x, calls, fate, machine.host, old(Now()), Now());
    }

    /** One connection: the first line that arrives is heard and served, and one response is written. Without a line
        nothing happens. A line that makes the decoder throw gets no response and ends the daemon, which leaves
        behind what it had; so does a client that is gone when the response is written. */
    method HandleClientConnection(socket: Socket)
      returns (fate: Fate, req: Option<Message>, answer: Message, ghost x: Exchange, ghost calls: seq<Event>)
      requires Ready() && socket.Valid() && !world.st.owed && world.st.fate == Alive
      modifies this, world, launcher, config, greeterPam, socket
      ensures world.Valid() && world.Later() && world.safe && world.pamSafe && fate == world.st.fate
      ensures fate != BySignal ==> Ready() && !world.st.owed
      ensures fate == BySignal ==> Abandoned(old(world.st).(owed := true), world.st, HandleIn(x.a))
      ensures greeterPam == null || greeterPam == old(greeterPam) || fresh(greeterPam)
      ensures Understood(library, FirstLine(Received(old(socket.pending))), fate == ByException, req)
      ensures forall m, junk ::
        Conforms(library) && Flatten(old(socket.pending)) == Ipc.Wire(m) + junk ==>
          fate != ByException && req == Some(m)
      ensures world.log == old(world.log) + calls
      ensures Connected(library, Some(old(socket.pending)), calls, fate, machine.host, old(Now()), Now())
      ensures req.Some? ==>
        exists line :: Exchanged(line, req.value, answer, x, calls, fate, machine.host, old(Now()), Now())
      ensures world.st.replies == old(world.st.replies) + if req.Some? && fate == Alive then 1 else 0
      ensures !(fate == Alive && req.Some? && req.value.kind.Login? && answer.success) ==> SameGreeter()
      ensures fate == Alive && req.Some? && req.value.kind.Login? && answer.success ==>
        Resumes(old(world.running), world.running, config.general.greeterCommand, x.parts.restart)
    {
      hide World.Valid, Step, Allowed, PamAllowed, Ipc.Wire, Ipc.Decoded, Settled, Handled, Served,
           Received, FirstLine, Conforms, Said, Abandoned, PamAuth.Valid, Numbered;
      fate, req, answer, x, calls := Alive, None, BLANK_MESSAGE, Exchange(NotStarted, [], [], NO_PARTS), [];
      SentIsHeard(library, socket.pending);
      var line := ReadRequest(socket);
      if line.Some? {
        fate, req, answer, x, calls := ServeLine(line.value);
      }
    }

    // -------------------------------------------------------------- the main loop

    /** A greeter that died is replaced. */
    method CheckGreeter() returns (ghost calls: seq<Event>)
      requires Ready()
      modifies this`greeterPid, this`greeterPam, world, greeterPam
      ensures Ready() && world.Later() && Silent()
      ensures greeterPam == null || greeterPam == old(greeterPam) || fresh(greeterPam)
      ensures world.log == old(world.log) + calls
      ensures Checked(calls, old(Now()), Now(), machine.host.accounts)
    {
      hide World.Valid, Step, Allowed, PamAllowed, Released, GreeterSetup, Replaced;
      calls := [];
      AppendNothing(world.log);
      if greeterPid > 0 {
        var running := launcher.IsRunning();
        if !running {
          WaitCalls(world.st, greeterPid);
          OnlyChildGone(greeterPid);
          ghost var pid := greeterPid;
          var w := world.WaitNoHang(greeterPid);
          calls := [StillRunning(pid)];
          if w.Done? {
            greeterPid := -1;
            ghost var end, start := ReplaceGreeter();
            calls := [Reaped(pid, w.status)] + end + start;
            AppendReplacement(old(world.log), Reaped(pid, w.status), end, start);
          }
        }
      }
    }

    /** The next greeter after one that died. */
    method ReplaceGreeter() returns (ghost end: seq<Event>, ghost start: seq<Event>)
      requires AtRest() && greeterPid == -1
      modifies this`greeterPid, this`greeterPam, world, greeterPam
      ensures AtRest() && world.Later() && Silent()
      ensures greeterPam == null || greeterPam == old(greeterPam) || fresh(greeterPam)
      ensures world.log == old(world.log) + end + start
      ensures Replaced(end, start, old(GreeterOwner()), Now(), machine.host.accounts)
      ensures Now() == old(Now()).(pid := greeterPid, greeter := GreeterOwner())
      ensures world.st.greeter == if config.general.greeterCommand == "" then old(world.st.greeter)
                                  else if greeterPid > 0 then Worked else Failed
    {
      hide World.Valid, Step, Allowed, PamAllowed, Released, GreeterStarted;
      end, start := StartGreeter();
    }

    /** `accept`, which may fail. */
    method Accept() returns (client: Socket?, ghost chunks: Option<seq<string>>)
      requires Ready()
      modifies world
      ensures Ready() && world.Later() && Silent() && world.st == old(world.st)
      ensures world.log == old(world.log) + [Accepted(chunks)]
      ensures if chunks.None? then client == null
              else client != null && fresh(client) && client.Valid() && client.pending == chunks.value
    {
      hide World.Valid, Step, Allowed, PamAllowed, Settled, InOrder, Numbered;
      client := null;
      var accepted := world.AcceptClient(BUFFER_SIZE);
      chunks := accepted;
      LoopCall(old(world.st), Accepted(chunks));
      if accepted.Some? {
        client := new Socket(accepted.value);
      }
    }

    /** The loop head, marked in the trace, and the poll; meanwhile the machine may change. */
    method LookAtSocket() returns (p: Poll)
      requires Ready() && world.running && !world.st.owed && world.st.fate == Alive
      modifies world, machine
      ensures Ready() && world.Later() && Silent()
      ensures world.log == old(world.log) + [LoopHead(greeterPid), Polled(p)]
      ensures world.budget < old(world.budget) || (!world.running && p.PollInterrupted?)
    {
      hide World.Valid, Step, Allowed, PamAllowed, Settled, InOrder, Numbered, OnlyGreeterHandle;
      LoopHeadCall(world.st, greeterPid, GreeterOwner().handle);
      world.Record(LoopHead(greeterPid));
      machine.Change();
      ghost var s := world.st;
      p := world.PollSocket();
      LoopCall(s, Polled(p));
    }

    /** One connection, if `accept` yields one. */
    method ServeClient() returns (fate: Fate, ghost chunks: Option<seq<string>>, ghost served: seq<Event>)
      requires Ready() && !world.st.owed && world.st.fate == Alive
      modifies this, world, launcher, config, greeterPam
      ensures world.Valid() && world.Later() && world.safe && world.pamSafe && fate == world.st.fate
      ensures fate != BySignal ==> Ready() && !world.st.owed
      ensures fate == BySignal ==> exists h :: Abandoned(old(world.st).(owed := true), world.st, h)
      ensures fate != Alive ==> SameGreeter()
      ensures greeterPam == null || greeterPam == old(greeterPam) || fresh(greeterPam)
      ensures world.log == old(world.log) + [Accepted(chunks)] + served
      ensures Connected(library, chunks, served, fate, machine.host, old(Now()), Now())
    {
      hide World.Valid, Step, Allowed, PamAllowed, Settled, Served, Handled, Abandoned, Conforms, PamAuth.Valid,
           Numbered, Ipc.Wire, Flatten, Received, FirstLine;
      fate, served := Alive, [];
      var client;
      client, chunks := Accept();
      if client != null {
        var req, answer;
        ghost var x;
        fate, req, answer, x, served := HandleClientConnection(client);
      }
    }

    /** What the main loop does after a poll that returned. */
    method ServePoll(readable: bool) returns (fate: Fate, ghost rest: seq<Event>)
      requires Ready() && !world.st.owed && world.st.fate == Alive
      modifies this, world, launcher, config, greeterPam
      ensures world.Valid() && world.Later() && world.safe && world.pamSafe && fate == world.st.fate
      ensures fate != BySignal ==> Ready() && !world.st.owed
      ensures fate == BySignal ==> exists h :: Abandoned(old(world.st).(owed := true), world.st, h)
      ensures fate != Alive ==> SameGreeter()
      ensures greeterPam == null || greeterPam == old(greeterPam) || fresh(greeterPam)
      ensures world.log == old(world.log) + rest
      ensures AfterPoll(library, if readable then Readable else Quiet, rest, fate, machine.host, old(Now()), Now())
    {
      hide World.Valid, Step, Allowed, PamAllowed, Settled, Connected, Checked, Abandoned, PamAuth.Valid, Numbered;
      fate, rest := Alive, [];
      ghost var was := Now();
      ghost var chunks: Option<seq<string>>, served: seq<Event> := None, [];
      if readable {
        fate, chunks, served := ServeClient();
        rest := [Accepted(chunks)] + served;
        AppendAssociates(old(world.log), [Accepted(chunks)], served);
        if fate != Alive {
          AppendNothing(rest);
          assert WithClient(library, chunks, served, Now(), [], rest, fate, machine.host, was, Now());
          return;
        }
      }
      ghost var mid, before := Now(), rest;
      ghost var checked := CheckGreeter();
      rest := before + checked;
      assert !readable ==> rest == checked;
      AppendAssociates(old(world.log), before, checked);
      AppendNothing(old(world.log));
      assert readable ==> WithClient(library, chunks, served, mid, checked, rest, fate, machine.host, was, Now());
    }

    /** One turn of the loop. */
    method Round() returns (fate: Fate, broken: bool, ghost calls: seq<Event>)
      requires Ready() && world.running && !world.st.owed && world.st.fate == Alive
      modifies this, world, machine, launcher, config, greeterPam
      ensures world.Valid() && world.Later() && world.safe && world.pamSafe && fate == world.st.fate
      ensures fate != BySignal ==> Ready() && !world.st.owed
      ensures greeterPam == null || greeterPam == old(greeterPam) || fresh(greeterPam)
      ensures world.log == old(world.log) + calls
      ensures Turn(library, calls, fate, old(Now()), Now())
      ensures broken <==> Breaks(calls)
      ensures fate != Alive ==> LeftBehind(world.st, greeterPid, GreeterOwner().handle)
      ensures world.budget < old(world.budget) || !world.running
    {
      hide World.Valid, Step, Allowed, PamAllowed, Settled, AfterPoll, Abandoned, LeftBehind;
      fate, broken := Alive, false;
      ghost var was := Now();
      var p := LookAtSocket();
      ghost var s, host := world.st, machine.host;
      ghost var head, rest := [LoopHead(was.pid), Polled(p)], [];
      if p.PollFailed? {
        broken := true;
      } else if !p.PollInterrupted? {
        fate, rest := ServePoll(p.Readable?);
        if fate == BySignal {
          ghost var h :| Abandoned(s.(owed := true), world.st, h);
          AbandonedIsLeft(s, world.st, h, greeterPid, GreeterOwner().handle);
        } else if fate == ByException {
          world.HandlesAreNumbered();
          SettledIsLeft(world.st, greeterPid, GreeterOwner().handle);
        }
      }
      PollsIdly(library, p, host, was);
      calls := head + rest;
      AppendAssociates(old(world.log), head, rest);
      AppendNothing(old(world.log) + head);
      assert calls[1] == Polled(p);
    }

    /** What follows the main loop. */
    method WindUp() returns (ghost windup: seq<Event>)
      requires AtRest()
      modifies this`greeterPid, this`greeterPam, world, launcher, greeterPam
      ensures world.Valid() && world.safe && world.pamSafe && world.Later()
      ensures world.st == old(world.st).(children := map[], live := map[])
      ensures greeterPid == -1 && launcher.sessionPid == -1 && greeterPam == null
      ensures world.log == old(world.log) + windup && WoundUp(windup, old(Now()))
    {
      hide World.Valid, Step, Allowed, PamAllowed, Stopped, Released;
      world.HandlesAreNumbered();
      AllGone(world.st, greeterPid, GreeterOwner().handle);
      ghost var stop, end := StopGreeter();
      windup := stop + end;
      AppendAssociates(old(world.log), stop, end);
      launcher.Terminate();
    }

    /** The first greeter of a run. */
    method FirstGreeter() returns (ghost start: seq<Event>)
      requires AtRest() && greeterPid == -1 && greeterPam == null && world.st.greeter == Untried
      modifies this`greeterPid, this`greeterPam, world
      ensures Ready() && world.Later() && Silent()
      ensures greeterPam == null || fresh(greeterPam)
      ensures world.log == old(world.log) + start
      ensures Now() == old(Now()).(pid := greeterPid, greeter := GreeterOwner())
      ensures FirstStarted(start, Now(), machine.host.accounts)
    {
      hide World.Valid, Step, Allowed, PamAllowed, GreeterStarted, Settled;
      ghost var end;
      end, start := StartGreeter();
    }

    /** Turn after turn, until a signal stops the daemon, a poll fails, or a client ends it. */
    method Loop() returns (fate: Fate, ghost laps: seq<Lap>)
      requires Ready() && !world.st.owed && world.st.fate == Alive && (world.running <==> !world.stopped)
      modifies this, world, machine, launcher, config, greeterPam
      ensures world.Valid() && world.Later() && world.safe && world.pamSafe && fate == world.st.fate
      ensures world.log == old(world.log) + Calls(laps)
      ensures Chain(library, old(Now()), laps, fate) && Now() == StandAfter(old(Now()), laps)
      ensures fate == Alive ==> world.stopped || (laps != [] && Breaks(laps[|laps| - 1].calls))
      ensures fate != BySignal ==> Ready() && !world.st.owed
      ensures fate != Alive ==> LeftBehind(world.st, greeterPid, GreeterOwner().handle)
      ensures greeterPam == null || greeterPam == old(greeterPam) || fresh(greeterPam)
    {
      hide World.Valid, Step, Allowed, PamAllowed, Settled, Turn, LeftBehind, Calls, PamAuth.Valid, Numbered;
      fate, laps := Alive, [];
      NoLaps();
      AppendNothing(world.log);
      while world.running
        invariant Ready() && world.Later() && !world.st.owed && fate == world.st.fate == Alive
        invariant greeterPam == null || greeterPam == old(greeterPam) || fresh(greeterPam)
        invariant world.log == old(world.log) + Calls(laps)
        invariant Chain(library, old(Now()), laps, Alive) && Now() == StandAfter(old(Now()), laps)
        invariant laps != [] ==> !Breaks(laps[|laps| - 1].calls)
        decreases world.budget, if world.running then 1 else 0
      {
        var broken;
        ghost var calls;
        fate, broken, calls := Round();
        OneMoreLap(library, old(Now()), laps, Lap(calls, Now()), fate);
        AppendAssociates(old(world.log), Calls(laps), calls);
        laps := laps + [Lap(calls, Now())];
        if fate != Alive || broken {
          break;
        }
      }
    }

    /** The whole life of the daemon after `init`: the first greeter, turn after turn of the main loop, and what is
        left to be done after it. The loop goes on until a signal stops the daemon or a poll fails, and then no process
        and no PAM handle is left. It is ended earlier by a line on which the decoder throws and by a client that is
        gone when the response is written; either is the last thing that happens, and leaves what there was at the last
        loop head and the handle of a login under way. */
    method Run() returns (fate: Fate, ghost life: Life)
      requires AtRest() && greeterPid == -1 && greeterPam == null
      requires world.st.greeter == Untried && !world.st.owed && world.st.fate == Alive && !world.stopped
      modifies this, world, machine, launcher, config
      ensures world.Valid() && world.safe && world.pamSafe && fate == world.st.fate
      ensures world.log == old(world.log) + life.Trace()
      ensures Lived(library, life, old(Now()), old(machine.host).accounts, fate)
      ensures fate == Alive ==>
        && (world.stopped || (life.laps != [] && Breaks(life.laps[|life.laps| - 1].calls)))
        && world.st.children == map[] && world.st.live == map[]
        && greeterPid == -1 && launcher.sessionPid == -1 && greeterPam == null && activePam == null
      ensures fate != Alive ==> Now() == life.Last() && LeftBehind(world.st, greeterPid, GreeterOwner().handle)
      ensures fate != BySignal ==> !world.st.owed
    {
      hide World.Valid, Step, Allowed, PamAllowed, Settled, Turn, FirstStarted, LeftBehind, WoundUp, Calls, Chain,
           PamAuth.Valid, Numbered;
      world.running := true;
      ghost var start := FirstGreeter();
      life := Life(start, Now(), [], []);
      ghost var laps;
      fate, laps := Loop();
      life := life.(laps := laps);
      WholeLife(old(world.log), life);
      if fate == Alive {
        ghost var windup := WindUp();
        life := life.(windup := windup);
        WholeLife(old(world.log), life);
      }
    }
  }
}
