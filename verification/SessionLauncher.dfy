/** `SessionLauncher`: the user's session process. */
module Launcher {
  import opened Text
  import opened Messages
  import opened Trace
  import opened Environment

  // ---------------------------------------------------------------- the environment of the session

  type Env = map<string, string>

  /** The variables set before PAM's are applied. */
  function BaseEnvironment(user: UserInfo, session: SessionInfo, vt: int): Env {
    var desktop := if session.desktopNames != "" then session.desktopNames else session.name;
    var runtimeDir := "/run/user/" + IntToString(user.uid);
    map[
      "HOME" := user.homeDir,
      "USER" := user.username,
      "LOGNAME" := user.username,
      "SHELL" := user.shell,
      "PATH" := "/usr/local/bin:/usr/bin:/bin:/usr/local/sbin:/usr/sbin",
      "XDG_DATA_DIRS" := "/usr/local/share:/usr/share",
      "XDG_CONFIG_DIRS" := "/etc/xdg",
      "XDG_SESSION_TYPE" := "wayland",
      "XDG_SESSION_CLASS" := "user",
      "XDG_SEAT" := "seat0",
      "XDG_VTNR" := IntToString(vt),
      "XDG_CURRENT_DESKTOP" := desktop,
      "XDG_SESSION_DESKTOP" := desktop,
      "XDG_RUNTIME_DIR" := runtimeDir,
      "DBUS_SESSION_BUS_ADDRESS" := "unix:path=" + runtimeDir + "/bus" ]
  }

  /** The entry `name=value` sets `name`; `setenv` refuses an empty name. */
  predicate Sets(entry: string, name: string) {
    var eq := IndexOf(entry, '=');
    eq < |entry| && entry[..eq] == name && name != ""
  }

  function ValueOf(entry: string): string
    requires IndexOf(entry, '=') < |entry|
  {
    entry[IndexOf(entry, '=') + 1..]
  }

  /** Entry `i` is the last of `entries` that sets `name`. */
  ghost predicate LastSetting(entries: seq<string>, name: string, i: nat) {
    && i < |entries|
    && Sets(entries[i], name)
    && forall j :: i < j < |entries| ==> !Sets(entries[j], name)
  }

  ghost predicate Untouched(entries: seq<string>, name: string) {
    forall i :: 0 <= i < |entries| ==> !Sets(entries[i], name)
  }

  /** The last entry that sets a name wins over earlier ones and over the base. */
  ghost predicate Overridden(env: Env, base: Env, entries: seq<string>) {
    && (forall name, i: nat :: LastSetting(entries, name, i) ==> name in env && env[name] == ValueOf(entries[i]))
    && (forall name :: Untouched(entries, name) && name in base ==> name in env && env[name] == base[name])
    && (forall name :: Untouched(entries, name) && name !in base ==> name !in env)
  }

  /** One `setenv`, or none if the entry has no name. */
  function SetEntry(env: Env, entry: string): Env {
    var eq := IndexOf(entry, '=');
    if eq < |entry| && entry[..eq] != "" then env[entry[..eq] := entry[eq + 1..]] else env
  }

  lemma OverriddenStep(env: Env, base: Env, entries: seq<string>, entry: string)
    requires Overridden(env, base, entries)
    ensures Overridden(SetEntry(env, entry), base, entries + [entry])
  {
    hide IndexOf;
    var now, more := SetEntry(env, entry), entries + [entry];
    forall name, i: nat | LastSetting(more, name, i) ensures name in now && now[name] == ValueOf(more[i]) {
      if i < |entries| {
        assert more[|entries|] == entry;
        assert forall j :: 0 <= j < |entries| ==> more[j] == entries[j];
        assert LastSetting(entries, name, i);
      }
    }
    forall name | Untouched(more, name) ensures Untouched(entries, name) && !Sets(entry, name) {
      assert more[|entries|] == entry;
      assert forall j :: 0 <= j < |entries| ==> more[j] == entries[j];
    }
  }

  /** The `setenv` calls on the cleared environment. */
  method BaseVariables(user: UserInfo, session: SessionInfo, vt: int) returns (env: Env)
    ensures env == BaseEnvironment(user, session, vt)
  {
    hide IntToString;
    env := map[];
    env := env["HOME" := user.homeDir];
    env := env["USER" := user.username];
    env := env["LOGNAME" := user.username];
    env := env["SHELL" := user.shell];
    env := env["PATH" := "/usr/local/bin:/usr/bin:/bin:/usr/local/sbin:/usr/sbin"];
    env := env["XDG_DATA_DIRS" := "/usr/local/share:/usr/share"];
    env := env["XDG_CONFIG_DIRS" := "/etc/xdg"];
    env := env["XDG_SESSION_TYPE" := "wayland"];
    env := env["XDG_SESSION_CLASS" := "user"];
    env := env["XDG_SEAT" := "seat0"];
    env := env["XDG_VTNR" := IntToString(vt)];
    if session.desktopNames != "" {
      env := env["XDG_CURRENT_DESKTOP" := session.desktopNames];
      env := env["XDG_SESSION_DESKTOP" := session.desktopNames];
    } else {
      env := env["XDG_CURRENT_DESKTOP" := session.name];
      env := env["XDG_SESSION_DESKTOP" := session.name];
    }
    var runtimeDir := "/run/user/" + IntToString(user.uid);
    env := env["XDG_RUNTIME_DIR" := runtimeDir];
    env := env["DBUS_SESSION_BUS_ADDRESS" := "unix:path=" + runtimeDir + "/bus"];
  }

  /** The environment that the child gives to the session command. */
  method SessionEnvironment(user: UserInfo, session: SessionInfo, pamEnvs: seq<string>, vt: int) returns (env: Env)
    ensures Overridden(env, BaseEnvironment(user, session, vt), pamEnvs)
  {
    env := BaseVariables(user, session, vt);
    hide BaseEnvironment, Sets, ValueOf;
    ghost var base := env;
    assert pamEnvs[..0] == [];
    for n := 0 to |pamEnvs|
      invariant Overridden(env, base, pamEnvs[..n])
    {
      OverriddenStep(env, base, pamEnvs[..n], pamEnvs[n]);
      assert pamEnvs[..n] + [pamEnvs[n]] == pamEnvs[..n + 1];
      var eq := IndexOf(pamEnvs[n], '=');
      if eq < |pamEnvs[n]| {
        var k, v := pamEnvs[n][..eq], pamEnvs[n][eq + 1..];
        if k != "" {
          env := env[k := v];
        }
      }
    }
    assert pamEnvs[..|pamEnvs|] == pamEnvs;
  }

  // ---------------------------------------------------------------- the process

  /** What `wait_for_exit` makes of a status. */
  function ExitCode(status: ExitStatus): int {
    match status
    case Exited(code) => code
    case Signaled(signal) => 128 + signal
    case OtherStatus(raw) => raw
  }

  class SessionLauncher {
    const world: World
    var sessionPid: int

    constructor (world: World)
      ensures this.world == world && sessionPid == -1
    {
      this.world := world;
      sessionPid := -1;
    }

    /** Nothing changed for PAM, and nothing that was safe became unsafe. */
    twostate predicate Harmless()
      reads world
    {
      && world.Valid()
      && world.Later()
      && world.safe == old(world.safe)
      && world.pamSafe == old(world.pamSafe)
    }

    /** Reaps an ended session but keeps its pid. */
    method IsRunning() returns (running: bool)
      requires world.Valid()
      modifies world
      ensures Harmless()
      ensures sessionPid <= 0 ==> !running && world.log == old(world.log)
      ensures running ==>
        && sessionPid > 0 && sessionPid in old(world.st.children)
        && world.log == old(world.log) + [StillRunning(sessionPid)]
        && world.st == old(world.st)
      ensures !running ==> world.st == WithoutChild(old(world.st), sessionPid)
      ensures sessionPid > 0 && !running ==>
        if sessionPid in old(world.st.children)
        then exists status :: world.log == old(world.log) + [Reaped(sessionPid, status)]
        else world.log == old(world.log) + [NotAChild(sessionPid)]
    {
      hide World.Valid, Allowed, PamAllowed, Step;
      if sessionPid <= 0 {
        return false;
      }
      WaitCalls(world.st, sessionPid);
      var w := world.WaitNoHang(sessionPid);
      if w == NotYet {
        return true;
      }
      if w == Echild {
        assert old(world.st.children) - {sessionPid} == old(world.st.children);
      }
      return false;
    }

    /** The parent's side. A recorded session that still runs is kept; one that has ended is reaped and
        replaced. */
    method Launch(user: UserInfo, session: SessionInfo, pamEnvs: seq<string>, vt: int) returns (ok: bool)
      requires world.Valid()
      modifies this, world
      ensures world.Valid() && world.Later()
      ensures old(world.pamSafe) ==> world.pamSafe
      ensures ok ==>
        var before := WithoutChild(old(world.st), old(sessionPid));
        && sessionPid > 0 && sessionPid !in before.children
        && world.st == before.(children := before.children[sessionPid := Session])
        && (old(world.safe) && Allowed(before, Fork(sessionPid, SessionProcess(user, session, pamEnvs, vt))) ==>
              world.safe)
      ensures !ok ==>
        && sessionPid == old(sessionPid)
        && (old(world.safe) ==> world.safe)
        && (|| (sessionPid > 0 && sessionPid in old(world.st.children)
                && world.log == old(world.log) + [StillRunning(sessionPid)]
                && world.st == old(world.st))
            || world.st == WithoutChild(old(world.st), sessionPid))
      ensures old(sessionPid) <= 0 ==>
        world.log == old(world.log) + [if ok then Fork(sessionPid, SessionProcess(user, session, pamEnvs, vt))
                                        else ForkFailed(SessionProcess(user, session, pamEnvs, vt))]
    {
      hide World.Valid, Allowed, PamAllowed, Step;
      if sessionPid > 0 {
        var running := IsRunning();
        if running {
          return false;
        }
      }
      var what := SessionProcess(user, session, pamEnvs, vt);
      ForkCalls(world.st, what);
      var pid := world.ForkChild(what);
      if pid < 0 {
        return false;
      }
      sessionPid := pid;
      return true;
    }

    /** Blocks until the session has been reaped, however often signals interrupt the wait. */
    method WaitForExit() returns (code: int)
      requires world.Valid()
      modifies this, world
      ensures Harmless()
      ensures old(sessionPid) <= 0 ==>
        code == 0 && sessionPid == old(sessionPid) && world.log == old(world.log) && world.st == old(world.st)
      ensures old(sessionPid) > 0 ==>
        sessionPid == -1 && world.st == WithoutChild(old(world.st), old(sessionPid))
      ensures old(sessionPid) > 0 ==>
        if old(sessionPid) in old(world.st.children)
        then exists n, status :: code == ExitCode(status)
               && world.log == old(world.log) + Repeat(Interrupted(old(sessionPid)), n)
                               + [Reaped(old(sessionPid), status)]
        else code == -1 && world.log == old(world.log) + [NotAChild(old(sessionPid))]
    {
      hide World.Valid, Allowed, PamAllowed, Step;
      if sessionPid <= 0 {
        return 0;
      }
      ghost var pid, n := sessionPid, 0;
      WaitCalls(world.st, pid);
      assert world.log == old(world.log) + Repeat(Interrupted(pid), 0);
      while true
        invariant sessionPid == pid && Harmless()
        invariant world.st == old(world.st)
        invariant world.log == old(world.log) + Repeat(Interrupted(pid), n)
        invariant pid !in world.st.children ==> n == 0
        decreases world.budget
      {
        var w := world.WaitBlocking(sessionPid);
        if w.Done? {
          sessionPid := -1;
          match w.status {
            case Exited(c) => return c;
            case Signaled(signal) => return 128 + signal;
            case OtherStatus(raw) => return raw;
          }
        }
        if w == Echild {
          sessionPid := -1;
          assert old(world.st.children) - {pid} == old(world.st.children);
          return -1;
        }
        n := n + 1;
      }
    }

    /** Asks, waits, and only then kills. Signals go to a child exactly if the recorded pid is one. */
    method Terminate()
      requires world.Valid()
      modifies this, world
      ensures world.Valid() && world.Later()
      ensures old(world.pamSafe) ==> world.pamSafe
      ensures world.safe == (old(world.safe) && (old(sessionPid) <= 0 || old(sessionPid) in old(world.st.children)))
      ensures world.st == WithoutChild(old(world.st), old(sessionPid))
      ensures sessionPid == if old(sessionPid) > 0 then -1 else old(sessionPid)
      ensures old(sessionPid) <= 0 ==> world.log == old(world.log)
      ensures old(sessionPid) > 0 && old(sessionPid) in old(world.st.children) ==>
        exists waits, status ::
          waits <= 21 && world.log == old(world.log) + StopTrace(old(sessionPid), waits, 21, status)
      ensures var pid := old(sessionPid);
        pid > 0 && pid !in old(world.st.children) ==>
          world.log == old(world.log) + [Kill(pid, SIGTERM, true), Kill(pid, SIGTERM, false), NotAChild(pid)]
    {
      hide World.Valid, Allowed, PamAllowed, Step, StopTrace;
      if sessionPid > 0 {
        ghost var pid := sessionPid;
        WaitCalls(world.st, pid);
        world.SendToBoth(sessionPid, SIGTERM);
        ghost var asked := world.log;
        ghost var waits := 0;
        var running;
        for i := 0 to 20
          invariant waits == i
          invariant sessionPid == pid && world.Valid() && world.Later()
          invariant old(world.pamSafe) ==> world.pamSafe
          invariant world.safe == (old(world.safe) && pid in old(world.st.children))
          invariant world.st == old(world.st)
          invariant world.log == asked + Repeat(StillRunning(pid), waits)
          invariant i > 0 ==> pid in world.st.children
        {
          running := IsRunning();
          if !running {
            sessionPid := -1;
            if pid in old(world.st.children) {
              ghost var status :| world.log == asked + Repeat(StillRunning(pid), waits) + [Reaped(pid, status)];
              StoppedByTerm(old(world.log), pid, waits, 21, status);
            }
            return;
          }
          waits := waits + 1;
        }
        running := IsRunning();
        if running {
          waits := waits + 1;
          world.SendToBoth(sessionPid, SIGKILL);
          var status := world.WaitKilled(sessionPid);
          StoppedByKill(old(world.log), pid, 21, status);
        } else {
          ghost var status :| world.log == asked + Repeat(StillRunning(pid), waits) + [Reaped(pid, status)];
          StoppedByTerm(old(world.log), pid, waits, 21, status);
        }
        sessionPid := -1;
      }
    }

    /** A caller that looks and then terminates, without `launch` or `wait_for_exit` in between: the signals
        reach a child exactly if the look found the session still running. A session that has ended is reaped
        by the look, its pid stays recorded, and the signals go to whoever has that pid by then. */
    method TerminateAfterLook() returns (running: bool)
      requires world.Valid()
      modifies this, world
      ensures world.Valid() && world.Later()
      ensures world.safe == (old(world.safe) && (old(sessionPid) <= 0 || running))
    {
      hide World.Valid, Allowed, PamAllowed, Step;
      running := IsRunning();
      Terminate();
    }

    /** Such a caller, from the launch on. If the launch succeeds and the look finds the session ended, what
        follows is the signal to a process that is no child any more. */
    method TerminateTooLate(user: UserInfo, session: SessionInfo, pamEnvs: seq<string>, vt: int)
      returns (late: bool, ghost pid: int, ghost status: ExitStatus, ghost calls: seq<Event>)
      requires world.Valid() && sessionPid == -1
      modifies this, world
      ensures world.Valid() && world.Later()
      ensures late ==> !world.safe
      ensures world.log == old(world.log) + calls
      ensures if late then calls == LateTrace(pid, SessionProcess(user, session, pamEnvs, vt), status)
              else InTime(calls)
      ensures late ==> pid > 0 && pid !in old(world.st.children)
    {
      hide World.Valid, Allowed, PamAllowed, Step, StopTrace;
      ghost var what := SessionProcess(user, session, pamEnvs, vt);
      var launched := Launch(user, session, pamEnvs, vt);
      if !launched {
        return false, 0, OtherStatus(0), [ForkFailed(what)];
      }
      pid := sessionPid;
      var running := IsRunning();
      late, status := !running, OtherStatus(0);
      if late {
        status :| world.log == old(world.log) + [Fork(pid, what)] + [Reaped(pid, status)];
      }
      ghost var before := world.log;
      Terminate();
      if late {
        calls := LateTrace(pid, what, status);
      } else {
        ghost var waits, st :| world.log == before + StopTrace(pid, waits, 21, st);
        calls := [Fork(pid, what), StillRunning(pid)] + StopTrace(pid, waits, 21, st);
      }
    }
  }

  /** The session is launched, ends, is reaped by a look, and is signalled. */
  function LateTrace(pid: int, what: Launch, status: ExitStatus): seq<Event> {
    [Fork(pid, what), Reaped(pid, status), Kill(pid, SIGTERM, true), Kill(pid, SIGTERM, false), NotAChild(pid)]
  }

  /** No session, or one that the look found running. */
  ghost predicate InTime(calls: seq<Event>) {
    || (exists what :: calls == [ForkFailed(what)])
    || (exists pid, what, waits, status ::
          calls == [Fork(pid, what), StillRunning(pid)] + StopTrace(pid, waits, 21, status))
  }

  /** The operating system may answer in this way, whichever pid it gives out. */
  lemma LateTraceIsPossible(pid: int, what: Launch, status: ExitStatus)
    requires pid > 0
    ensures AllPossible(LateTrace(pid, what, status))
  {
    hide Replay, Possible, Step;
    var late := LateTrace(pid, what, status);
    assert late[..0] == [] && late[..1] == [] + [late[0]] && late[..2] == late[..1] + [late[1]];
    assert late[..3] == late[..2] + [late[2]] && late[..4] == late[..3] + [late[3]];
    LateStates(pid, what, status);
    ReplayAppend(late[..0], late[0]);
    ReplayAppend(late[..1], late[1]);
    ReplayAppend(late[..2], late[2]);
    ReplayAppend(late[..3], late[3]);
  }

  lemma LateStates(pid: int, what: Launch, status: ExitStatus)
    requires pid > 0
    ensures var late := LateTrace(pid, what, status);
      var forked := Step(START, late[0]);
      var reaped := Step(forked, late[1]);
      && Replay([]) == START && Possible(START, late[0]) && Possible(forked, late[1])
      && Possible(reaped, late[2]) && Step(reaped, late[2]) == reaped
      && Possible(reaped, late[3]) && Step(reaped, late[3]) == reaped && Possible(reaped, late[4])
  {
    KillCall(Step(Step(START, Fork(pid, what)), Reaped(pid, status)), pid);
  }
}
