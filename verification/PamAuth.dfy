/** `PamAuth`: the owner of one PAM handle. */
module Pam {
  import opened Trace
  import opened Environment

  /** What `end` asks of PAM for a handle with these flags. */
  function Ending(h: nat, session: bool, creds: bool, closeOk: bool, deleteOk: bool): seq<Event> {
    (if session then [CloseSession(h, closeOk)] else [])
    + (if creds then [DeleteCred(h, deleteOk)] else [])
    + [PamEnd(h)]
  }

  /** The session goes before the credentials, and the handle last. */
  lemma EndingInOrder(h: nat, session: bool, creds: bool, closeOk: bool, deleteOk: bool)
    ensures var calls := Ending(h, session, creds, closeOk, deleteOk);
      && (session <==> CloseSession(h, closeOk) in calls) && (creds <==> DeleteCred(h, deleteOk) in calls)
      && (forall i, j ::
            (0 <= i < |calls| && 0 <= j < |calls| && calls[i].CloseSession? && calls[j].DeleteCred? ==> i < j))
      && (forall i :: 0 <= i < |calls| ==> (calls[i] == PamEnd(h) <==> i == |calls| - 1))
  {
    var calls := Ending(h, session, creds, closeOk, deleteOk);
    if session {
      assert calls[0] == CloseSession(h, closeOk);
    }
    if creds {
      assert calls[if session then 1 else 0] == DeleteCred(h, deleteOk);
    }
  }

  /** What matters about one `PamAuth` object. */
  datatype Owner = Owner(handle: nat, session: bool, credentials: bool)

  /** A null handle has both flags down; a live one has the flags that its trace says. */
  predicate InOrder(s: State, o: Owner) {
    && (o.handle == 0 ==> !o.session && !o.credentials)
    && (o.handle != 0 ==>
          && o.handle in s.live
          && s.live[o.handle].open == o.session
          && s.live[o.handle].credentials == o.credentials)
  }

  class PamAuth {
    const world: World
    var handle: nat
    var username: string
    var serviceName: string
    var errorMessage: string
    var sessionOpened: bool
    var credentialsSet: bool

    function AsOwner(): Owner
      reads this
    {
      Owner(handle, sessionOpened, credentialsSet)
    }

    ghost predicate Valid()
      reads this, world
    {
      world.Valid() && Numbered(world.st) && InOrder(world.st, AsOwner())
    }

    /** A call through this object is correct, and changes nothing but this object's own handle. */
    twostate predicate Kept()
      reads this, world
    {
      && Valid()
      && world.Later()
      && (old(world.pamSafe) ==> world.pamSafe)
      && world.st == old(world.st).(started := world.st.started, live := world.st.live)
      && world.st.live - {handle} == old(world.st.live) - {old(handle)}
      && (handle == 0 || handle == old(handle) || handle == world.st.started > old(world.st.started))
      && world.st.started >= old(world.st.started)
    }

    /** A call on the same handle, with nothing for the display manager to object to. */
    twostate predicate Quiet()
      reads this, world
    {
      && Kept()
      && world.st.started == old(world.st.started)
      && (old(world.safe) ==> world.safe)
    }

    constructor (world: World)
      requires world.Valid()
      ensures this.world == world && handle == 0 && Valid()
      ensures !sessionOpened && !credentialsSet
    {
      this.world := world;
      handle := 0;
      username, serviceName, errorMessage := "", "", "";
      sessionOpened, credentialsSet := false, false;
    }

    /** The move constructor. */
    constructor FromMove(other: PamAuth)
      requires other.Valid()
      modifies other
      ensures world == other.world
      ensures handle == old(other.handle)
      ensures sessionOpened == old(other.sessionOpened) && credentialsSet == old(other.credentialsSet)
      ensures other.handle == 0 && Valid() && other.Valid()
    {
      world := other.world;
      handle := other.handle;
      username, serviceName, errorMessage := other.username, other.serviceName, other.errorMessage;
      sessionOpened := other.sessionOpened;
      credentialsSet := other.credentialsSet;
      new;
      other.handle := 0;
      other.sessionOpened := false;
      other.credentialsSet := false;
    }

    /** The move assignment: what this object owned is ended first; moving onto itself does nothing. */
    method MoveFrom(other: PamAuth)
      requires Valid() && other.Valid() && other.world == world
      requires other != this && handle != 0 ==> other.handle != handle
      modifies this, other, world
      ensures Valid() && other.Valid()
      ensures old(world.pamSafe) ==> world.pamSafe
      ensures other == this ==> handle == old(handle) && world.st == old(world.st)
      ensures other != this ==>
        && handle == old(other.handle) && other.handle == 0
        && world.st == old(world.st).(live := old(world.st.live) - {old(handle)})
    {
      hide World.Valid, Allowed, PamAllowed, Step;
      if this != other {
        End();
        handle := other.handle;
        username, serviceName, errorMessage := other.username, other.serviceName, other.errorMessage;
        sessionOpened := other.sessionOpened;
        credentialsSet := other.credentialsSet;
        other.handle := 0;
        other.sessionOpened := false;
        other.credentialsSet := false;
      }
    }

    /** Whatever was owned is ended; then the service is tried, and "login" after it. */
    method Start(user: string, service: string) returns (ok: bool)
      requires Valid()
      modifies this, world
      ensures Kept()
      ensures ok <==> handle != 0
      ensures ok ==>
        && handle == world.st.started == old(world.st.started) + 1
        && world.st.live[handle] == Auth(service, user, 0, false, false)
      ensures !ok ==> world.st.started == old(world.st.started)
      ensures old(handle) == 0 ==>
        || (ok && world.log == old(world.log) + [PamStart(handle, service, service, user)])
        || (ok && world.log == old(world.log) + [PamStartFailed(service, user),
                                                 PamStart(handle, "login", service, user)])
        || (!ok && world.log == old(world.log) + [PamStartFailed(service, user), PamStartFailed("login", user)])
      ensures var before := old(world.st).(live := old(world.st.live) - {old(handle)});
        old(world.safe) && Allowed(before, PamStart(before.started + 1, service, service, user)) ==> world.safe
    {
      hide World.Valid, Allowed, PamAllowed, Step, Ending;
      End();
      username := user;
      serviceName := service;
      ok := TryServices(user, service);
      if !ok {
        errorMessage := world.ErrorText();
      }
    }

    /** The two `pam_start` calls. */
    method TryServices(user: string, service: string) returns (ok: bool)
      requires Valid() && handle == 0
      modifies this`handle, world
      ensures Kept()
      ensures ok <==> handle != 0
      ensures ok ==>
        && handle == world.st.started == old(world.st.started) + 1
        && world.st == old(world.st).(started := handle,
                                      live := old(world.st.live)[handle := Auth(service, user, 0, false, false)])
      ensures !ok ==> world.st == old(world.st)
      ensures
        || (ok && world.log == old(world.log) + [PamStart(handle, service, service, user)])
        || (ok && world.log == old(world.log) + [PamStartFailed(service, user),
                                                 PamStart(handle, "login", service, user)])
        || (!ok && world.log == old(world.log) + [PamStartFailed(service, user), PamStartFailed("login", user)])
      ensures var e := PamStart(old(world.st.started) + 1, service, service, user);
        old(world.safe) && Allowed(old(world.st), e) ==> world.safe
      ensures old(world.safe) && !ok ==> world.safe
    {
      hide World.Valid, Allowed, PamAllowed, Step;
      StartOnce(world.st, service, user);
      handle := world.StartPam(service, user, service);
      if handle == 0 {
        handle := world.StartPam("login", user, service);
      }
      ok := handle != 0;
    }

    method Authenticate(password: string) returns (ok: bool)
      requires Valid()
      modifies this, world
      ensures Quiet() && handle == old(handle)
      ensures handle == 0 ==> !ok && world.log == old(world.log)
      ensures handle != 0 ==>
        && world.st.live[handle] == Advanced(old(world.st.live[handle]), 1, ok)
        && (world.log == old(world.log) + [SetConversation(handle, password, true), Trace.Authenticate(handle, ok)]
            || (!ok && world.log == old(world.log) + [SetConversation(handle, password, false)]))
    {
      hide World.Valid, Allowed, PamAllowed, Step;
      if handle == 0 {
        errorMessage := "PAM handle not initialized";
        return false;
      }
      CallWithoutEffect(world.st, SetConversation(handle, password, true));
      CallWithoutEffect(world.st, SetConversation(handle, password, false));
      ok := world.PamSetConversation(handle, password);
      if !ok {
        errorMessage := world.ErrorText();
        return;
      }
      CallOnLive(world.st, Trace.Authenticate(handle, true));
      CallOnLive(world.st, Trace.Authenticate(handle, false));
      ok := world.PamAuthenticate(handle);
      if !ok {
        errorMessage := world.ErrorText();
      }
    }

    method CheckAccount() returns (ok: bool)
      requires Valid()
      modifies this, world
      ensures Quiet() && handle == old(handle)
      ensures handle == 0 ==> !ok && world.log == old(world.log)
      ensures handle != 0 ==>
        && world.st.live[handle] == Advanced(old(world.st.live[handle]), 2, ok)
        && world.log == old(world.log) + [AcctMgmt(handle, ok)]
    {
      hide World.Valid, Allowed, PamAllowed, Step;
      if handle == 0 {
        return false;
      }
      CallOnLive(world.st, AcctMgmt(handle, true));
      CallOnLive(world.st, AcctMgmt(handle, false));
      ok := world.PamAcctMgmt(handle);
      if !ok {
        errorMessage := world.ErrorText();
      }
    }

    method EstablishCredentials() returns (ok: bool)
      requires Valid()
      modifies this, world
      ensures Quiet() && handle == old(handle)
      ensures handle == 0 ==> !ok && world.log == old(world.log)
      ensures handle != 0 ==>
        && world.st.live[handle] == (var a := old(world.st.live[handle]);
                                     if ok then Advanced(a, 3, ok).(credentials := true) else a)
        && world.log == old(world.log) + [EstablishCred(handle, ok)]
    {
      hide World.Valid, Allowed, PamAllowed, Step;
      if handle == 0 {
        return false;
      }
      CallOnLive(world.st, EstablishCred(handle, true));
      CallOnLive(world.st, EstablishCred(handle, false));
      ok := world.PamEstablishCred(handle);
      if !ok {
        errorMessage := world.ErrorText();
        return;
      }
      credentialsSet := true;
    }

    /** Nothing to delete is a success; otherwise the flag falls whatever PAM says. */
    method DeleteCredentials() returns (ok: bool)
      requires Valid()
      modifies this, world
      ensures Quiet() && handle == old(handle) && !credentialsSet && sessionOpened == old(sessionOpened)
      ensures if old(credentialsSet) then world.log == old(world.log) + [DeleteCred(handle, ok)]
              else ok && world.log == old(world.log)
    {
      hide World.Valid, Allowed, PamAllowed, Step;
      if handle == 0 || !credentialsSet {
        return true;
      }
      CallOnLive(world.st, DeleteCred(handle, true));
      CallOnLive(world.st, DeleteCred(handle, false));
      ok := world.PamDeleteCred(handle);
      credentialsSet := false;
      if !ok {
        errorMessage := world.ErrorText();
      }
    }

    method OpenSession() returns (ok: bool)
      requires Valid()
      modifies this, world
      ensures Quiet() && handle == old(handle)
      ensures handle == 0 ==> !ok && world.log == old(world.log)
      ensures handle != 0 ==>
        && world.st.live[handle] == (var a := old(world.st.live[handle]);
                                     if ok then Advanced(a, 4, ok).(open := true) else a)
        && world.log == old(world.log) + [Trace.OpenSession(handle, ok)]
    {
      hide World.Valid, Allowed, PamAllowed, Step;
      if handle == 0 {
        return false;
      }
      CallOnLive(world.st, Trace.OpenSession(handle, true));
      CallOnLive(world.st, Trace.OpenSession(handle, false));
      ok := world.PamOpenSession(handle);
      if !ok {
        errorMessage := world.ErrorText();
        return;
      }
      sessionOpened := true;
    }

    method CloseSession() returns (ok: bool)
      requires Valid()
      modifies this, world
      ensures Quiet() && handle == old(handle) && !sessionOpened && credentialsSet == old(credentialsSet)
      ensures if old(sessionOpened) then world.log == old(world.log) + [Trace.CloseSession(handle, ok)]
              else ok && world.log == old(world.log)
    {
      hide World.Valid, Allowed, PamAllowed, Step;
      if handle == 0 || !sessionOpened {
        return true;
      }
      CallOnLive(world.st, Trace.CloseSession(handle, true));
      CallOnLive(world.st, Trace.CloseSession(handle, false));
      ok := world.PamCloseSession(handle);
      sessionOpened := false;
      if !ok {
        errorMessage := world.ErrorText();
      }
    }

    /** Closes and deletes what the flags say is left, then ends the handle once. The destructor is
        this call. */
    method End()
      requires Valid()
      modifies this, world
      ensures Quiet() && handle == 0
      ensures world.st == old(world.st).(live := old(world.st.live) - {old(handle)})
      ensures old(handle) == 0 ==> world.log == old(world.log)
      ensures old(handle) != 0 ==> exists closeOk, deleteOk ::
        world.log == old(world.log) + Ending(old(handle), old(sessionOpened), old(credentialsSet), closeOk, deleteOk)
    {
      hide World.Valid, Allowed, PamAllowed, Step;
      if handle != 0 {
        var closeOk, deleteOk := true, true;
        if sessionOpened {
          closeOk := CloseSession();
        }
        if credentialsSet {
          deleteOk := DeleteCredentials();
        }
        EndOfLive(world.st, handle);
        world.EndPam(handle);
        ghost var ending := Ending(old(handle), old(sessionOpened), old(credentialsSet), closeOk, deleteOk);
        assert world.log == old(world.log) + ending;
        handle := 0;
      }
      sessionOpened := false;
      credentialsSet := false;
    }

    method GetEnvironmentList() returns (entries: seq<string>)
      requires Valid()
      modifies world
      ensures Quiet() && handle == old(handle)
      ensures world.st == old(world.st)
      ensures handle != 0 ==> world.log == old(world.log) + [GetEnvList(handle, entries)]
      ensures handle == 0 ==> entries == [] && world.log == old(world.log)
    {
      hide World.Valid, Allowed, PamAllowed, Step;
      if handle == 0 {
        return [];
      }
      forall list {
        CallWithoutEffect(world.st, GetEnvList(handle, list));
      }
      entries := world.PamGetEnvList(handle);
    }

    method SetEnv(name: string, value: string) returns (ok: bool)
      requires Valid()
      modifies world
      ensures Quiet() && handle == old(handle)
      ensures world.st == old(world.st)
      ensures handle != 0 ==> world.log == old(world.log) + [PutEnv(handle, name + "=" + value)]
      ensures handle == 0 ==> !ok && world.log == old(world.log)
    {
      hide World.Valid, Allowed, PamAllowed, Step;
      if handle == 0 {
        return false;
      }
      CallWithoutEffect(world.st, PutEnv(handle, name + "=" + value));
      ok := world.PamPutEnv(handle, name + "=" + value);
    }
  }
}
