/** What a safe trace says in its own events: statements about positions in the trace, without the books
    that `Trace` keeps. */
module Runs {
  import opened Messages
  import opened Trace

  // ---------------------------------------------------------------- begun and not over

  /** What begins and is over: what the daemon must not leave behind; a greeter whose last fork worked; and a
      request that can be read and has not been answered. */
  datatype Thing =
    | Child(pid: int)
    | Handle(h: nat)
    | OpenedSession(h: nat)
    | Credentials(h: nat)
    | GreeterFork
    | Unanswered
  {
    predicate Begins(e: Event) {
      match this
      case Child(pid) => e.Fork? && e.pid == pid
      case Handle(h) => e.PamStart? && e.handle == h
      case OpenedSession(h) => e == OpenSession(h, true)
      case Credentials(h) => e == EstablishCred(h, true)
      case GreeterFork => e.Fork? && e.what.GreeterProcess?
      case Unanswered => e.Request? && !e.throws
    }

    /** A handle that starts has no session and no credentials yet. */
    predicate Finishes(e: Event) {
      match this
      case Child(pid) => e.Reaped? && e.pid == pid
      case Handle(h) => e == PamEnd(h)
      case OpenedSession(h) => (e.CloseSession? || e.PamStart?) && e.handle == h
      case Credentials(h) => (e.DeleteCred? || e.PamStart?) && e.handle == h
      case GreeterFork => e.ForkFailed? && e.what.GreeterProcess?
      case Unanswered => e.Reply?
    }
  }

  /** Before position `n` the thing has begun, and it has not been over since. */
  ghost predicate Pending(log: seq<Event>, n: nat, x: Thing)
    requires n <= |log|
  {
    exists j :: 0 <= j < n && x.Begins(log[j]) && forall k :: j < k < n ==> !x.Finishes(log[k])
  }

  lemma PendingStep(log: seq<Event>, n: nat, x: Thing)
    requires n < |log|
    ensures Pending(log, n + 1, x) <==> x.Begins(log[n]) || (Pending(log, n, x) && !x.Finishes(log[n]))
  {
    if Pending(log, n, x) && !x.Finishes(log[n]) {
      var j :| 0 <= j < n && x.Begins(log[j]) && forall k :: j < k < n ==> !x.Finishes(log[k]);
      assert forall k :: j < k < n + 1 ==> !x.Finishes(log[k]);
    }
  }

  /** The books before position `n`. */
  function At(log: seq<Event>, n: nat): State
    requires n <= |log|
  {
    Replay(log[..n])
  }

  lemma AtStep(log: seq<Event>, n: nat)
    requires n < |log|
    ensures At(log, n + 1) == Step(At(log, n), log[n])
  {
    ReplayAppend(log[..n], log[n]);
    assert log[..n] + [log[n]] == log[..n + 1];
  }

  lemma AtStart(log: seq<Event>)
    ensures At(log, 0) == START
  {
  }

  lemma AtEnd(log: seq<Event>)
    ensures At(log, |log|) == Replay(log)
  {
    assert log[..|log|] == log;
  }

  /** What the books say about a thing. */
  predicate Booked(s: State, x: Thing) {
    match x
    case Child(pid) => pid in s.children
    case Handle(h) => h in s.live
    case OpenedSession(h) => h in s.live && s.live[h].open
    case Credentials(h) => h in s.live && s.live[h].credentials
    case GreeterFork => s.greeter == Worked
    case Unanswered => s.owed
  }

  lemma BookedStep(s: State, e: Event, x: Thing)
    requires PamAllowed(s, e)
    ensures Booked(Step(s, e), x) <==> x.Begins(e) || (Booked(s, x) && !x.Finishes(e))
  {
    hide Step, OnHandle;
    if x.OpenedSession? || x.Credentials? {
      LiveStep(s, e, x.h);
      if x.h in s.live {
        FlagsStep(s.live[x.h], e);
      }
    } else if x.Handle? {
      hide PamAllowed;
      LiveStep(s, e, x.h);
    } else {
      hide PamAllowed;
      OthersStep(s, e);
    }
  }

  /** What an event means for children, for the greeter and for the client that waits. */
  lemma OthersStep(s: State, e: Event)
    ensures forall pid :: pid in Step(s, e).children <==>
      (e.Fork? && e.pid == pid) || (pid in s.children && !(e.Reaped? && e.pid == pid))
    ensures Step(s, e).greeter == if TriesGreeter(e) then (if e.Fork? then Worked else Failed) else s.greeter
    ensures Step(s, e).owed <==> (e.Request? && !e.throws) || (s.owed && !e.Reply?)
    ensures Step(s, e).fate == if e.Request? && e.throws then ByException
                               else if e.BrokenPipe? then BySignal
                               else s.fate
    ensures Step(s, e).replies == s.replies + if e.Reply? then 1 else 0
  {
    hide OnHandle;
  }

  lemma FlagsStep(a: Auth, e: Event)
    ensures OnHandle(a, e).open <==> (e.OpenSession? && e.ok) || (a.open && !e.CloseSession?)
    ensures OnHandle(a, e).credentials <==> (e.EstablishCred? && e.ok) || (a.credentials && !e.DeleteCred?)
  {
  }

  /** What an event means for handle `h`. */
  lemma LiveStep(s: State, e: Event, h: nat)
    ensures h in Step(s, e).live <==> (e.PamStart? && e.handle == h) || (h in s.live && e != PamEnd(h))
    ensures e.PamStart? && e.handle == h ==> Step(s, e).live[h] == Auth(e.asked, e.user, 0, false, false)
    ensures h in s.live && h in Step(s, e).live && !(e.PamStart? && e.handle == h) ==>
      Step(s, e).live[h] == if HandleOf(e) == h then OnHandle(s.live[h], e) else s.live[h]
  {
  }

  /** In a trace that uses PAM correctly, exactly what is pending is in the books. */
  lemma {:induction false} PendingIsBooked(log: seq<Event>, n: nat, x: Thing)
    requires PamSafe(log) && n <= |log|
    ensures Pending(log, n, x) <==> Booked(At(log, n), x)
  {
    hide Replay, Step, PamAllowed;
    if n == 0 {
      AtStart(log);
    } else {
      PendingIsBooked(log, n - 1, x);
      AtStep(log, n - 1);
      PendingStep(log, n - 1, x);
      BookedStep(At(log, n - 1), log[n - 1], x);
    }
  }

  // ---------------------------------------------------------------- the life of a handle, for any user of PAM

  /** Handles are numbered as they are started. */
  lemma {:induction false} StartedSoFar(log: seq<Event>, n: nat)
    requires PamSafe(log) && n <= |log|
    ensures Numbered(At(log, n))
    ensures forall i :: 0 <= i < n && log[i].PamStart? ==> 0 < log[i].handle <= At(log, n).started
  {
    hide Replay;
    if n == 0 {
      AtStart(log);
    } else {
      StartedSoFar(log, n - 1);
      AtStep(log, n - 1);
    }
  }

  lemma StartedOnce(log: seq<Event>, i: nat, j: nat)
    requires PamSafe(log) && i < |log| && j < |log|
    requires log[i].PamStart? && log[j].PamStart? && log[i].handle == log[j].handle
    ensures i == j
  {
    hide Replay;
    StartedSoFar(log, i);
    StartedSoFar(log, j);
  }

  /** Every call is on a handle that has been started and not ended yet. */
  lemma CallIsOnPending(log: seq<Event>, k: nat)
    requires PamSafe(log) && k < |log| && IsCall(log[k])
    ensures Pending(log, k, Handle(HandleOf(log[k])))
    ensures log[k].CloseSession? ==> Pending(log, k, OpenedSession(log[k].handle))
    ensures log[k].DeleteCred? ==> Pending(log, k, Credentials(log[k].handle))
  {
    hide Replay;
    var h := HandleOf(log[k]);
    PendingIsBooked(log, k, Handle(h));
    PendingIsBooked(log, k, OpenedSession(h));
    PendingIsBooked(log, k, Credentials(h));
  }

  /** After `pam_end` no call is made on the handle, it is not ended again, and it does not come back. */
  lemma NothingAfterEnd(log: seq<Event>, e: nat, k: nat)
    requires PamSafe(log) && e < k < |log| && log[e].PamEnd?
    ensures HandleOf(log[k]) != log[e].handle
  {
    hide Replay;
    var h := log[e].handle;
    CallIsOnPending(log, e);
    var start :| 0 <= start < e && Handle(h).Begins(log[start]);
    StartedSoFar(log, e);
    if HandleOf(log[k]) == h {
      if IsCall(log[k]) {
        CallIsOnPending(log, k);
        var again :| 0 <= again < k && Handle(h).Begins(log[again])
                     && forall m :: again < m < k ==> !Handle(h).Finishes(log[m]);
        StartedOnce(log, start, again);
      } else {
        StartedOnce(log, start, k);
      }
    }
  }

  /** Before `pam_end` every session that was opened on the handle has been closed, and all credentials that
      were set have been deleted. */
  lemma EndLeavesNothing(log: seq<Event>, e: nat, k: nat)
    requires PamSafe(log) && k < e < |log| && log[e].PamEnd?
    ensures log[k] == OpenSession(log[e].handle, true) ==>
      exists c :: k < c < e && log[c].CloseSession? && log[c].handle == log[e].handle
    ensures log[k] == EstablishCred(log[e].handle, true) ==>
      exists c :: k < c < e && log[c].DeleteCred? && log[c].handle == log[e].handle
  {
    hide Replay;
    var h := log[e].handle;
    PendingIsBooked(log, e, OpenedSession(h));
    PendingIsBooked(log, e, Credentials(h));
    if log[k] == OpenSession(h, true) {
      NotStartedBetween(log, k, e, OpenedSession(h));
    }
    if log[k] == EstablishCred(h, true) {
      NotStartedBetween(log, k, e, Credentials(h));
    }
  }

  /** Something that begins in the life of a handle and is over later was not ended by a new start. */
  lemma NotStartedBetween(log: seq<Event>, k: nat, e: nat, x: Thing)
    requires PamSafe(log) && k < e <= |log| && !Pending(log, e, x)
    requires (x.OpenedSession? || x.Credentials?) && x.Begins(log[k])
    ensures exists c :: k < c < e && x.Finishes(log[c]) && !log[c].PamStart?
  {
    hide Replay;
    var c :| k < c < e && x.Finishes(log[c]);
    CallIsOnPending(log, k);
    var start :| 0 <= start < k && Handle(x.h).Begins(log[start]);
    if log[c].PamStart? {
      StartedOnce(log, start, c);
    }
  }

  /** A trace at whose end no handle is live ends every handle that it starts, exactly once. */
  lemma EveryHandleEnds(log: seq<Event>, i: nat)
    requires PamSafe(log) && Replay(log).live == map[]
    requires i < |log| && log[i].PamStart?
    ensures exists e :: i < e < |log| && log[e] == PamEnd(log[i].handle)
                     && forall k :: 0 <= k < |log| && log[k] == PamEnd(log[i].handle) ==> k == e
  {
    var h := log[i].handle;
    AtEnd(log);
    PendingIsBooked(log, |log|, Handle(h));
    assert !Pending(log, |log|, Handle(h));
    hide Replay;
    var e :| i < e < |log| && Handle(h).Finishes(log[e]);
    forall k | 0 <= k < |log| && log[k] == PamEnd(h) ensures k == e {
      if k < e { NothingAfterEnd(log, k, e); }
      if e < k { NothingAfterEnd(log, e, k); }
    }
  }

  // ---------------------------------------------------------------- what the display manager may do

  lemma SafeIsPamSafe(log: seq<Event>)
    requires Safe(log)
    ensures PamSafe(log)
  {
    hide Replay;
  }

  /** At most one child and two handles, at every point of a safe run. */
  lemma {:induction false} BooksAreSmall(log: seq<Event>, n: nat)
    requires Safe(log) && n <= |log|
    ensures |At(log, n).children| <= 1 && |At(log, n).live| <= 2
  {
    hide Replay;
    if n == 0 {
      AtStart(log);
    } else {
      BooksAreSmall(log, n - 1);
      AtStep(log, n - 1);
      SmallStep(At(log, n - 1), log[n - 1]);
    }
  }

  lemma SmallStep(s: State, e: Event)
    requires Allowed(s, e) && |s.children| <= 1 && |s.live| <= 2
    ensures |Step(s, e).children| <= 1 && |Step(s, e).live| <= 2
  {
    var t := Step(s, e);
    KeysStep(s, e);
    hide Step, OnHandle, OnlyCompleteLogin, OnlyGreeterHandle, OnlyGreeter, PamAllowed;
    Sizes(s.live, t.live);
    Sizes(s.children, t.children);
    if e.PamStart? {
      OneMore(s.live.Keys, e.handle);
    }
    if e.Fork? {
      OneMore(s.children.Keys, e.pid);
    }
  }

  /** A start adds one handle and a fork one child; nothing else adds any. */
  lemma KeysStep(s: State, e: Event)
    ensures Step(s, e).live.Keys <= if e.PamStart? then s.live.Keys + {e.handle} else s.live.Keys
    ensures Step(s, e).children.Keys <= if e.Fork? then s.children.Keys + {e.pid} else s.children.Keys
  {
    hide OnHandle;
  }

  lemma Sizes<K, V>(a: map<K, V>, b: map<K, V>)
    ensures |a| == |a.Keys| && |b| == |b.Keys|
    ensures b.Keys <= a.Keys ==> |b| <= |a|
    ensures forall k :: b.Keys <= a.Keys + {k} ==> |b.Keys| <= |a.Keys + {k}|
  {
    if b.Keys <= a.Keys {
      Subsets(b.Keys, a.Keys);
    }
    forall k | b.Keys <= a.Keys + {k} ensures |b.Keys| <= |a.Keys + {k}| {
      Subsets(b.Keys, a.Keys + {k});
    }
  }

  lemma OneMore<K>(s: set<K>, k: K)
    ensures |s + {k}| <= |s| + 1
  {
  }

  lemma {:induction false} Subsets<K>(a: set<K>, b: set<K>)
    requires a <= b
    ensures |a| <= |b|
  {
    if a != {} {
      var x :| x in a;
      Subsets(a - {x}, b - {x});
    }
  }

  lemma TwoKeys<K, V>(m: map<K, V>, a: K, b: K)
    requires a in m && b in m && |m| <= 1
    ensures a == b
  {
    Subsets({a, b}, m.Keys);
    assert |m.Keys| == |m|;
  }

  lemma ThreeKeys<K, V>(m: map<K, V>, a: K, b: K, c: K)
    requires a in m && b in m && c in m && |m| <= 2
    ensures a == b || b == c || a == c
  {
    Subsets({a, b, c}, m.Keys);
    assert |m.Keys| == |m|;
  }

  /** There is never more than one unreaped child, and never more than two live handles. */
  lemma FewAtATime(log: seq<Event>, n: nat)
    requires Safe(log) && n <= |log|
    ensures forall p, q :: Pending(log, n, Child(p)) && Pending(log, n, Child(q)) ==> p == q
    ensures forall f, g, h ::
      Pending(log, n, Handle(f)) && Pending(log, n, Handle(g)) && Pending(log, n, Handle(h)) ==>
        f == g || g == h || f == h
  {
    hide Replay, Pending;
    SafeIsPamSafe(log);
    BooksAreSmall(log, n);
    var s := At(log, n);
    forall p, q | Pending(log, n, Child(p)) && Pending(log, n, Child(q)) ensures p == q {
      PendingIsBooked(log, n, Child(p));
      PendingIsBooked(log, n, Child(q));
      TwoKeys(s.children, p, q);
    }
    forall f, g, h | Pending(log, n, Handle(f)) && Pending(log, n, Handle(g)) && Pending(log, n, Handle(h))
      ensures f == g || g == h || f == h
    {
      PendingIsBooked(log, n, Handle(f));
      PendingIsBooked(log, n, Handle(g));
      PendingIsBooked(log, n, Handle(h));
      ThreeKeys(s.live, f, g, h);
    }
  }

  /** Every signal goes to a child that has been forked and not reaped since, though pids are reused. */
  lemma SignalsHitChildren(log: seq<Event>, i: nat)
    requires Safe(log) && i < |log| && log[i].Kill?
    ensures Pending(log, i, Child(log[i].pid))
  {
    hide Replay;
    SafeIsPamSafe(log);
    PendingIsBooked(log, i, Child(log[i].pid));
  }

  /** Nothing of handle `g` is left. */
  ghost predicate AllOver(log: seq<Event>, n: nat, g: nat)
    requires n <= |log|
  {
    !Pending(log, n, Handle(g)) && !Pending(log, n, OpenedSession(g)) && !Pending(log, n, Credentials(g))
  }

  lemma NotLiveIsOver(log: seq<Event>, n: nat, g: nat)
    requires PamSafe(log) && n <= |log| && g !in At(log, n).live
    ensures AllOver(log, n, g)
  {
    hide Replay;
    PendingIsBooked(log, n, Handle(g));
    PendingIsBooked(log, n, OpenedSession(g));
    PendingIsBooked(log, n, Credentials(g));
  }

  lemma NoChildPending(log: seq<Event>, n: nat)
    requires PamSafe(log) && n <= |log| && At(log, n).children == map[]
    ensures forall pid :: !Pending(log, n, Child(pid))
  {
    hide Replay, Pending;
    forall pid ensures !Pending(log, n, Child(pid)) {
      PendingIsBooked(log, n, Child(pid));
    }
  }

  /** Where in the trace the five stages of a login succeeded. */
  datatype Stages = Stages(start: nat, auth: nat, acct: nat, cred: nat, open: nat)

  predicate Undoes(e: Event, h: nat) {
    (e.CloseSession? || e.DeleteCred?) && e.handle == h
  }

  ghost predicate StartedAt(log: seq<Event>, n: nat, h: nat, asked: string, user: string, start: nat)
    requires n <= |log|
  {
    && start < n
    && log[start].PamStart? && log[start].handle == h && log[start].asked == asked && log[start].user == user
    && forall k :: start < k < n ==> log[k] != PamEnd(h)
  }

  ghost predicate AuthenticatedAt(log: seq<Event>, n: nat, h: nat, auth: nat)
    requires n <= |log|
  {
    auth < n && log[auth] == Authenticate(h, true) && forall k :: auth < k < n ==> !Undoes(log[k], h)
  }

  /** What the books call the first `stage` stages of handle `h` did happen, in order. */
  ghost predicate Reached(log: seq<Event>, n: nat, h: nat, a: Auth, p: Stages)
    requires n <= |log|
  {
    && StartedAt(log, n, h, a.asked, a.user, p.start)
    && a.stage <= COMPLETE
    && (a.stage >= 1 ==> p.start < p.auth && AuthenticatedAt(log, n, h, p.auth))
    && (a.stage >= 2 ==> p.auth < p.acct < n && log[p.acct] == AcctMgmt(h, true))
    && (a.stage >= 3 ==> p.acct < p.cred < n && log[p.cred] == EstablishCred(h, true))
    && (a.stage >= 4 ==> p.cred < p.open < n && log[p.open] == OpenSession(h, true))
  }

  /** One more event, which neither starts nor ends the handle. */
  lemma ReachedStep(log: seq<Event>, n: nat, h: nat, a: Auth, p: Stages) returns (q: Stages)
    requires h != 0 && n < |log| && Reached(log, n, h, a, p)
    requires !(log[n].PamStart? && log[n].handle == h) && log[n] != PamEnd(h)
    ensures Reached(log, n + 1, h, if HandleOf(log[n]) == h then OnHandle(a, log[n]) else a, q)
  {
    var e := log[n];
    q := p;
    if HandleOf(e) == h {
      var stage := OnHandle(a, e).stage;
      if stage > a.stage {
        q := if stage == 1 then p.(auth := n) else if stage == 2 then p.(acct := n)
             else if stage == 3 then p.(cred := n) else p.(open := n);
      }
    }
  }

  lemma {:induction false} StagesHappened(log: seq<Event>, n: nat, h: nat) returns (p: Stages)
    requires PamSafe(log) && n <= |log| && h in At(log, n).live
    ensures Reached(log, n, h, At(log, n).live[h], p)
  {
    hide Replay, Reached, Numbered, OnHandle;
    p := Stages(0, 0, 0, 0, 0);
    if n == 0 {
      AtStart(log);
    } else {
      var e, m := log[n - 1], n - 1;
      AtStep(log, m);
      StartedSoFar(log, m);
      if e.PamStart? && e.handle == h {
        p := p.(start := m);
        JustStarted(log, m, p);
      } else {
        p := StagesHappened(log, m, h);
        NotNull(At(log, m), h);
        p := ReachedStep(log, m, h, At(log, m).live[h], p);
      }
    }
  }

  lemma JustStarted(log: seq<Event>, n: nat, p: Stages)
    requires n < |log| && log[n].PamStart? && p.start == n
    ensures Reached(log, n + 1, log[n].handle, Auth(log[n].asked, log[n].user, 0, false, false), p)
  {
  }

  lemma NotNull(s: State, h: nat)
    requires Numbered(s) && h in s.live
    ensures h != 0
  {
  }

  /** The five stages of `user`'s login on `h` succeeded in order, and nothing was undone since. */
  ghost predicate LoggedIn(log: seq<Event>, n: nat, h: nat, user: string)
    requires n <= |log|
  {
    exists p :: Reached(log, n, h, Auth(USER_SERVICE, user, COMPLETE, true, true), p)
  }

  /** A user's process is forked only when that very user has logged in on a handle; by then every other
      handle has been ended with its session closed, and every process forked before has been reaped. */
  lemma LaunchSafety(log: seq<Event>, i: nat)
    requires Safe(log) && i < |log| && log[i].Fork? && log[i].what.SessionProcess?
    ensures exists h :: LoggedIn(log, i, h, log[i].what.user.username) && forall g :: g != h ==> AllOver(log, i, g)
    ensures forall pid :: !Pending(log, i, Child(pid))
  {
    hide Replay, Pending, AllOver;
    SafeIsPamSafe(log);
    var s := At(log, i);
    assert Allowed(s, log[i]);
    NoChildPending(log, i);
    assert |s.live.Keys| == 1;
    var h :| h in s.live;
    var p := StagesHappened(log, i, h);
    forall g | g != h ensures AllOver(log, i, g) {
      if g in s.live {
        TwoKeys(s.live, g, h);
      }
      NotLiveIsOver(log, i, g);
    }
    assert LoggedIn(log, i, h, log[i].what.user.username);
  }

  /** A greeter is set up only when nothing is left of anything before: no process, no handle, no session. */
  lemma GreeterStartsClean(log: seq<Event>, i: nat)
    requires Safe(log) && i < |log| && log[i].PamStart? && log[i].asked == GREETER_SERVICE
    ensures forall g :: AllOver(log, i, g)
    ensures forall pid :: !Pending(log, i, Child(pid))
  {
    hide Replay, Pending, AllOver;
    SafeIsPamSafe(log);
    assert Allowed(At(log, i), log[i]);
    NoChildPending(log, i);
    forall g ensures AllOver(log, i, g) {
      NotLiveIsOver(log, i, g);
    }
  }

  /** The handle of the last setup of a greeter before `n`, which has not been ended. */
  ghost predicate LastSetup(log: seq<Event>, n: nat, h: nat)
    requires n <= |log|
  {
    exists user, start: nat ::
      && StartedAt(log, n, h, GREETER_SERVICE, user, start)
      && forall k :: start < k < n ==> !(log[k].PamStart? && log[k].asked == GREETER_SERVICE)
  }

  /** At every loop head the unreaped children are exactly the recorded greeter, and there is at most one live
      handle, that of the last greeter that was set up. */
  lemma LoopHeadConserves(log: seq<Event>, i: nat)
    requires Safe(log) && i < |log| && log[i].LoopHead?
    ensures forall pid :: Pending(log, i, Child(pid)) <==> pid == log[i].greeterPid && pid > 0
    ensures forall g, h :: Pending(log, i, Handle(g)) && Pending(log, i, Handle(h)) ==> g == h
    ensures forall h :: Pending(log, i, Handle(h)) ==> LastSetup(log, i, h)
  {
    hide Replay, Pending, LastSetup;
    SafeIsPamSafe(log);
    var s := At(log, i);
    assert Allowed(s, log[i]);
    forall pid ensures Pending(log, i, Child(pid)) <==> pid == log[i].greeterPid && pid > 0 {
      PendingIsBooked(log, i, Child(pid));
    }
    GreeterHandleOnly(log, i);
  }

  /** Where the books have only a greeter's handle, it is that of the last greeter that was set up. */
  lemma GreeterHandleOnly(log: seq<Event>, n: nat)
    requires Safe(log) && n <= |log| && OnlyGreeterHandle(At(log, n))
    ensures forall g, h :: Pending(log, n, Handle(g)) && Pending(log, n, Handle(h)) ==> g == h
    ensures forall h :: Pending(log, n, Handle(h)) ==> LastSetup(log, n, h)
  {
    hide Replay, Pending, LastSetup, Reached;
    SafeIsPamSafe(log);
    var s := At(log, n);
    forall g, h | Pending(log, n, Handle(g)) && Pending(log, n, Handle(h)) ensures g == h {
      PendingIsBooked(log, n, Handle(g));
      PendingIsBooked(log, n, Handle(h));
      TwoKeys(s.live, g, h);
    }
    forall h | Pending(log, n, Handle(h)) ensures LastSetup(log, n, h) {
      PendingIsBooked(log, n, Handle(h));
      var p := StagesHappened(log, n, h);
      ReachedIsStarted(log, n, h, s.live[h], p);
      NoLaterSetup(log, n, h, s.live[h].user, p.start);
    }
  }

  lemma NoLaterSetup(log: seq<Event>, n: nat, h: nat, user: string, start: nat)
    requires Safe(log) && n <= |log| && StartedAt(log, n, h, GREETER_SERVICE, user, start)
    ensures LastSetup(log, n, h)
  {
    hide Replay, Safe;
    forall k | start < k < n ensures !(log[k].PamStart? && log[k].asked == GREETER_SERVICE) {
      PendingMeanwhile(log, n, h, user, start, k);
      if log[k].PamStart? && log[k].asked == GREETER_SERVICE {
        NothingOfAny(log, k, h);
      }
    }
  }

  lemma PendingMeanwhile(log: seq<Event>, n: nat, h: nat, user: string, start: nat, k: nat)
    requires start < k < n <= |log| && StartedAt(log, n, h, GREETER_SERVICE, user, start)
    ensures Pending(log, k, Handle(h))
  {
    assert Handle(h).Begins(log[start]);
  }

  lemma NothingOfAny(log: seq<Event>, k: nat, h: nat)
    requires Safe(log) && k < |log| && log[k].PamStart? && log[k].asked == GREETER_SERVICE
    ensures !Pending(log, k, Handle(h))
  {
    hide Replay, Safe, Pending;
    GreeterStartsClean(log, k);
    assert AllOver(log, k, h);
  }

  lemma ReachedIsStarted(log: seq<Event>, n: nat, h: nat, a: Auth, p: Stages)
    requires n <= |log| && Reached(log, n, h, a, p)
    ensures StartedAt(log, n, h, a.asked, a.user, p.start)
  {
  }

  /** At most one handle is live at any fork. */
  lemma OneHandleAtFork(log: seq<Event>, i: nat, g: nat, h: nat)
    requires Safe(log) && i < |log| && log[i].Fork?
    requires Pending(log, i, Handle(g)) && Pending(log, i, Handle(h))
    ensures g == h
  {
    hide Replay, Pending;
    SafeIsPamSafe(log);
    PendingIsBooked(log, i, Handle(g));
    PendingIsBooked(log, i, Handle(h));
    TwoKeys(At(log, i).live, g, h);
  }

  // ---------------------------------------------------------------- the greeter

  /** At every loop head a greeter is recorded exactly if the last attempt to fork one worked. */
  lemma GreeterPresence(log: seq<Event>, i: nat)
    requires Safe(log) && i < |log| && log[i].LoopHead?
    ensures log[i].greeterPid > 0 <==> Pending(log, i, GreeterFork)
  {
    hide Replay;
    SafeIsPamSafe(log);
    PendingIsBooked(log, i, GreeterFork);
  }

  predicate TriesGreeter(e: Event) {
    (e.Fork? || e.ForkFailed?) && e.what.GreeterProcess?
  }

  predicate FailsGreeter(e: Event) {
    e.ForkFailed? && e.what.GreeterProcess?
  }

  /** Once a greeter has been tried, every loop head before the first failure has one. */
  lemma PresentUntilFailure(log: seq<Event>, i: nat, tried: nat)
    requires Safe(log) && tried < i < |log| && log[i].LoopHead?
    requires TriesGreeter(log[tried]) && forall k :: 0 <= k < i ==> !FailsGreeter(log[k])
    ensures log[i].greeterPid > 0
  {
    hide Replay;
    assert Thing.GreeterFork.Begins(log[tried]);
    GreeterPresence(log, i);
  }

  /** What ends the daemon. */
  predicate Ends(e: Event) {
    e.BrokenPipe? || (e.Request? && e.throws)
  }

  /** The books tell what ended the daemon last, if anything did. */
  ghost predicate FateTells(log: seq<Event>, n: nat, fate: Fate)
    requires n <= |log|
  {
    match fate
    case Alive => forall i :: 0 <= i < n ==> !Ends(log[i])
    case ByException =>
      exists i :: 0 <= i < n && log[i].Request? && log[i].throws && forall k :: i < k < n ==> !Ends(log[k])
    case BySignal => exists i :: 0 <= i < n && log[i].BrokenPipe? && forall k :: i < k < n ==> !Ends(log[k])
  }

  lemma {:induction false} FateIsTold(log: seq<Event>, n: nat)
    requires n <= |log|
    ensures FateTells(log, n, At(log, n).fate)
  {
    hide Replay, Step;
    if n == 0 {
      AtStart(log);
    } else {
      FateIsTold(log, n - 1);
      AtStep(log, n - 1);
      OthersStep(At(log, n - 1), log[n - 1]);
    }
  }

  // ---------------------------------------------------------------- requests and responses

  /** While nothing ends, restarts or, beyond stage 0, undoes it, a handle keeps its stage and what it has. */
  lemma {:induction false} StageKept(log: seq<Event>, m: nat, n: nat, h: nat, stage: nat)
    requires PamSafe(log) && m <= n <= |log| && h in At(log, m).live && At(log, m).live[h].stage >= stage
    requires forall k :: m <= k < n ==> log[k] != PamEnd(h) && !(log[k].PamStart? && log[k].handle == h)
    requires stage > 0 ==> forall k :: m <= k < n ==> !Undoes(log[k], h)
    ensures h in At(log, n).live
    ensures var was, now := At(log, m).live[h], At(log, n).live[h];
      && now.asked == was.asked && now.user == was.user && now.stage >= stage
      && (stage > 0 && was.open ==> now.open) && (stage > 0 && was.credentials ==> now.credentials)
  {
    hide Replay, Step;
    if m < n {
      StageKept(log, m, n - 1, h, stage);
      AtStep(log, n - 1);
      LiveStep(At(log, n - 1), log[n - 1], h);
    }
  }

  /** The same over a stretch, and then one stage that succeeds. */
  lemma StageGained(log: seq<Event>, m: nat, n: nat, h: nat, stage: nat)
    requires PamSafe(log) && m <= n < |log| && h in At(log, m).live && At(log, m).live[h].stage >= stage
    requires forall k :: m <= k <= n ==> log[k] != PamEnd(h) && !(log[k].PamStart? && log[k].handle == h)
    requires stage > 0 ==> forall k :: m <= k <= n ==> !Undoes(log[k], h)
    requires HandleOf(log[n]) == h && StageOf(log[n]) == stage + 1
    ensures h in At(log, n + 1).live
    ensures var was, now := At(log, m).live[h], At(log, n + 1).live[h];
      && now.asked == was.asked && now.user == was.user && now.stage >= stage + 1
      && (log[n].OpenSession? || (stage > 0 && was.open) ==> now.open)
      && (log[n].EstablishCred? || (stage > 0 && was.credentials) ==> now.credentials)
  {
    hide Replay, Step;
    StageKept(log, m, n, h, stage);
    AtStep(log, n);
    LiveStep(At(log, n), log[n], h);
  }

  /** Which stage a call completes. */
  function StageOf(e: Event): nat {
    match e
    case Authenticate(_, true) => 1
    case AcctMgmt(_, true) => 2
    case EstablishCred(_, true) => 3
    case OpenSession(_, true) => 4
    case _ => 0
  }

  /** Five stages that happened in order, and were not undone, are in the books. */
  lemma LoggedInIsBooked(log: seq<Event>, n: nat, h: nat, user: string)
    requires PamSafe(log) && n <= |log| && LoggedIn(log, n, h, user)
    ensures h in At(log, n).live && At(log, n).live[h] == Auth(USER_SERVICE, user, COMPLETE, true, true)
  {
    hide At, PamSafe;
    var p :| Reached(log, n, h, Auth(USER_SERVICE, user, COMPLETE, true, true), p);
    StartedOnlyThen(log, n, p.start);
    AuthenticatedIsBooked(log, h, p.start, p.auth);
    CompletedIsBooked(log, n, h, p.auth, p.acct, p.cred, p.open);
    StageIsSmall(log, n, h);
  }

  lemma StartedOnlyThen(log: seq<Event>, n: nat, start: nat)
    requires PamSafe(log) && start < n <= |log| && log[start].PamStart?
    ensures forall k :: start < k < n ==> !(log[k].PamStart? && log[k].handle == log[start].handle)
  {
    hide PamSafe;
    forall k | start < k < n ensures !(log[k].PamStart? && log[k].handle == log[start].handle) {
      if log[k].PamStart? && log[k].handle == log[start].handle {
        StartedOnce(log, start, k);
      }
    }
  }

  lemma StageIsSmall(log: seq<Event>, n: nat, h: nat)
    requires PamSafe(log) && n <= |log| && h in At(log, n).live
    ensures At(log, n).live[h].stage <= COMPLETE
  {
    hide Replay;
    var p := StagesHappened(log, n, h);
  }

  lemma CompletedIsBooked(log: seq<Event>, n: nat, h: nat, auth: nat, acct: nat, cred: nat, open: nat)
    requires PamSafe(log) && auth < acct < cred < open < n <= |log|
    requires h in At(log, auth + 1).live && At(log, auth + 1).live[h].stage >= 1
    requires log[acct] == AcctMgmt(h, true) && log[cred] == EstablishCred(h, true) && log[open] == OpenSession(h, true)
    requires forall k :: auth < k < n ==> log[k] != PamEnd(h) && !(log[k].PamStart? && log[k].handle == h)
    requires forall k :: auth < k < n ==> !Undoes(log[k], h)
    ensures h in At(log, n).live
    ensures var was, now := At(log, auth + 1).live[h], At(log, n).live[h];
      now.asked == was.asked && now.user == was.user && now.stage >= 4 && now.credentials && now.open
  {
    hide At, PamSafe, Undoes;
    StageGained(log, auth + 1, acct, h, 1);
    StageGained(log, acct + 1, cred, h, 2);
    StageGained(log, cred + 1, open, h, 3);
    StageKept(log, open + 1, n, h, 4);
  }

  lemma AuthenticatedIsBooked(log: seq<Event>, h: nat, start: nat, auth: nat)
    requires PamSafe(log) && start < auth < |log| && log[start].PamStart? && log[start].handle == h
    requires log[auth] == Authenticate(h, true)
    requires forall k :: start < k <= auth ==> log[k] != PamEnd(h) && !(log[k].PamStart? && log[k].handle == h)
    ensures h in At(log, auth + 1).live && At(log, auth + 1).live[h].stage >= 1
    ensures At(log, auth + 1).live[h].asked == log[start].asked && At(log, auth + 1).live[h].user == log[start].user
  {
    hide Replay, PamSafe;
    JustLive(log, start);
    StageGained(log, start + 1, auth, h, 0);
  }

  lemma JustLive(log: seq<Event>, start: nat)
    requires start < |log| && log[start].PamStart?
    ensures log[start].handle in At(log, start + 1).live
    ensures At(log, start + 1).live[log[start].handle] == Auth(log[start].asked, log[start].user, 0, false, false)
  {
    hide Replay, Step;
    AtStep(log, start);
    LiveStep(At(log, start), log[start], log[start].handle);
  }

  /** A response grants a login exactly if, when it is given, some user's five stages have succeeded in order and
      nothing was undone since. The same holds of a response that does not arrive. */
  lemma ResponseTells(log: seq<Event>, i: nat)
    requires Safe(log) && i < |log| && (log[i].Reply? || log[i].BrokenPipe?)
    ensures log[i].message == LOGIN_GRANTED <==> exists h, user :: LoggedIn(log, i, h, user)
  {
    hide Replay, LoggedIn;
    SafeIsPamSafe(log);
    var s := At(log, i);
    assert Allowed(s, log[i]);
    if SomeoneLoggedIn(s) {
      var h :| h in s.live && s.live[h] == Auth(USER_SERVICE, s.live[h].user, COMPLETE, true, true);
      BookedIsLoggedIn(log, i, h);
    }
    forall h, user | LoggedIn(log, i, h, user) ensures SomeoneLoggedIn(s) {
      LoggedInIsBooked(log, i, h, user);
    }
  }

  lemma BookedIsLoggedIn(log: seq<Event>, i: nat, h: nat)
    requires PamSafe(log) && i <= |log| && h in At(log, i).live
    requires At(log, i).live[h] == Auth(USER_SERVICE, At(log, i).live[h].user, COMPLETE, true, true)
    ensures LoggedIn(log, i, h, At(log, i).live[h].user)
  {
    hide Replay, Reached;
    var p := StagesHappened(log, i, h);
  }

  /** A response is given only to a request that waits for one, and no request is taken, nor the loop head
      reached, while one waits. */
  lemma OneAtATime(log: seq<Event>, i: nat)
    requires Safe(log) && i < |log|
    ensures log[i].Reply? ==> Pending(log, i, Unanswered)
    ensures log[i].Request? || log[i].LoopHead? ==> !Pending(log, i, Unanswered)
  {
    hide Replay;
    SafeIsPamSafe(log);
    PendingIsBooked(log, i, Unanswered);
  }

  /** Every request that can be read is answered before the next request and the next loop head. */
  lemma RequestIsAnswered(log: seq<Event>, i: nat, j: nat)
    requires Safe(log) && i < j < |log|
    requires log[i].Request? && !log[i].throws && (log[j].Request? || log[j].LoopHead?)
    ensures exists k :: i < k < j && log[k].Reply?
  {
    hide Replay;
    OneAtATime(log, j);
    assert Unanswered.Begins(log[i]);
  }

  /** Before every response, and between any two, there is a request that can be read. */
  lemma ResponseHasRequest(log: seq<Event>, i: nat)
    requires Safe(log) && i < |log| && log[i].Reply?
    ensures exists r :: 0 <= r < i && log[r].Request? && !log[r].throws
                     && forall k :: r < k < i ==> !log[k].Reply?
  {
    hide Replay;
    OneAtATime(log, i);
    var r :| 0 <= r < i && Unanswered.Begins(log[r]) && forall k :: r < k < i ==> !Unanswered.Finishes(log[k]);
  }

  function CountReplies(log: seq<Event>): nat {
    if log == [] then 0 else CountReplies(log[..|log| - 1]) + if log[|log| - 1].Reply? then 1 else 0
  }

  lemma {:induction false} RepliesAreCounted(log: seq<Event>)
    ensures Replay(log).replies == CountReplies(log)
  {
    hide Step;
    if log != [] {
      RepliesAreCounted(log[..|log| - 1]);
      OthersStep(Replay(log[..|log| - 1]), log[|log| - 1]);
    }
  }

  lemma {:induction false} CountConcat(a: seq<Event>, b: seq<Event>)
    ensures CountReplies(a + b) == CountReplies(a) + CountReplies(b)
  {
    if b == [] {
      assert a + b == a;
    } else {
      var init := b[..|b| - 1];
      CountConcat(a, init);
      assert (a + b)[..|a + b| - 1] == a + init;
    }
  }

  lemma {:induction false} NoneCounted(log: seq<Event>)
    ensures CountReplies(log) == 0 <==> forall i :: 0 <= i < |log| ==> !log[i].Reply?
  {
    if log != [] {
      var init := log[..|log| - 1];
      NoneCounted(init);
      assert forall i :: 0 <= i < |init| ==> init[i] == log[i];
    }
  }

  /** If the books count one response more, the one that is shown is the only one. */
  lemma OnlyResponse(log: seq<Event>, before: seq<Event>, response: Event, after: seq<Event>)
    requires response.Reply?
    ensures Replay(log + before + [response] + after).replies == Replay(log).replies + 1
       <==> forall e :: e in before + after ==> !e.Reply?
  {
    hide Replay;
    RepliesAreCounted(log);
    RepliesAreCounted(log + before + [response] + after);
    CountConcat(log, before);
    CountConcat(log + before, [response]);
    CountConcat(log + before + [response], after);
    CountConcat([], [response]);
    assert [] + [response] == [response] && CountReplies([response]) == 1;
    NoneCounted(before);
    NoneCounted(after);
  }
}
