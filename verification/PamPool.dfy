/** Any program that uses any number of `PamAuth` objects, in any way. */
module PamPool {
  import opened Trace
  import opened Environment
  import opened Pam

  /** One thing a client can do; indices name objects, in order of construction. */
  datatype Use =
    | Construct
    | Start(i: nat, user: string, service: string)
    | Authenticate(i: nat, password: string)
    | CheckAccount(i: nat)
    | EstablishCredentials(i: nat)
    | DeleteCredentials(i: nat)
    | OpenSession(i: nat)
    | CloseSession(i: nat)
    | SetEnv(i: nat, name: string, value: string)
    | GetEnvironmentList(i: nat)
    | End(i: nat)
    | MoveConstruct(i: nat)
    | MoveAssign(i: nat, j: nat)
    | Destroy(i: nat)

  ghost predicate Distinct(pool: seq<PamAuth>) {
    forall i, j :: 0 <= i < j < |pool| ==> pool[i] != pool[j]
  }

  /** Live handles and objects with a non-null handle correspond one to one. */
  ghost predicate Bijection(s: State, owners: seq<Owner>) {
    && (forall i, j :: 0 <= i < j < |owners| && owners[i].handle != 0 ==> owners[i].handle != owners[j].handle)
    && (forall i :: 0 <= i < |owners| && owners[i].handle != 0 ==> owners[i].handle in s.live)
    && (forall h :: h in s.live ==> exists i :: 0 <= i < |owners| && owners[i].handle == h)
  }

  ghost predicate AllInOrder(s: State, owners: seq<Owner>) {
    && Numbered(s)
    && Bijection(s, owners)
    && (forall i :: 0 <= i < |owners| ==> InOrder(s, owners[i]))
  }

  ghost function Owners(pool: seq<PamAuth>): (owners: seq<Owner>)
    reads pool
    ensures |owners| == |pool|
    ensures forall i :: 0 <= i < |pool| ==> owners[i] == pool[i].AsOwner()
  {
    seq(|pool|, i requires 0 <= i < |pool| reads pool => pool[i].AsOwner())
  }

  ghost predicate Good(world: World, pool: seq<PamAuth>)
    reads world, pool
  {
    && world.Valid()
    && world.pamSafe
    && Distinct(pool)
    && (forall i :: 0 <= i < |pool| ==> pool[i].world == world)
    && AllInOrder(world.st, Owners(pool))
  }

  /** A call that changes at most one object's own handle leaves all objects in order. */
  lemma OneTouched(s: State, owners: seq<Owner>, t: State, now: seq<Owner>, i: nat)
    requires i < |owners| == |now|
    requires AllInOrder(s, owners)
    requires forall j :: 0 <= j < |owners| && j != i ==> now[j] == owners[j]
    requires Numbered(t) && InOrder(t, now[i])
    requires t.live - {now[i].handle} == s.live - {owners[i].handle}
    requires now[i].handle == 0 || now[i].handle == owners[i].handle || now[i].handle > s.started
    ensures AllInOrder(t, now)
  {
    forall j | 0 <= j < |now| && j != i
      ensures InOrder(t, now[j]) && (now[j].handle != 0 ==> now[j].handle != now[i].handle)
    {
      var h := now[j].handle;
      if h != 0 {
        assert h in s.live && h != owners[i].handle;
        assert h in s.live - {owners[i].handle};
        assert h in t.live - {now[i].handle};
        assert (t.live - {now[i].handle})[h] == (s.live - {owners[i].handle})[h];
      }
    }
    forall h | h in t.live ensures exists k :: 0 <= k < |now| && now[k].handle == h {
      if h != now[i].handle {
        assert h in t.live - {now[i].handle};
        assert h in s.live - {owners[i].handle};
        var k :| 0 <= k < |owners| && owners[k].handle == h;
        assert now[k].handle == h;
      }
    }
  }

  /** The calls of one object. */
  method Call(world: World, pool: seq<PamAuth>, i: nat, use: Use)
    requires i < |pool| && Good(world, pool)
    modifies world, pool
    ensures Good(world, pool)
  {
    hide World.Valid, Allowed, PamAllowed, Step;
    var p := pool[i];
    var ok := true;
    ghost var s, owners := world.st, Owners(pool);
    if use.Start? { ok := p.Start(use.user, use.service); }
    else if use.Authenticate? { ok := p.Authenticate(use.password); }
    else if use.CheckAccount? { ok := p.CheckAccount(); }
    else if use.EstablishCredentials? { ok := p.EstablishCredentials(); }
    else if use.DeleteCredentials? { ok := p.DeleteCredentials(); }
    else if use.OpenSession? { ok := p.OpenSession(); }
    else if use.CloseSession? { ok := p.CloseSession(); }
    else if use.SetEnv? { ok := p.SetEnv(use.name, use.value); }
    else if use.GetEnvironmentList? { var entries := p.GetEnvironmentList(); }
    else { p.End(); }
    OneTouched(s, owners, world.st, Owners(pool), i);
  }

  const NOTHING := Owner(0, false, false)

  lemma OneMore(s: State, owners: seq<Owner>)
    requires AllInOrder(s, owners)
    ensures AllInOrder(s, owners + [NOTHING])
  {
    var more := owners + [NOTHING];
    forall h | h in s.live ensures exists k :: 0 <= k < |more| && more[k].handle == h {
      var k :| 0 <= k < |owners| && owners[k].handle == h;
      assert more[k].handle == h;
    }
  }

  /** What `owners[from]` held is at `to` now, in the place of something that owned nothing. */
  lemma Moved(s: State, owners: seq<Owner>, from: nat, to: nat)
    requires AllInOrder(s, owners)
    requires from < |owners| && to < |owners| && from != to && owners[to].handle == 0
    ensures AllInOrder(s, owners[to := owners[from]][from := NOTHING])
  {
    var now := owners[to := owners[from]][from := NOTHING];
    forall h | h in s.live ensures exists k :: 0 <= k < |now| && now[k].handle == h {
      assert h != 0;
      var k :| 0 <= k < |owners| && owners[k].handle == h;
      assert now[if k == from then to else k].handle == h;
    }
  }

  /** The receiver's handle is ended and the giver's is taken over. */
  lemma MoveAssigned(s: State, owners: seq<Owner>, t: State, i: nat, j: nat)
    requires AllInOrder(s, owners) && i < |owners| && j < |owners| && i != j
    requires t == s.(live := s.live - {owners[i].handle})
    ensures AllInOrder(t, owners[i := owners[j]][j := NOTHING])
  {
    var ended := owners[i := NOTHING];
    OneTouched(s, owners, t, ended, i);
    Moved(t, ended, j, i);
    assert owners[i := owners[j]][j := NOTHING] == ended[i := ended[j]][j := NOTHING];
  }

  lemma PairInOrder(s: State, owners: seq<Owner>, i: nat, j: nat)
    requires AllInOrder(s, owners) && i < |owners| && j < |owners|
    ensures Numbered(s) && InOrder(s, owners[i]) && InOrder(s, owners[j])
    ensures i != j && owners[i].handle != 0 ==> owners[i].handle != owners[j].handle
  {
  }

  lemma OneLess(s: State, owners: seq<Owner>, i: nat)
    requires AllInOrder(s, owners) && i < |owners| && owners[i].handle == 0
    ensures AllInOrder(s, owners[..i] + owners[i + 1..])
  {
    var rest := owners[..i] + owners[i + 1..];
    forall h | h in s.live ensures exists k :: 0 <= k < |rest| && rest[k].handle == h {
      assert h != 0;
      var k :| 0 <= k < |owners| && owners[k].handle == h;
      assert rest[if k < i then k else k - 1] == owners[k];
    }
  }

  method EndOne(world: World, pool: seq<PamAuth>, i: nat)
    requires i < |pool| && Good(world, pool)
    modifies world, pool
    ensures Good(world, pool)
    ensures Owners(pool) == old(Owners(pool))[i := NOTHING]
    ensures world.st == old(world.st).(live := old(world.st.live) - {old(pool[i].handle)})
  {
    hide World.Valid, Allowed, PamAllowed, Step;
    ghost var s, owners := world.st, Owners(pool);
    pool[i].End();
    OneTouched(s, owners, world.st, Owners(pool), i);
  }

  /** Move assignment: the receiver's own handle is ended, then the other's is taken over. */
  method MoveOne(world: World, pool: seq<PamAuth>, i: nat, j: nat)
    requires i < |pool| && j < |pool| && Good(world, pool)
    modifies world, pool
    ensures Good(world, pool)
  {
    hide World.Valid, Allowed, PamAllowed, Step, AllInOrder, Numbered;
    ghost var s, owners := world.st, Owners(pool);
    PairInOrder(s, owners, i, j);
    if i == j {
      pool[i].MoveFrom(pool[j]);
      assert Owners(pool) == owners;
      return;
    }
    pool[i].MoveFrom(pool[j]);
    assert Owners(pool) == owners[i := owners[j]][j := NOTHING];
    MoveAssigned(s, owners, world.st, i, j);
  }

  method Construct(world: World, pool: seq<PamAuth>) returns (more: seq<PamAuth>)
    requires Good(world, pool)
    ensures Good(world, more)
    ensures |more| == |pool| + 1 && more[..|pool|] == pool && fresh(more[|pool|])
  {
    hide World.Valid;
    ghost var owners := Owners(pool);
    OneMore(world.st, owners);
    var p := new PamAuth(world);
    more := pool + [p];
    assert Owners(more) == owners + [NOTHING];
  }

  method MoveConstruct(world: World, pool: seq<PamAuth>, i: nat) returns (more: seq<PamAuth>)
    requires i < |pool| && Good(world, pool)
    modifies pool
    ensures Good(world, more)
    ensures |more| == |pool| + 1 && more[..|pool|] == pool && fresh(more[|pool|])
  {
    hide World.Valid;
    ghost var owners := Owners(pool);
    OneMore(world.st, owners);
    Moved(world.st, owners + [NOTHING], i, |owners|);
    assert pool[i].Valid();
    var p := new PamAuth.FromMove(pool[i]);
    more := pool + [p];
    assert Owners(more) == (owners + [NOTHING])[|owners| := owners[i]][i := NOTHING];
  }

  /** Destruction ends what the object owns and takes it out of the pool. */
  method Destroy(world: World, pool: seq<PamAuth>, i: nat) returns (rest: seq<PamAuth>)
    requires i < |pool| && Good(world, pool)
    modifies world, pool
    ensures Good(world, rest)
    ensures rest == pool[..i] + pool[i + 1..]
  {
    hide World.Valid, AllInOrder;
    EndOne(world, pool, i);
    rest := pool[..i] + pool[i + 1..];
    OneLess(world.st, Owners(pool), i);
    assert Owners(rest) == Owners(pool)[..i] + Owners(pool)[i + 1..];
  }

  /** One thing a client does; a use of an object that does not exist is none. */
  method Apply(world: World, pool: seq<PamAuth>, use: Use) returns (now: seq<PamAuth>)
    requires Good(world, pool)
    modifies world, pool
    ensures Good(world, now)
    ensures forall i :: 0 <= i < |now| ==> now[i] in pool || fresh(now[i])
    ensures if use.Construct? || (use.MoveConstruct? && use.i < |pool|)
            then |now| == |pool| + 1 && now[..|pool|] == pool
            else if use.Destroy? && use.i < |pool| then now == pool[..use.i] + pool[use.i + 1..]
            else now == pool
  {
    hide Good;
    now := pool;
    if use.Construct? {
      now := Construct(world, pool);
    } else if use.i < |pool| {
      if use.MoveConstruct? {
        now := MoveConstruct(world, pool, use.i);
      } else if use.Destroy? {
        now := Destroy(world, pool, use.i);
      } else if !use.MoveAssign? {
        Call(world, pool, use.i, use);
      } else if use.j < |pool| {
        MoveOne(world, pool, use.i, use.j);
      }
    }
  }

  /** Whatever a client does with its objects, PAM is used correctly; once every object is destroyed
      no handle is live. What that means for the calls, `Runs` says. */
  method UseAnyhow(world: World, pool: seq<PamAuth>, uses: seq<Use>)
    requires Good(world, pool)
    modifies world, pool
    ensures world.Valid() && world.pamSafe && world.st.live == map[]
    ensures PamSafe(world.log) && Replay(world.log).live == map[]
    decreases |uses|, |pool|
  {
    hide Good;
    if uses != [] {
      var now := Apply(world, pool, uses[0]);
      UseAnyhow(world, now, uses[1..]);
    } else if pool != [] {
      var rest := Destroy(world, pool, 0);
      UseAnyhow(world, rest, []);
    } else {
      assert pool == [];
      NothingOwned(world);
      world.FieldsTellTheTrace();
    }
  }

  lemma NothingOwned(world: World)
    ensures Good(world, []) <==> world.Valid() && world.pamSafe && world.st.live == map[]
  {
    assert Owners([]) == [];
    assert world.st.live == map[] <==> forall h :: h !in world.st.live;
    hide Allowed, PamAllowed, Step;
  }
}
