/** Evicting, dying, claiming a teardown and ending a driver. */
module DispatcherTeardown {
  import opened Common
  import opened Dispatcher
  import opened DispatcherInv
  import opened DispatcherMoves

  lemma WithTwice(st: State, rid: nat, a: Resident, b: Resident)
    ensures With(With(st, rid, a), rid, b) == With(st, rid, b)
  {
    assert st.residents[rid := a][rid := b] == st.residents[rid := b];
  }

  // ----- processes ------------------------------------------------------------------------

  /** The at most one process a resident records. */
  function Recorded(r: Resident): set<nat> {
    (if r.handle.Some? then {r.handle.value} else {}) + (if r.booting.Some? then {r.booting.value} else {})
  }

  lemma RecordsLeave(st: State, st': State, procs: map<nat, nat>, rid: nat)
    requires Processes(st, procs) && rid in st.residents && rid in st'.residents
    requires var r' := st'.residents[rid]; r'.handle == None && r'.booting == None
    requires st'.residents == st.residents[rid := st'.residents[rid]]
    ensures var procs' := procs - Recorded(st.residents[rid]);
            forall p, o :: (o in st'.residents && Records(st'.residents[o], p)) <==> (p in procs' && procs'[p] == o)
    ensures Recorded(st.residents[rid]) <= procs.Keys
  {
    var procs' := procs - Recorded(st.residents[rid]);
    forall p, o
      ensures (o in st'.residents && Records(st'.residents[o], p)) <==> (p in procs' && procs'[p] == o)
    {
      assert (o in st.residents && Records(st.residents[o], p)) <==> (p in procs && procs[p] == o);
      assert (rid in st.residents && Records(st.residents[rid], p)) <==> (p in procs && procs[p] == rid);
    }
    forall p <- Recorded(st.residents[rid])
      ensures p in procs && procs[p] == rid
    {
      assert Records(st.residents[rid], p);
    }
  }

  /** One recorded process moves to the reaped or the exited ones. */
  lemma ProcessLeaves(st: State, st': State, procs: map<nat, nat>, rid: nat)
    requires Processes(st, procs) && rid in st.residents && rid in st'.residents
    requires var r' := st'.residents[rid]; r'.handle == None && r'.booting == None
    requires st'.residents == st.residents[rid := st'.residents[rid]]
    requires st'.spawned == st.spawned
    requires var gone := Recorded(st.residents[rid]);
             || (st'.reaps == st.reaps + multiset(gone) && st'.exited == st.exited)
             || (st'.reaps == st.reaps && st'.exited == st.exited + gone)
    ensures Processes(st', procs - Recorded(st.residents[rid]))
  {
    RecordsLeave(st, st', procs, rid);
    CountsLeave(st, st', procs, Recorded(st.residents[rid]));
  }

  lemma CountsLeave(st: State, st': State, procs: map<nat, nat>, gone: set<nat>)
    requires forall p <- procs.Keys :: p in st.spawned && p !in st.reaps && p !in st.exited
    requires forall p <- st.spawned :: p in procs || p in st.reaps || p in st.exited
    requires forall p :: p in st.reaps ==> st.reaps[p] == 1 && p in st.spawned
    requires st.exited <= st.spawned && st'.spawned == st.spawned && gone <= procs.Keys
    requires forall p <- st.exited :: p !in st.reaps
    requires || (st'.reaps == st.reaps + multiset(gone) && st'.exited == st.exited)
             || (st'.reaps == st.reaps && st'.exited == st.exited + gone)
    ensures var procs' := procs - gone;
            && (forall p <- procs'.Keys :: p in st'.spawned && p !in st'.reaps && p !in st'.exited)
            && (forall p <- st'.spawned :: p in procs' || p in st'.reaps || p in st'.exited)
            && (forall p :: p in st'.reaps ==> st'.reaps[p] == 1 && p in st'.spawned)
            && st'.exited <= st'.spawned && (forall p <- st'.exited :: p !in st'.reaps)
  {
  }

  predicate SamePair(r: Resident, handle: Option<nat>, booting: Option<nat>) {
    (handle == r.handle && booting == r.booting) || (handle == r.booting && booting == r.handle)
  }

  lemma ReleaseEffect(st: State, r: Resident, handle: Option<nat>, booting: Option<nat>, alive: bool)
    requires (r.handle == None || r.booting == None) && SamePair(r, handle, booting)
    ensures var st' := Release(st, handle, booting, alive);
            && st' == st.(reaps := st'.reaps, exited := st'.exited)
            && ((st'.reaps == st.reaps + multiset(Recorded(r)) && st'.exited == st.exited)
                || (st'.reaps == st.reaps && st'.exited == st.exited + Recorded(r)))
  {
    var st' := Release(st, handle, booting, alive);
    if r.handle.None? && r.booting.None? {
      assert Recorded(r) == {};
    } else {
      var p := if r.handle.Some? then r.handle.value else r.booting.value;
      assert Recorded(r) == {p};
      assert multiset(Recorded(r)) == multiset{p};
    }
  }

  /** The teardown claim: what the resident records is handed to a reap, or found dead. */
  lemma ReleaseKeeps(c: Config, st: State, l: Ledger, rid: nat, r': Resident, handle: Option<nat>,
                     booting: Option<nat>, alive: bool)
    returns (l': Ledger)
    requires Core(c, st, l) && rid in st.residents
    requires var r := st.residents[rid];
             && SameIdentity(r, r') && r'.handle == None && r'.booting == None && SameHoldings(r, r')
             && SamePair(r, handle, booting)
             && (ReapDead(rid) in st.bg ==> r'.pc == Done)
    ensures Core(c, With(Release(st, handle, booting, alive), rid, r'), l')
    ensures l'.home == l.home && l'.hand == l.hand
  {
    var r := st.residents[rid];
    ReleaseEffect(st, r, handle, booting, alive);
    var st1 := Release(st, handle, booting, alive);
    l' := ReleasedKeeps(c, st, l, rid, r', st1.reaps, st1.exited);
  }

  lemma ReleasedKeeps(c: Config, st: State, l: Ledger, rid: nat, r': Resident, reaps: multiset<nat>, exited: set<nat>)
    returns (l': Ledger)
    requires Core(c, st, l) && rid in st.residents
    requires var r := st.residents[rid];
             && SameIdentity(r, r') && r'.handle == None && r'.booting == None && SameHoldings(r, r')
             && (ReapDead(rid) in st.bg ==> r'.pc == Done)
             && ((reaps == st.reaps + multiset(Recorded(r)) && exited == st.exited)
                 || (reaps == st.reaps && exited == st.exited + Recorded(r)))
    ensures Core(c, With(st.(reaps := reaps, exited := exited), rid, r'), l')
    ensures l'.home == l.home && l'.hand == l.hand
  {
    var st' := With(st.(reaps := reaps, exited := exited), rid, r');
    ProcessLeaves(st, st', l.procs, rid);
    RegistryKept(c, st, st', rid);
    PlacedSame(st, st', l.home, l.hand, rid);
    TasksLocal(st, rid, r');
    l' := Ledger(l.home, l.procs - Recorded(st.residents[rid]), l.hand);
  }

  // ----- leaving the registry ----------------------------------------------------------------

  lemma DieLinked(st: State, st': State, rid: nat)
    requires Linked(st) && rid in st.residents && st.residents[rid].life != Dead
    requires var r' := st.residents[rid].(life := Dead);
             st'.residents == st.residents[rid := r'] && st'.registry == st.registry - {r'.model}
    ensures Linked(st')
  {
    forall o <- st'.residents.Keys
      ensures st'.residents[o].life != Dead <==> IsRegistered(st', o)
    {
      assert st.residents[o].life != Dead <==> IsRegistered(st, o);
      assert IsRegistered(st, rid);
    }
  }

  lemma DieSpread(c: Config, st: State, st': State, rid: nat)
    requires Spread(c, st) && rid in st.residents
    requires var r' := st.residents[rid].(life := Dead);
             st'.residents == st.residents[rid := r'] && st'.registry == st.registry - {r'.model}
    ensures Spread(c, st')
  {
    forall a <- st'.registry.Keys, b <- st'.registry.Keys | a != b
      ensures Apart(st'.residents[st'.registry[a]], st'.residents[st'.registry[b]])
    {
      assert Apart(st.residents[st.registry[a]], st.residents[st.registry[b]]);
    }
  }

  lemma DieRegistry(c: Config, st: State, st': State, rid: nat)
    requires Registry(c, st) && rid in st.residents && st.residents[rid].life != Dead
    requires var r' := st.residents[rid].(life := Dead);
             st'.residents == st.residents[rid := r'] && st'.registry == st.registry - {r'.model}
    ensures Registry(c, st')
  {
    DieLinked(st, st', rid);
    DieSpread(c, st, st', rid);
    assert st'.registry.Keys == st.registry.Keys - {st.residents[rid].model};
    assert |st'.registry| == |st'.registry.Keys| <= |st.registry.Keys|;
  }

  function Died(r: Resident): Resident {
    r.(life := Dead)
  }

  lemma DieKeeps(c: Config, st: State, l: Ledger, rid: nat)
    requires Core(c, st, l) && rid in st.residents && st.residents[rid].life != Dead
    ensures IsRegistered(st, rid)
    ensures Core(c, With(Unregister(st, rid), rid, Died(st.residents[rid])), l)
  {
    var r := st.residents[rid];
    var st' := With(Unregister(st, rid), rid, Died(r));
    DieRegistry(c, st, st', rid);
    ProcessesKept(st, st', l.procs, rid);
    TasksLocal(st, rid, Died(r));
    PlacedSame(st, st', l.home, l.hand, rid);
  }

  // ----- background tasks -----------------------------------------------------------------------

  predicate Inert(t: Task) {
    t.Teardown? || t.ReapDead?
  }

  /** Tasks that carry no request come and go. */
  lemma InertTasksPlaced(st: State, home: map<Req, Place>, hand: set<Req>, bg': set<Task>)
    requires Placed(st, home, hand)
    requires forall t :: Inert(t) || (t in bg' <==> t in st.bg)
    ensures Placed(st.(bg := bg'), home, hand)
  {
    forall t, s
      ensures t in bg' && Carries(t, s) <==> HasAt(home, s, InTask(t))
    {
      assert t in st.bg && Carries(t, s) <==> HasAt(home, s, InTask(t));
    }
  }

  lemma InertTasksKeep(c: Config, st: State, l: Ledger, bg': set<Task>)
    requires Core(c, st, l)
    requires forall t :: Inert(t) || (t in bg' <==> t in st.bg)
    requires Tasks(st.(bg := bg'))
    ensures Core(c, st.(bg := bg'), l)
  {
    InertTasksPlaced(st, l.home, l.hand, bg');
    ProcessesSame(st, st.(bg := bg'), l.procs);
    RegistrySame(c, st, st.(bg := bg'));
  }

  // ----- draining an inbox --------------------------------------------------------------------

  lemma TasksGain(home: map<Req, Place>, bg: set<Task>, slots: seq<Req>)
    requires TasksAt(home, bg) && slots != [] && Distinct(slots)
    requires forall s <- slots :: s in home && !home[s].InTask?
    ensures TasksAt(Move(home, Elements(slots), InTask(Requeue(slots))), bg + {Requeue(slots)})
  {
    var h, b := Move(home, Elements(slots), InTask(Requeue(slots))), bg + {Requeue(slots)};
    assert Requeue(slots) !in bg by {
      var t, s := Requeue(slots), slots[0];
      assert Carries(t, s);
      assert t in bg && Carries(t, s) <==> HasAt(home, s, InTask(t));
    }
    forall t, s
      ensures t in b && Carries(t, s) <==> HasAt(h, s, InTask(t))
    {
      assert t in bg && Carries(t, s) <==> HasAt(home, s, InTask(t));
    }
  }

  lemma InboxAway(home: map<Req, Place>, rid: nat, r: Resident, r': Resident, p: Place)
    requires ResidentAt(home, rid, r) && !Owner(p, rid)
    requires r'.inbox == [] && r'.pending == r.pending && r'.inflight == r.inflight && r'.slot == r.slot
             && r'.active == r.active
    ensures ResidentAt(Move(home, Elements(r.inbox), p), rid, r')
    ensures forall s <- r.inbox :: HasAt(home, s, InInbox(rid))
  {
    assert forall s :: DriverHas(r', s) <==> DriverHas(r, s);
  }

  lemma DrainPlaced(st: State, home: map<Req, Place>, hand: set<Req>, rid: nat) returns (h: map<Req, Place>)
    requires Placed(st, home, hand) && rid in st.residents && st.residents[rid].inbox != []
    ensures var r := st.residents[rid];
            Placed(With(st, rid, r.(inbox := [])).(bg := st.bg + {Requeue(r.inbox)}), h, hand)
  {
    var r := st.residents[rid];
    var st' := With(st, rid, r.(inbox := [])).(bg := st.bg + {Requeue(r.inbox)});
    var ss, p := Elements(r.inbox), InTask(Requeue(r.inbox));
    assert ResidentAt(home, rid, r);
    InboxAway(home, rid, r, r.(inbox := []), p);
    forall s <- ss
      ensures HasAt(home, s, InInbox(rid))
    {
      assert s in r.inbox;
    }
    QueueKept(home, st.queue, ss, p);
    TasksGain(home, st.bg, r.inbox);
    PlacedAfter(st, st', home, hand, {rid}, ss, p);
    HandUntouched(st, home, hand, ss);
    h := Move(home, ss, p);
  }

  lemma DrainTasks(st: State, rid: nat)
    requires Tasks(st) && rid in st.residents
    ensures var r := st.residents[rid]; Tasks(With(st, rid, r.(inbox := [])).(bg := st.bg + {Requeue(r.inbox)}))
  {
  }

  lemma DrainKeeps(c: Config, st: State, l: Ledger, rid: nat) returns (l': Ledger)
    requires Core(c, st, l) && rid in st.residents && st.residents[rid].inbox != []
    ensures var r := st.residents[rid];
            Core(c, With(st, rid, r.(inbox := [])).(bg := st.bg + {Requeue(r.inbox)}), l')
    ensures l'.hand == l.hand
  {
    var r := st.residents[rid];
    var st' := With(st, rid, r.(inbox := [])).(bg := st.bg + {Requeue(r.inbox)});
    var h := DrainPlaced(st, l.home, l.hand, rid);
    RegistryKept(c, st, st', rid);
    ProcessesKept(st, st', l.procs, rid);
    DrainTasks(st, rid);
    l' := Ledger(h, l.procs, l.hand);
  }

  /** An eviction up to the point where the resident dies. */
  function Drained(st: State, rid: nat): State
    requires rid in st.residents
  {
    var r := st.residents[rid];
    With(st, rid, r.(inbox := [])).(bg := if r.inbox == [] then st.bg else st.bg + {Requeue(r.inbox)})
  }

  lemma DrainedNothing(st: State, rid: nat)
    requires rid in st.residents && st.residents[rid].inbox == []
    ensures Drained(st, rid) == st
  {
    assert st.residents[rid := st.residents[rid]] == st.residents;
  }

  lemma DrainedKeeps(c: Config, st: State, l: Ledger, rid: nat) returns (l': Ledger)
    requires Core(c, st, l) && rid in st.residents
    ensures Core(c, Drained(st, rid), l') && l'.hand == l.hand
  {
    var r := st.residents[rid];
    if r.inbox == [] {
      DrainedNothing(st, rid);
      l' := l;
    } else {
      l' := DrainKeeps(c, st, l, rid);
    }
  }

  lemma TeardownTask(c: Config, st: State, l: Ledger, rid: nat)
    requires Core(c, st, l) && rid in st.residents && st.residents[rid].life == Dead
    ensures Core(c, st.(bg := st.bg + {Teardown(rid)}), l)
  {
    InertTasksKeep(c, st, l, st.bg + {Teardown(rid)});
  }

  lemma DeathKeeps(c: Config, st: State, l: Ledger, rid: nat)
    requires Core(c, st, l) && rid in st.residents && st.residents[rid].life != Dead
    ensures Core(c, With(Unregister(st, rid), rid, Died(st.residents[rid])).(bg := st.bg + {Teardown(rid)}), l)
  {
    DieKeeps(c, st, l, rid);
    TeardownTask(c, With(Unregister(st, rid), rid, Died(st.residents[rid])), l, rid);
  }

  lemma EvictIs(st: State, rid: nat)
    requires rid in st.residents
    ensures var st1 := Drained(st, rid);
            if st.residents[rid].life == Dead then BeginEvict(st, rid) == st1
            else
              BeginEvict(st, rid)
              == With(Unregister(st1, rid), rid, Died(st1.residents[rid])).(bg := st1.bg + {Teardown(rid)})
  {
    var r := st.residents[rid];
    var st1 := Drained(st, rid);
    if r.life != Dead {
      assert IsRegistered(st1, rid) <==> IsRegistered(st, rid);
      assert st.residents[rid := r.(inbox := [])][rid := r.(inbox := [], life := Dead)]
          == st.residents[rid := r.(inbox := [], life := Dead)];
    }
  }

  lemma BeginEvictKeeps(c: Config, st: State, l: Ledger, rid: nat) returns (l': Ledger)
    requires Core(c, st, l) && rid in st.residents
    ensures Core(c, BeginEvict(st, rid), l') && l'.hand == l.hand
  {
    l' := DrainedKeeps(c, st, l, rid);
    EvictIs(st, rid);
    if st.residents[rid].life != Dead {
      DeathKeeps(c, Drained(st, rid), l', rid);
    }
  }
}
