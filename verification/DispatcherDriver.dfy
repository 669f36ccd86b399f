/** The steps of a driver from its first instruction to its `finally`. */
module DispatcherDriver {
  import opened Common
  import opened Dispatcher
  import opened DispatcherInv
  import opened DispatcherMoves
  import opened DispatcherTeardown
  import opened DispatcherFinally

  lemma ShapedStep(st: State, st': State, rid: nat, r': Resident)
    requires Others(st, rid)
    requires st'.residents == st.residents[rid := r'] && st.done <= st'.done
    requires forall o :: o != rid ==> (ReapDead(o) in st'.bg <==> ReapDead(o) in st.bg)
    requires Quiet(r') && AtPc(r', st'.done, ReapDead(rid) !in st'.bg)
    ensures forall o <- st'.residents.Keys :: Shaped(st', o)
  {
    OthersKept(st, st', rid);
    assert st'.residents[rid] == r';
  }

  /** A step that ends at a proper suspension point. */
  lemma StepEnds(c: Config, st: State, st': State, l': Ledger, rid: nat, r': Resident)
    requires Others(st, rid) && Core(c, st', l')
    requires st'.residents == st.residents[rid := r'] && st.done <= st'.done
    requires forall o :: o != rid ==> (ReapDead(o) in st'.bg <==> ReapDead(o) in st.bg)
    requires Quiet(r') && AtPc(r', st'.done, ReapDead(rid) !in st'.bg)
    ensures Inv(c, st', l')
  {
    ShapedStep(st, st', rid, r');
  }

  /** A step that ends in the `finally`. */
  lemma StepFinishes(c: Config, st: State, st1: State, l: Ledger, rid: nat, r1: Resident, alive: bool)
    returns (l': Ledger)
    requires Others(st, rid) && Core(c, st1, l)
    requires st1.residents == st.residents[rid := r1] && st.done <= st1.done
    requires forall o :: o != rid ==> (ReapDead(o) in st1.bg <==> ReapDead(o) in st.bg)
    requires CanFinish(r1, st1.done)
    ensures Inv(c, EnterFinally(st1, rid, alive), l') && l'.hand == l.hand
  {
    OthersAround(st, st1, rid, r1);
    l' := EnterFinallyKeeps(c, st1, l, rid, alive);
  }

  // ----- starting and spawning ------------------------------------------------------------------

  lemma StartShape(r: Resident, done: set<Req>, swept: bool)
    requires Quiet(r) && AtPc(r, done, swept) && r.pc == NotStarted
    ensures r.inbox != [] && Quiet(Started(r)) && AtPc(Started(r), done, swept)
    ensures TakesInbox(r, Started(r), 1)
  {
  }

  lemma StartKeeps(c: Config, st: State, l: Ledger, rid: nat) returns (l': Ledger)
    requires Inv(c, st, l) && At(st, rid, NotStarted)
    ensures st.residents[rid].inbox != []
    ensures Inv(c, With(st, rid, Started(st.residents[rid])), l') && l'.hand == l.hand
  {
    Unshape(c, st, l, rid);
    var r := st.residents[rid];
    StartShape(r, st.done, ReapDead(rid) !in st.bg);
    l' := InboxToDriver(c, st, l, rid, Started(r), 1);
    StepEnds(c, st, With(st, rid, Started(r)), l', rid, Started(r));
  }

  lemma CancelUnstartedShape(r: Resident, done: set<Req>, swept: bool)
    requires Quiet(r) && AtPc(r, done, swept) && r.pc == NotStarted
    ensures CanRetire(r, done)
  {
  }

  /** A driver cancelled before its first instruction leaves its inbox to the reaper. */
  lemma CancelUnstartedKeeps(c: Config, st: State, l: Ledger, rid: nat) returns (l': Ledger)
    requires Inv(c, st, l) && At(st, rid, NotStarted)
    ensures Inv(c, Retire(st, rid), l') && l'.hand == l.hand
  {
    Unshape(c, st, l, rid);
    CancelUnstartedShape(st.residents[rid], st.done, ReapDead(rid) !in st.bg);
    l' := RetireKeeps(c, st, l, rid);
  }

  lemma ServedShape(r: Resident, done: set<Req>, swept: bool)
    requires Quiet(r) && AtPc(r, done, swept) && r.pc == Serving
    ensures r.slot.Some?
    ensures Quiet(r.(pc := InGrace)) && AtPc(r.(pc := InGrace), done + Just(r.slot), swept)
    ensures LetsGo(r, r.(pc := InGrace), {})
  {
  }

  lemma ServedKeeps(c: Config, st: State, l: Ledger, rid: nat) returns (l': Ledger)
    requires Inv(c, st, l) && At(st, rid, Serving)
    ensures Inv(c, With(ResolveOpt(st, st.residents[rid].slot), rid, st.residents[rid].(pc := InGrace)), l')
            && l'.hand == l.hand
  {
    Unshape(c, st, l, rid);
    var r := st.residents[rid];
    ServedShape(r, st.done, ReapDead(rid) !in st.bg);
    DriverAccepted(c, st, l, rid);
    l' := DriverReleases(c, st, l, rid, r.(pc := InGrace), {}, st.done + Just(r.slot));
    StepEnds(c, st, With(ResolveOpt(st, r.slot), rid, r.(pc := InGrace)), l', rid, r.(pc := InGrace));
  }

  lemma GateShape(r: Resident, done: set<Req>, swept: bool)
    requires Quiet(r) && AtPc(r, done, swept) && (r.pc == Gate || r.pc == ReapUnhealthy)
    ensures r.slot.Some? && forall done' :: CanFinish(r, done')
  {
  }

  lemma Itself(st: State, rid: nat)
    requires rid in st.residents
    ensures st.residents == st.residents[rid := st.residents[rid]]
  {
  }

  lemma GateRefusedKeeps(c: Config, st: State, l: Ledger, rid: nat, alive: bool) returns (l': Ledger)
    requires Inv(c, st, l) && At(st, rid, Gate)
    ensures Inv(c, EnterFinally(ResolveOpt(st, st.residents[rid].slot), rid, alive), l') && l'.hand == l.hand
  {
    Unshape(c, st, l, rid);
    var r := st.residents[rid];
    GateShape(r, st.done, ReapDead(rid) !in st.bg);
    DriverAccepted(c, st, l, rid);
    var st1 := ResolveOpt(st, r.slot);
    ResolveKeepsCore(c, st, l, Just(r.slot));
    Itself(st, rid);
    l' := StepFinishes(c, st, st1, l, rid, r, alive);
  }

  lemma UnhealthyReapedKeeps(c: Config, st: State, l: Ledger, rid: nat) returns (l': Ledger)
    requires Inv(c, st, l) && At(st, rid, ReapUnhealthy)
    ensures Inv(c, EnterFinally(st, rid, false), l') && l'.hand == l.hand
  {
    Unshape(c, st, l, rid);
    GateShape(st.residents[rid], st.done, ReapDead(rid) !in st.bg);
    l' := EnterFinallyKeeps(c, st, l, rid, false);
  }

  lemma ProcessJoins(st: State, st': State, procs: map<nat, nat>, rid: nat, pid: nat)
    requires Processes(st, procs) && rid in st.residents && rid in st'.residents && pid !in st.spawned
    requires var r, r' := st.residents[rid], st'.residents[rid];
             r.handle == None && r.booting == None && r'.handle == None && r'.booting == Some(pid)
    requires st'.residents == st.residents[rid := st'.residents[rid]]
    requires st'.spawned == st.spawned + {pid} && st'.reaps == st.reaps && st'.exited == st.exited
    ensures Processes(st', procs[pid := rid])
  {
    forall p, o
      ensures (o in st'.residents && Records(st'.residents[o], p)) <==>
              (p in procs[pid := rid] && procs[pid := rid][p] == o)
    {
      assert (o in st.residents && Records(st.residents[o], p)) <==> (p in procs && procs[p] == o);
    }
  }

  lemma BootingShape(r: Resident, done: set<Req>, swept: bool, pid: nat, width: nat)
    requires Quiet(r) && AtPc(r, done, swept) && r.pc == Gate
    ensures var r' := Booting(r, pid, width);
            && Quiet(r') && AtPc(r', done, swept)
            && SameIdentity(r, r') && SameHoldings(r, r') && r.handle == None && r.booting == None
  {
  }

  lemma SpawnedCore(c: Config, st: State, l: Ledger, rid: nat, pid: nat, r': Resident) returns (l': Ledger)
    requires Core(c, st, l) && rid in st.residents && pid !in st.spawned
    requires var r := st.residents[rid];
             && SameIdentity(r, r') && SameHoldings(r, r') && r.pc != Done
             && r.handle == None && r.booting == None && r'.handle == None && r'.booting == Some(pid)
    ensures Core(c, With(st, rid, r').(spawned := st.spawned + {pid}), l') && l'.hand == l.hand
  {
    var st' := With(st, rid, r').(spawned := st.spawned + {pid});
    ProcessJoins(st, st', l.procs, rid, pid);
    RegistryKept(c, st, st', rid);
    PlacedSame(st, st', l.home, l.hand, rid);
    TasksLocal(st, rid, r');
    l' := Ledger(l.home, l.procs[pid := rid], l.hand);
  }

  lemma SpawnedKeeps(c: Config, st: State, l: Ledger, rid: nat, pid: nat, width: nat) returns (l': Ledger)
    requires Inv(c, st, l) && At(st, rid, Gate) && pid !in st.spawned
    ensures Inv(c, With(st, rid, Booting(st.residents[rid], pid, width)).(spawned := st.spawned + {pid}), l')
            && l'.hand == l.hand
  {
    Unshape(c, st, l, rid);
    var r' := Booting(st.residents[rid], pid, width);
    BootingShape(st.residents[rid], st.done, ReapDead(rid) !in st.bg, pid, width);
    l' := SpawnedCore(c, st, l, rid, pid, r');
    StepEnds(c, st, With(st, rid, r').(spawned := st.spawned + {pid}), l', rid, r');
  }

  function Failed(r: Resident): Resident {
    r.(booting := None, pc := ReapUnhealthy)
  }

  lemma FailedShape(r: Resident, done: set<Req>, swept: bool)
    requires Quiet(r) && AtPc(r, done, swept) && r.pc == Health
    ensures var r' := Failed(r);
            && r.slot.Some? && Quiet(r') && AtPc(r', done + Just(r.slot), swept) && CanFinish(r', done + Just(r.slot))
            && SameIdentity(r, r') && SameHoldings(r, r') && r'.handle == None && r'.booting == None
                && SamePair(r, r.booting, None)
  {
  }

  lemma FailedCore(c: Config, st: State, l: Ledger, rid: nat, alive: bool) returns (l': Ledger)
    requires Inv(c, st, l) && At(st, rid, Health)
    ensures var r := st.residents[rid];
            Core(c, With(Release(ResolveOpt(st, r.slot), r.booting, None, alive), rid, Failed(r)), l')
    ensures l'.hand == l.hand
  {
    Unshape(c, st, l, rid);
    var r := st.residents[rid];
    FailedShape(r, st.done, ReapDead(rid) !in st.bg);
    DriverAccepted(c, st, l, rid);
    ResolveKeepsCore(c, st, l, Just(r.slot));
    l' := ReleaseKeeps(c, ResolveOpt(st, r.slot), l, rid, Failed(r), r.booting, None, alive);
  }

  lemma ReleaseFrame(st: State, handle: Option<nat>, booting: Option<nat>, alive: bool)
    ensures var st' := Release(st, handle, booting, alive);
            && st'.residents == st.residents && st'.done == st.done && st'.bg == st.bg && st'.queue == st.queue
            && st'.registry == st.registry && st'.stopped == st.stopped
  {
  }

  lemma FailedFrame(st: State, rid: nat, alive: bool)
    requires rid in st.residents
    ensures var r := st.residents[rid];
            var st1 := With(Release(ResolveOpt(st, r.slot), r.booting, None, alive), rid, Failed(r));
            && st1.residents == st.residents[rid := Failed(r)] && st1.done == st.done + Just(r.slot) && st1.bg == st.bg
  {
    ReleaseFrame(ResolveOpt(st, st.residents[rid].slot), st.residents[rid].booting, None, alive);
  }

  lemma UnhealthyKeeps(c: Config, st: State, l: Ledger, rid: nat, alive: bool) returns (l': Ledger)
    requires Inv(c, st, l) && At(st, rid, Health)
    ensures Inv(c, FailHealth(st, rid, alive), l') && l'.hand == l.hand
  {
    var r := st.residents[rid];
    l' := FailedCore(c, st, l, rid, alive);
    Unshape(c, st, l, rid);
    var st1 := With(Release(ResolveOpt(st, r.slot), r.booting, None, alive), rid, Failed(r));
    FailedFrame(st, rid, alive);
    FailedShape(r, st.done, ReapDead(rid) !in st.bg);
    if alive {
      StepEnds(c, st, st1, l', rid, Failed(r));
    } else {
      l' := StepFinishes(c, st, st1, l', rid, Failed(r), alive);
    }
  }

  // ----- the head of the loop -------------------------------------------------------------------

  /** A driver about to turn to the head of its loop. */
  ghost predicate LoopReady(r: Resident, done: set<Req>) {
    && r.slot.Some? && r.active == None && r.inflight == [] && r.pending == [] && r.pc != Done
    && OfModel(r) && r.booting == None
    && (r.life == Dead ==> r.inbox == [])
    && (r.tornDown ==> r.life == Dead && r.handle == None && r.slot.value in done)
    && (r.life != Dead ==> r.handle.Some?)
  }

  lemma AnchoredShape(r: Resident, s: Req, now: real, done: set<Req>, swept: bool)
    requires LoopReady(r, done) && r.life != Dead && r.slot == Some(s)
    ensures var r' := Anchored(r, s, now);
            Quiet(r') && AtPc(r', done, swept) && LetsGo(r, r', {}) && SameIdentity(r, r') && SameProcess(r, r')
  {
  }

  lemma LoopHeadKeeps(c: Config, st: State, l: Ledger, rid: nat, s: Req, now: real, alive: bool) returns (l': Ledger)
    requires Core(c, st, l) && Others(st, rid) && rid in st.residents && ReapDead(rid) !in st.bg
    requires LoopReady(st.residents[rid], st.done) && st.residents[rid].slot == Some(s)
    ensures Inv(c, LoopHead(st, rid, s, now, alive), l') && l'.hand == l.hand
  {
    if st.stopped || st.residents[rid].life == Dead {
      SlotKept(st, rid, s);
      LoopCanFinish(st.residents[rid], st.done);
      l' := EnterFinallyKeeps(c, st, l, rid, alive);
    } else {
      l' := LoopServesKeeps(c, st, l, rid, s, now);
    }
  }

  lemma SlotKept(st: State, rid: nat, s: Req)
    requires rid in st.residents && st.residents[rid].slot == Some(s)
    ensures With(st, rid, st.residents[rid].(slot := Some(s))) == st
  {
    assert st.residents[rid := st.residents[rid]] == st.residents;
  }

  lemma LoopCanFinish(r: Resident, done: set<Req>)
    requires LoopReady(r, done)
    ensures CanFinish(r, done)
  {
  }

  lemma LoopServesKeeps(c: Config, st: State, l: Ledger, rid: nat, s: Req, now: real) returns (l': Ledger)
    requires Core(c, st, l) && Others(st, rid) && rid in st.residents && ReapDead(rid) !in st.bg
    requires LoopReady(st.residents[rid], st.done) && st.residents[rid].slot == Some(s)
             && st.residents[rid].life != Dead
    ensures Inv(c, With(st, rid, Anchored(st.residents[rid], s, now)), l') && l'.hand == l.hand
  {
    var r := st.residents[rid];
    AnchoredShape(r, s, now, st.done, true);
    l' := DriverReleases(c, st, l, rid, Anchored(r, s, now), {}, st.done);
    StepEnds(c, st, With(st, rid, Anchored(r, s, now)), l', rid, Anchored(r, s, now));
  }

  lemma NoReapYet(st: State, rid: nat)
    requires Tasks(st) && rid in st.residents && st.residents[rid].pc != Done
    ensures ReapDead(rid) !in st.bg
  {
  }

  /** A step that goes on at the head of the loop. */
  lemma StepTurns(c: Config, st: State, st1: State, l: Ledger, rid: nat, r1: Resident, s: Req, now: real, alive: bool)
    returns (l': Ledger)
    requires Others(st, rid) && Core(c, st1, l)
    requires st1.residents == st.residents[rid := r1] && st1.done == st.done && st1.bg == st.bg
             && ReapDead(rid) !in st.bg
    requires LoopReady(r1, st1.done) && r1.slot == Some(s)
    ensures Inv(c, LoopHead(st1, rid, s, now, alive), l') && l'.hand == l.hand
  {
    OthersFrame(st, st1, rid, r1);
    l' := LoopHeadKeeps(c, st1, l, rid, s, now, alive);
  }

  function Published(r: Resident): Resident {
    r.(handle := r.booting, booting := None, life := Active)
  }

  lemma PublishedShape(r: Resident, done: set<Req>, swept: bool)
    requires Quiet(r) && AtPc(r, done, swept) && r.pc == Health
    ensures LoopReady(Published(r), done)
    ensures SameIdentity(r, Published(r)) && SameHoldings(r, Published(r))
            && SamePair(r, Published(r).handle, Published(r).booting)
  {
  }

  lemma ProcessesMoved(st: State, st': State, procs: map<nat, nat>, rid: nat)
    requires Processes(st, procs) && rid in st.residents && rid in st'.residents
    requires SamePair(st.residents[rid], st'.residents[rid].handle, st'.residents[rid].booting)
    requires st'.residents == st.residents[rid := st'.residents[rid]]
    requires st'.spawned == st.spawned && st'.reaps == st.reaps && st'.exited == st.exited
    ensures Processes(st', procs)
  {
    forall p, o
      ensures (o in st'.residents && Records(st'.residents[o], p)) <==> (p in procs && procs[p] == o)
    {
      assert (o in st.residents && Records(st.residents[o], p)) <==> (p in procs && procs[p] == o);
    }
  }

  lemma PublishedCore(c: Config, st: State, l: Ledger, rid: nat, r': Resident)
    requires Core(c, st, l) && rid in st.residents
    requires var r := st.residents[rid];
             SameIdentity(r, r') && SameHoldings(r, r') && SamePair(r, r'.handle, r'.booting) && r'.pc == r.pc
    ensures Core(c, With(st, rid, r'), l)
  {
    var st' := With(st, rid, r');
    ProcessesMoved(st, st', l.procs, rid);
    RegistryKept(c, st, st', rid);
    PlacedSame(st, st', l.home, l.hand, rid);
    TasksLocal(st, rid, r');
  }

  lemma PublishKeeps(c: Config, st: State, l: Ledger, rid: nat, now: real, alive: bool) returns (l': Ledger)
    requires Inv(c, st, l) && At(st, rid, Health)
    ensures Inv(c, Publish(st, rid, now, alive), l') && l'.hand == l.hand
  {
    Unshape(c, st, l, rid);
    var r := st.residents[rid];
    PublishedShape(r, st.done, ReapDead(rid) !in st.bg);
    NoReapYet(st, rid);
    PublishedCore(c, st, l, rid, Published(r));
    l' := StepTurns(c, st, With(st, rid, Published(r)), l, rid, Published(r), r.slot.value, now, alive);
  }

  // ----- taking the inbox head -----------------------------------------------------------------

  /** A driver that will take the head of its inbox as its next slot. */
  ghost predicate TakeReady(r: Resident) {
    && r.inbox != [] && r.active == None && r.inflight == [] && r.pending == [] && r.pc != Done
    && OfModel(r) && r.booting == None && r.life != Dead && !r.tornDown && r.handle.Some?
  }

  function Headed(r: Resident): Resident
    requires r.inbox != []
  {
    r.(slot := Some(r.inbox[0]), inbox := r.inbox[1..])
  }

  lemma HeadedShape(r: Resident, done: set<Req>)
    requires TakeReady(r)
    ensures var r1 := r.(slot := None);
            && LetsGo(r, r1, Just(r.slot)) && TakesInbox(r1, Headed(r), 1)
            && SameIdentity(r1, Headed(r)) && SameProcess(r1, Headed(r))
            && SameIdentity(r, r1) && SameProcess(r, r1)
    ensures LoopReady(Headed(r), done)
  {
  }

  lemma HeadedCore(c: Config, st: State, l: Ledger, rid: nat) returns (l': Ledger)
    requires Core(c, st, l) && rid in st.residents && ReapDead(rid) !in st.bg
    requires TakeReady(st.residents[rid]) && Just(st.residents[rid].slot) <= st.done
    ensures Core(c, With(st, rid, Headed(st.residents[rid])), l') && l'.hand == l.hand
  {
    var r := st.residents[rid];
    var r1 := r.(slot := None);
    HeadedShape(r, st.done);
    l' := DriverReleases(c, st, l, rid, r1, Just(r.slot), st.done);
    l' := InboxToDriver(c, With(st, rid, r1), l', rid, Headed(r), 1);
    WithTwice(st, rid, r1, Headed(r));
  }

  lemma TakeInboxKeeps(c: Config, st: State, l: Ledger, rid: nat, now: real, alive: bool) returns (l': Ledger)
    requires Core(c, st, l) && Others(st, rid) && rid in st.residents && ReapDead(rid) !in st.bg
    requires TakeReady(st.residents[rid]) && Just(st.residents[rid].slot) <= st.done
    ensures Inv(c, TakeInbox(st, rid, now, alive), l') && l'.hand == l.hand
  {
    var r := st.residents[rid];
    l' := HeadedCore(c, st, l, rid);
    HeadedShape(r, st.done);
    l' := StepTurns(c, st, With(st, rid, Headed(r)), l', rid, Headed(r), r.inbox[0], now, alive);
  }

  lemma UnparkShape(r: Resident, done: set<Req>, swept: bool)
    requires Quiet(r) && AtPc(r, done, swept) && r.pc == Parked && r.inbox != []
    ensures TakeReady(r) && Just(r.slot) <= done
  {
  }

  lemma UnparkKeeps(c: Config, st: State, l: Ledger, rid: nat, now: real, alive: bool) returns (l': Ledger)
    requires Inv(c, st, l) && At(st, rid, Parked) && st.residents[rid].inbox != []
    ensures Inv(c, TakeInbox(st, rid, now, alive), l') && l'.hand == l.hand
  {
    Unshape(c, st, l, rid);
    UnparkShape(st.residents[rid], st.done, ReapDead(rid) !in st.bg);
    NoReapYet(st, rid);
    l' := TakeInboxKeeps(c, st, l, rid, now, alive);
  }
}
