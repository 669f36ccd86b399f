/** The ends of the grace and idle windows, and the detached teardown tasks. */
module DispatcherWindows {
  import opened Common
  import opened Dispatcher
  import opened DispatcherInv
  import opened DispatcherMoves
  import opened DispatcherTeardown
  import opened DispatcherFinally
  import opened DispatcherDriver

  function Evicted(r: Resident): Resident {
    r.(inbox := [], life := Dead)
  }

  lemma EvictLeaves(st: State, rid: nat)
    requires rid in st.residents
    ensures var st' := BeginEvict(st, rid);
            && st'.residents == st.residents[rid := Evicted(st.residents[rid])]
            && st'.done == st.done && st'.accepted == st.accepted && st'.queue == st.queue
            && forall o :: ReapDead(o) in st'.bg <==> ReapDead(o) in st.bg
  {
  }

  lemma EvictFrame(st: State, st1: State, rid: nat, r1: Resident)
    requires rid in st.residents
    requires st1.residents == st.residents[rid := r1] && st1.done == st.done && st1.bg == st.bg
    ensures var st2 := BeginEvict(st1, rid);
            && st2.residents == st.residents[rid := Evicted(r1)] && st2.done == st.done
            && forall o :: ReapDead(o) in st2.bg <==> ReapDead(o) in st.bg
  {
    EvictLeaves(st1, rid);
    assert st1.residents[rid := Evicted(r1)] == st.residents[rid := Evicted(r1)];
  }

  /** An eviction by the driver itself, which then ends. */
  lemma EvictFinishes(c: Config, st: State, st1: State, l: Ledger, rid: nat, r1: Resident, alive: bool)
    returns (l': Ledger)
    requires Others(st, rid) && Core(c, st1, l) && rid in st.residents
    requires st1.residents == st.residents[rid := r1] && st1.done == st.done && st1.bg == st.bg
    requires CanFinish(Evicted(r1), st1.done)
    ensures Inv(c, EnterFinally(BeginEvict(st1, rid), rid, alive), l') && l'.hand == l.hand
  {
    l' := BeginEvictKeeps(c, st1, l, rid);
    EvictFrame(st, st1, rid, r1);
    l' := StepFinishes(c, st, BeginEvict(st1, rid), l', rid, Evicted(r1), alive);
  }

  // ----- the end of the grace window --------------------------------------------------------------

  function Unloaded(r: Resident, now: real): Resident {
    r.(active := None, lastActive := now)
  }

  lemma GraceShape(r: Resident, done: set<Req>, swept: bool, now: real)
    requires Quiet(r) && AtPc(r, done, swept) && r.pc == InGrace
    ensures r.life != Dead && r.slot.Some? && Just(r.slot) <= done
    ensures LetsGo(r, Unloaded(r, now), {}) && LetsGo(r, Idled(r, now), {})
    ensures CanFinish(Evicted(Unloaded(r, now)), done)
    ensures SameIdentity(r, Idled(r, now))
  {
  }

  lemma IdledShape(r: Resident, done: set<Req>, swept: bool, now: real)
    requires Quiet(r) && AtPc(r, done, swept) && r.pc == InGrace
    requires r.booting == None
    ensures r.inbox == [] ==> Quiet(Idled(r, now)) && AtPc(Idled(r, now), done, swept)
    ensures r.inbox != [] ==> TakeReady(Idled(r, now))
  {
  }

  lemma IdledCore(c: Config, st: State, l: Ledger, rid: nat, now: real) returns (l': Ledger)
    requires Core(c, st, l) && rid in st.residents && ReapDead(rid) !in st.bg
    requires LetsGo(st.residents[rid], Idled(st.residents[rid], now), {})
             && SameIdentity(st.residents[rid], Idled(st.residents[rid], now))
    ensures Core(c, With(st, rid, Idled(st.residents[rid], now)), l') && l'.hand == l.hand
  {
    l' := DriverReleases(c, st, l, rid, Idled(st.residents[rid], now), {}, st.done);
  }

  lemma UnloadedCore(c: Config, st: State, l: Ledger, rid: nat, now: real) returns (l': Ledger)
    requires Core(c, st, l) && rid in st.residents && ReapDead(rid) !in st.bg
    requires LetsGo(st.residents[rid], Unloaded(st.residents[rid], now), {})
    ensures Core(c, With(st, rid, Unloaded(st.residents[rid], now)), l') && l'.hand == l.hand
  {
    l' := DriverReleases(c, st, l, rid, Unloaded(st.residents[rid], now), {}, st.done);
  }

  lemma OneProcess(st: State, procs: map<nat, nat>, rid: nat)
    requires Processes(st, procs) && rid in st.residents && st.residents[rid].handle.Some?
    ensures st.residents[rid].booting == None
  {
  }

  /** What the end of a grace window finds, and what idling makes of it. */
  lemma GraceReady(st: State, procs: map<nat, nat>, rid: nat, now: real)
    requires Tasks(st) && Processes(st, procs) && At(st, rid, InGrace) && Shaped(st, rid)
    ensures var r := st.residents[rid];
            && LetsGo(r, Idled(r, now), {}) && SameIdentity(r, Idled(r, now))
            && ReapDead(rid) !in st.bg && Just(r.slot) <= st.done
            && (r.inbox == [] ==> Quiet(Idled(r, now)) && AtPc(Idled(r, now), st.done, true))
            && (r.inbox != [] ==> TakeReady(Idled(r, now)))
  {
    var r := st.residents[rid];
    NoReapYet(st, rid);
    GraceShape(r, st.done, true, now);
    OneProcess(st, procs, rid);
    IdledShape(r, st.done, true, now);
  }

  lemma GoIdleCore(c: Config, st: State, l: Ledger, rid: nat, now: real) returns (l': Ledger)
    requires Inv(c, st, l) && At(st, rid, InGrace)
    ensures var r := st.residents[rid];
            && Core(c, With(st, rid, Idled(r, now)), l') && l'.hand == l.hand
            && Others(st, rid) && ReapDead(rid) !in st.bg && Just(r.slot) <= st.done
            && (r.inbox == [] ==> Quiet(Idled(r, now)) && AtPc(Idled(r, now), st.done, true))
            && (r.inbox != [] ==> TakeReady(Idled(r, now)))
  {
    Unshape(c, st, l, rid);
    GraceReady(st, l.procs, rid, now);
    l' := IdledCore(c, st, l, rid, now);
  }

  lemma GoIdleTakes(c: Config, st: State, st1: State, l: Ledger, rid: nat, r1: Resident, now: real, alive: bool)
    returns (l': Ledger)
    requires Core(c, st1, l) && Others(st, rid) && ReapDead(rid) !in st.bg
    requires st1.residents == st.residents[rid := r1] && st1.done == st.done && st1.bg == st.bg
    requires TakeReady(r1) && Just(r1.slot) <= st1.done
    ensures Inv(c, TakeInbox(st1, rid, now, alive), l') && l'.hand == l.hand
  {
    OthersFrame(st, st1, rid, r1);
    l' := TakeInboxKeeps(c, st1, l, rid, now, alive);
  }

  lemma GoIdleKeeps(c: Config, st: State, l: Ledger, rid: nat, now: real, alive: bool) returns (l': Ledger)
    requires Inv(c, st, l) && At(st, rid, InGrace)
    ensures var r := st.residents[rid];
            var st1 := With(st, rid, Idled(r, now));
            Inv(c, if r.inbox != [] then TakeInbox(st1, rid, now, alive) else st1, l')
    ensures l'.hand == l.hand
  {
    var r := st.residents[rid];
    l' := GoIdleCore(c, st, l, rid, now);
    if r.inbox != [] {
      l' := GoIdleTakes(c, st, With(st, rid, Idled(r, now)), l', rid, Idled(r, now), now, alive);
    } else {
      StepEnds(c, st, With(st, rid, Idled(r, now)), l', rid, Idled(r, now));
    }
  }

  lemma SelfEvictKeeps(c: Config, st: State, l: Ledger, rid: nat, now: real, alive: bool) returns (l': Ledger)
    requires Inv(c, st, l) && At(st, rid, InGrace)
    ensures Inv(c, EnterFinally(BeginEvict(With(st, rid, Unloaded(st.residents[rid], now)), rid), rid, alive), l')
            && l'.hand == l.hand
  {
    Unshape(c, st, l, rid);
    var r := st.residents[rid];
    NoReapYet(st, rid);
    GraceShape(r, st.done, ReapDead(rid) !in st.bg, now);
    l' := UnloadedCore(c, st, l, rid, now);
    l' := EvictFinishes(c, st, With(st, rid, Unloaded(r, now)), l', rid, Unloaded(r, now), alive);
  }

  lemma GraceAlive(c: Config, st: State, l: Ledger, rid: nat)
    requires Inv(c, st, l) && At(st, rid, InGrace)
    ensures st.residents[rid].life != Dead
  {
    Unshape(c, st, l, rid);
    GraceShape(st.residents[rid], st.done, ReapDead(rid) !in st.bg, 0.0);
  }

  lemma GraceOverKeeps(c: Config, st: State, l: Ledger, rid: nat, keepWarm: bool, now: real, alive: bool)
    returns (l': Ledger)
    requires Inv(c, st, l) && At(st, rid, InGrace)
    ensures Inv(c, EndGrace(st, rid, keepWarm, now, alive), l') && l'.hand == l.hand
  {
    GraceAlive(c, st, l, rid);
    if keepWarm {
      l' := GoIdleKeeps(c, st, l, rid, now, alive);
    } else {
      l' := SelfEvictKeeps(c, st, l, rid, now, alive);
    }
  }

  // ----- the end of the idle window ---------------------------------------------------------------

  lemma ParkedShape(r: Resident, done: set<Req>, swept: bool)
    requires Quiet(r) && AtPc(r, done, swept) && r.pc == Parked
    ensures r.slot.Some?
    ensures r.life == IdleEvictable ==> CanFinish(Evicted(r), done)
    ensures r.inbox == [] && r.life != IdleEvictable ==> LoopReady(r, done)
  {
  }

  lemma ExpireKeeps(c: Config, st: State, l: Ledger, rid: nat, alive: bool) returns (l': Ledger)
    requires Inv(c, st, l) && At(st, rid, Parked) && st.residents[rid].life == IdleEvictable
    ensures Inv(c, EnterFinally(BeginEvict(st, rid), rid, alive), l') && l'.hand == l.hand
  {
    Unshape(c, st, l, rid);
    ParkedShape(st.residents[rid], st.done, ReapDead(rid) !in st.bg);
    Itself(st, rid);
    l' := EvictFinishes(c, st, st, l, rid, st.residents[rid], alive);
  }

  lemma RoundAgainKeeps(c: Config, st: State, l: Ledger, rid: nat, now: real, alive: bool) returns (l': Ledger)
    requires Inv(c, st, l) && At(st, rid, Parked) && st.residents[rid].inbox == []
             && st.residents[rid].life != IdleEvictable
    ensures st.residents[rid].slot.Some?
    ensures Inv(c, LoopHead(st, rid, st.residents[rid].slot.value, now, alive), l') && l'.hand == l.hand
  {
    Unshape(c, st, l, rid);
    NoReapYet(st, rid);
    ParkedShape(st.residents[rid], st.done, ReapDead(rid) !in st.bg);
    l' := LoopHeadKeeps(c, st, l, rid, st.residents[rid].slot.value, now, alive);
  }

  lemma ParkTimeoutKeeps(c: Config, st: State, l: Ledger, rid: nat, now: real, alive: bool) returns (l': Ledger)
    requires Inv(c, st, l) && At(st, rid, Parked)
    ensures Inv(c, EndPark(st, rid, now, alive), l') && l'.hand == l.hand
  {
    var r := st.residents[rid];
    if r.inbox != [] {
      l' := UnparkKeeps(c, st, l, rid, now, alive);
    } else if r.life == IdleEvictable {
      l' := ExpireKeeps(c, st, l, rid, alive);
    } else {
      l' := RoundAgainKeeps(c, st, l, rid, now, alive);
    }
  }

  // ----- the detached teardown --------------------------------------------------------------------

  lemma FinishInert(c: Config, st: State, l: Ledger, t: Task)
    requires Core(c, st, l) && Inert(t)
    ensures Core(c, Finish(st, t), l)
  {
    InertTasksKeep(c, st, l, st.bg - {t});
  }

  lemma TornDownShape(r: Resident, done: set<Req>, swept: bool)
    requires Quiet(r) && AtPc(r, done, swept) && r.life == Dead
    ensures Quiet(TornDown(r)) && AtPc(TornDown(r), done, swept)
  {
  }

  lemma TeardownDead(st: State, rid: nat)
    requires Tasks(st) && Teardown(rid) in st.bg
    ensures rid in st.residents && st.residents[rid].life == Dead
    ensures ReapDead(rid) in st.bg ==> st.residents[rid].pc == Done
  {
  }

  lemma ReclaimCore(c: Config, st: State, l: Ledger, rid: nat, alive: bool) returns (l': Ledger)
    requires Core(c, st, l) && Teardown(rid) in st.bg && rid in st.residents
    ensures var r := st.residents[rid];
            Core(c, With(Release(Finish(st, Teardown(rid)), r.handle, r.booting, alive), rid, TornDown(r)), l')
    ensures l'.hand == l.hand
  {
    var r := st.residents[rid];
    TeardownDead(st, rid);
    FinishInert(c, st, l, Teardown(rid));
    l' := ReleaseKeeps(c, Finish(st, Teardown(rid)), l, rid, TornDown(r), r.handle, r.booting, alive);
  }

  lemma TeardownFrame(st: State, rid: nat, alive: bool)
    requires rid in st.residents
    ensures var r := st.residents[rid];
            var st' := With(Release(Finish(st, Teardown(rid)), r.handle, r.booting, alive), rid, TornDown(r));
            && st'.residents == st.residents[rid := TornDown(r)] && st'.done == st.done
            && forall o :: ReapDead(o) in st'.bg <==> ReapDead(o) in st.bg
  {
    ReleaseFrame(Finish(st, Teardown(rid)), st.residents[rid].handle, st.residents[rid].booting, alive);
  }

  lemma ReclaimKeeps(c: Config, st: State, l: Ledger, rid: nat, alive: bool) returns (l': Ledger)
    requires Inv(c, st, l) && Teardown(rid) in st.bg && rid in st.residents
    ensures var r := st.residents[rid];
            Inv(c, With(Release(Finish(st, Teardown(rid)), r.handle, r.booting, alive), rid, TornDown(r)), l')
    ensures l'.hand == l.hand
  {
    Unshape(c, st, l, rid);
    var r := st.residents[rid];
    TeardownDead(st, rid);
    TornDownShape(r, st.done, ReapDead(rid) !in st.bg);
    TeardownFrame(st, rid, alive);
    l' := ReclaimCore(c, st, l, rid, alive);
    StepEnds(c, st, With(Release(Finish(st, Teardown(rid)), r.handle, r.booting, alive), rid, TornDown(r)), l', rid,
        TornDown(r));
  }

  lemma TeardownKeeps(c: Config, st: State, l: Ledger, rid: nat, alive: bool) returns (l': Ledger)
    requires Inv(c, st, l) && Teardown(rid) in st.bg && rid in st.residents
    ensures Inv(c, DoTeardown(st, rid, alive), l') && l'.hand == l.hand
  {
    if st.residents[rid].tornDown {
      FinishInert(c, st, l, Teardown(rid));
      AllKept(st, Finish(st, Teardown(rid)));
      l' := l;
    } else {
      l' := ReclaimKeeps(c, st, l, rid, alive);
    }
  }

  // ----- the death reaper -------------------------------------------------------------------------

  lemma ReapedShape(r: Resident, done: set<Req>)
    requires Quiet(r) && AtPc(r, done, false) && r.pc == Done
    ensures var done' := done + Just(r.active) + Elements(r.inflight);
            Quiet(Evicted(r)) && AtPc(Evicted(r), done', true)
  {
  }

  /** The reaper's sweep of the futures its driver abandoned. */
  function Swept(st: State, rid: nat): State
    requires rid in st.residents
  {
    var r := st.residents[rid];
    Finish(st, ReapDead(rid)).(done := st.done + Just(r.active) + Elements(r.inflight))
  }

  lemma SweptCore(c: Config, st: State, l: Ledger, rid: nat)
    requires Core(c, st, l) && rid in st.residents
    ensures Core(c, Swept(st, rid), l)
  {
    var r := st.residents[rid];
    DriverAccepted(c, st, l, rid);
    FinishInert(c, st, l, ReapDead(rid));
    var st1 := Finish(st, ReapDead(rid));
    ResolveKeepsCore(c, st1, l, Just(r.active));
    ResolveKeepsCore(c, ResolveOpt(st1, r.active), l, Elements(r.inflight));
  }

  lemma ReapedFrame(st: State, rid: nat)
    requires rid in st.residents
    ensures var st' := BeginEvict(Swept(st, rid), rid);
            && st'.residents == st.residents[rid := Evicted(st.residents[rid])]
            && st'.done == st.done + Just(st.residents[rid].active) + Elements(st.residents[rid].inflight)
            && ReapDead(rid) !in st'.bg
            && forall o :: o != rid ==> (ReapDead(o) in st'.bg <==> ReapDead(o) in st.bg)
  {
    EvictLeaves(Swept(st, rid), rid);
  }

  lemma ReapDeadKeeps(c: Config, st: State, l: Ledger, rid: nat) returns (l': Ledger)
    requires Inv(c, st, l) && ReapDead(rid) in st.bg && rid in st.residents
    ensures Inv(c, DoReapDead(st, rid), l') && l'.hand == l.hand
  {
    Unshape(c, st, l, rid);
    SweptCore(c, st, l, rid);
    l' := BeginEvictKeeps(c, Swept(st, rid), l, rid);
    ReapedFrame(st, rid);
    ReaperFinds(st, rid);
    ReapedShape(st.residents[rid], st.done);
    StepEnds(c, st, BeginEvict(Swept(st, rid), rid), l', rid, Evicted(st.residents[rid]));
  }

  lemma ReaperFinds(st: State, rid: nat)
    requires Tasks(st) && ReapDead(rid) in st.bg
    ensures rid in st.residents && st.residents[rid].pc == Done
  {
  }
}
