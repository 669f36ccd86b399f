/** How often a request can be deferred: nothing but a submission brings a request back that
    nobody holds any more. */
module DispatcherDefers {
  import opened Common
  import opened Dispatcher
  import opened DispatcherInv
  import opened DispatcherSteps
  import DispatcherHistory
  import QueueSpec

  predicate Has(r: Resident, s: Req) {
    s in r.inbox || s in r.pending || DriverHas(r, s)
  }

  ghost predicate HeldByResident(st: State, s: Req) {
    exists rid <- st.residents.Keys :: Has(st.residents[rid], s)
  }

  ghost predicate HeldByTask(bg: set<Task>, s: Req) {
    exists t <- bg :: Carries(t, s)
  }

  /** Somebody holds `s`: the queue, a resident or a detached task. */
  ghost predicate Holds(st: State, s: Req) {
    s in QueueSpec.Contents(st.queue) || HeldByResident(st, s) || HeldByTask(st.bg, s)
  }

  /** Nobody holds a request that nobody held before. */
  ghost predicate NoneNew(st: State, st': State) {
    forall s :: Holds(st', s) ==> Holds(st, s)
  }

  lemma NoneNewTrans(a: State, b: State, d: State)
    requires NoneNew(a, b) && NoneNew(b, d)
    ensures NoneNew(a, d)
  {
  }

  /** What one resident, queue and tasks end up with, they had among them. */
  ghost predicate Exchange(st: State, st': State, r: Resident, r': Resident) {
    && (forall s <- QueueSpec.Contents(st'.queue) :: s in QueueSpec.Contents(st.queue) || Has(r, s))
    && (forall t <- st'.bg, s | Carries(t, s) :: t in st.bg || Has(r, s))
    && (forall s | Has(r', s) :: Has(r, s) || s in QueueSpec.Contents(st.queue))
  }

  lemma Exchanged(st: State, st': State, rid: nat, r': Resident)
    requires rid in st.residents && st'.residents == st.residents[rid := r'] && Exchange(st, st', st.residents[rid], r')
    ensures NoneNew(st, st')
  {
    forall s | Holds(st', s)
      ensures Holds(st, s)
    {
      if Has(st.residents[rid], s) {
        assert HeldByResident(st, s);
      } else if s in QueueSpec.Contents(st'.queue) {
      } else if HeldByResident(st', s) {
        var o :| o in st'.residents.Keys && Has(st'.residents[o], s);
        if o != rid {
          assert Has(st.residents[o], s) && o in st.residents.Keys;
        }
      } else {
        var t :| t in st'.bg && Carries(t, s);
        assert t in st.bg;
      }
    }
  }

  /** Only queue and tasks were involved. */
  lemma AsideExchanged(st: State, st': State)
    requires st'.residents == st.residents
    requires forall s <- QueueSpec.Contents(st'.queue) :: s in QueueSpec.Contents(st.queue) || HeldByTask(st.bg, s)
    requires forall t <- st'.bg, s | Carries(t, s) :: t in st.bg || s in QueueSpec.Contents(st.queue)
    ensures NoneNew(st, st')
  {
    forall s | Holds(st', s)
      ensures Holds(st, s)
    {
      if HeldByTask(st'.bg, s) && s !in QueueSpec.Contents(st.queue) {
        var t :| t in st'.bg && Carries(t, s);
        assert t in st.bg;
      }
    }
  }

  // ----- the critical sections ----------------------------------------------------------------

  lemma WithNone(st: State, rid: nat, r': Resident)
    requires rid in st.residents && forall s | Has(r', s) :: Has(st.residents[rid], s)
    ensures NoneNew(st, With(st, rid, r'))
  {
    Exchanged(st, With(st, rid, r'), rid, r');
  }

  lemma SideNone(st: State, st': State)
    requires st'.residents == st.residents && st'.queue == st.queue && st'.bg <= st.bg
    ensures NoneNew(st, st')
  {
    AsideExchanged(st, st');
  }

  lemma EvictNone(st: State, rid: nat)
    requires rid in st.residents
    ensures NoneNew(st, BeginEvict(st, rid))
  {
    var st' := BeginEvict(st, rid);
    Exchanged(st, st', rid, st'.residents[rid]);
  }

  lemma RetireNone(st: State, rid: nat)
    requires rid in st.residents
    ensures NoneNew(st, Retire(st, rid))
  {
    Exchanged(st, Retire(st, rid), rid, st.residents[rid].(pc := Done, slot := None));
  }

  lemma ReleaseFrameOf(st: State, handle: Option<nat>, booting: Option<nat>, alive: bool)
    ensures var st' := Release(st, handle, booting, alive);
            st'.residents == st.residents && st'.queue == st.queue && st'.bg == st.bg
  {
  }

  lemma FinallyNone(st: State, rid: nat, alive: bool)
    requires rid in st.residents
    ensures NoneNew(st, EnterFinally(st, rid, alive))
  {
    var r := st.residents[rid];
    if r.tornDown {
      RetireNone(st, rid);
    } else {
      ReleaseFrameOf(st, r.handle, r.booting, alive);
      Exchanged(st, EnterFinally(st, rid, alive), rid, Claimed(r, IsRegistered(st, rid)));
    }
  }

  lemma PushedMembers(q: QueueSpec.Queue, slots: seq<Req>)
    ensures forall s <- QueueSpec.Contents(QueueSpec.PushAll(q, slots)) :: s in QueueSpec.Contents(q) || s in slots
  {
    QueueSpec.PushAllReverses(q, slots);
    QueueSpec.ReversedMembers(slots);
  }

  lemma LeaveNone(st: State, rid: nat)
    requires rid in st.residents
    ensures NoneNew(st, LeaveFinally(st, rid))
  {
    var r := st.residents[rid];
    var r1 := r.(pending := []);
    var st1 := ResolveOpt(With(RequeueAll(st, r.pending), rid, r1), Unswept(r));
    PushedMembers(st.queue, r.pending);
    Exchanged(st, st1, rid, r1);
    RetireNone(st1, rid);
    NoneNewTrans(st, st1, Retire(st1, rid));
  }

  lemma LoopHeadNone(st: State, rid: nat, s: Req, now: real, alive: bool)
    requires rid in st.residents && Has(st.residents[rid], s)
    ensures NoneNew(st, LoopHead(st, rid, s, now, alive))
  {
    var r := st.residents[rid];
    if st.stopped || r.life == Dead {
      var st1 := With(st, rid, r.(slot := Some(s)));
      WithNone(st, rid, r.(slot := Some(s)));
      FinallyNone(st1, rid, alive);
      NoneNewTrans(st, st1, EnterFinally(st1, rid, alive));
    } else {
      WithNone(st, rid, Anchored(r, s, now));
    }
  }

  lemma TakeInboxNone(st: State, rid: nat, now: real, alive: bool)
    requires rid in st.residents && st.residents[rid].inbox != []
    ensures NoneNew(st, TakeInbox(st, rid, now, alive))
  {
    var r := st.residents[rid];
    var r1 := r.(slot := Some(r.inbox[0]), inbox := r.inbox[1..]);
    WithNone(st, rid, r1);
    LoopHeadNone(With(st, rid, r1), rid, r.inbox[0], now, alive);
    NoneNewTrans(st, With(st, rid, r1), TakeInbox(st, rid, now, alive));
  }

  // ----- the driver's actions -----------------------------------------------------------------

  lemma PublishNone(st: State, rid: nat, now: real, alive: bool)
    requires rid in st.residents
    ensures NoneNew(st, Publish(st, rid, now, alive))
  {
    var r := st.residents[rid];
    var r1 := r.(handle := r.booting, booting := None, life := Active);
    WithNone(st, rid, r1);
    if r.slot.Some? {
      LoopHeadNone(With(st, rid, r1), rid, r.slot.value, now, alive);
      NoneNewTrans(st, With(st, rid, r1), Publish(st, rid, now, alive));
    }
  }

  lemma FailHealthNone(st: State, rid: nat, alive: bool)
    requires rid in st.residents
    ensures NoneNew(st, FailHealth(st, rid, alive))
  {
    var r := st.residents[rid];
    var r1 := r.(booting := None, pc := ReapUnhealthy);
    var st1 := With(Release(ResolveOpt(st, r.slot), r.booting, None, alive), rid, r1);
    ReleaseFrameOf(ResolveOpt(st, r.slot), r.booting, None, alive);
    Exchanged(st, st1, rid, r1);
    if !alive {
      FinallyNone(st1, rid, alive);
      NoneNewTrans(st, st1, EnterFinally(st1, rid, alive));
    }
  }

  lemma GateRefusedNone(st: State, rid: nat, alive: bool)
    requires rid in st.residents
    ensures NoneNew(st, EnterFinally(ResolveOpt(st, st.residents[rid].slot), rid, alive))
  {
    var st1 := ResolveOpt(st, st.residents[rid].slot);
    SideNone(st, st1);
    FinallyNone(st1, rid, alive);
    NoneNewTrans(st, st1, EnterFinally(st1, rid, alive));
  }

  lemma AdmitMembers(r: Resident, gone: set<Req>)
    ensures forall s | Has(Admit(r, gone), s) :: Has(r, s)
  {
    var k := Taken(r.inbox, gone, Room(r));
    WithoutMembers(r.inbox[..k], gone);
  }

  lemma LaunchNone(st: State, rid: nat, gone: set<Req>)
    requires rid in st.residents
    ensures NoneNew(st, DoLaunch(st, rid, gone))
  {
    var r := st.residents[rid];
    if r.slot.Some? {
      AdmitMembers(Opened(r), gone);
      Exchanged(st, DoLaunch(st, rid, gone), rid, Admit(Opened(r), gone));
    }
  }

  lemma WakeNone(st: State, rid: nat, gone: set<Req>)
    requires rid in st.residents
    ensures NoneNew(st, DoWake(st, rid, gone))
  {
    var r := st.residents[rid];
    WithoutMembers(r.inflight, r.finished);
    AdmitMembers(Landed(r), gone);
    Exchanged(st, DoWake(st, rid, gone), rid, Settle(Admit(Landed(r), gone)));
  }

  lemma MatchNone(st: State, rid: nat)
    requires rid in st.residents
    ensures NoneNew(st, TakeMatch(st, rid))
  {
    var r := st.residents[rid];
    if r.slot.Some? {
      var (q, got) := QueueSpec.PopMatchedThread(st.queue, r.slot.value.thread, r.slot.value.model);
      if got.Some? {
        Exchanged(st, TakeMatch(st, rid), rid, r.(active := got, pc := MatchServing));
      }
    }
  }

  lemma EndGraceNone(st: State, rid: nat, keepWarm: bool, now: real, alive: bool)
    requires rid in st.residents
    ensures NoneNew(st, EndGrace(st, rid, keepWarm, now, alive))
  {
    var r := st.residents[rid];
    if r.life == Dead {
      FinallyNone(st, rid, alive);
    } else if !keepWarm {
      var st1 := With(st, rid, r.(active := None, lastActive := now));
      WithNone(st, rid, r.(active := None, lastActive := now));
      EvictedFinallyNone(st1, rid, alive);
      NoneNewTrans(st, st1, EnterFinally(BeginEvict(st1, rid), rid, alive));
    } else {
      WithNone(st, rid, Idled(r, now));
      if r.inbox != [] {
        TakeInboxNone(With(st, rid, Idled(r, now)), rid, now, alive);
        NoneNewTrans(st, With(st, rid, Idled(r, now)), EndGrace(st, rid, keepWarm, now, alive));
      }
    }
  }

  lemma EvictedFinallyNone(st: State, rid: nat, alive: bool)
    requires rid in st.residents
    ensures NoneNew(st, EnterFinally(BeginEvict(st, rid), rid, alive))
  {
    EvictNone(st, rid);
    FinallyNone(BeginEvict(st, rid), rid, alive);
    NoneNewTrans(st, BeginEvict(st, rid), EnterFinally(BeginEvict(st, rid), rid, alive));
  }

  lemma EndParkNone(st: State, rid: nat, now: real, alive: bool)
    requires rid in st.residents
    ensures NoneNew(st, EndPark(st, rid, now, alive))
  {
    var r := st.residents[rid];
    if r.life == IdleEvictable && r.inbox == [] {
      EvictedFinallyNone(st, rid, alive);
    } else if r.inbox != [] {
      TakeInboxNone(st, rid, now, alive);
    } else if r.slot.Some? {
      LoopHeadNone(st, rid, r.slot.value, now, alive);
    }
  }

  lemma UnwindNone(st: State, rid: nat, alive: bool)
    requires rid in st.residents
    ensures NoneNew(st, Unwind(st, rid, alive))
  {
    var r := st.residents[rid];
    var r1 := r.(inflight := [], finished := {});
    var st1 := With(ResolveAll(st, r.inflight), rid, r1);
    Exchanged(st, st1, rid, r1);
    FinallyNone(st1, rid, alive);
    NoneNewTrans(st, st1, EnterFinally(st1, rid, alive));
  }

  // ----- detached tasks -----------------------------------------------------------------------

  lemma TeardownNone(st: State, rid: nat, alive: bool)
    requires rid in st.residents
    ensures NoneNew(st, DoTeardown(st, rid, alive))
  {
    var r := st.residents[rid];
    var st1 := Finish(st, Teardown(rid));
    if r.tornDown {
      SideNone(st, st1);
    } else {
      ReleaseFrameOf(st1, r.handle, r.booting, alive);
      Exchanged(st, DoTeardown(st, rid, alive), rid, TornDown(r));
    }
  }

  lemma ReapDeadNone(st: State, rid: nat)
    requires rid in st.residents
    ensures NoneNew(st, DoReapDead(st, rid))
  {
    var r := st.residents[rid];
    var st1 := ResolveAll(ResolveOpt(Finish(st, ReapDead(rid)), r.active), r.inflight);
    SideNone(st, st1);
    EvictNone(st1, rid);
    NoneNewTrans(st, st1, BeginEvict(st1, rid));
  }

  lemma RequeueTaskNone(st: State, t: Task, slots: seq<Req>)
    requires t in st.bg && forall s <- slots :: Carries(t, s)
    ensures NoneNew(st, RequeueAll(Finish(st, t), slots))
  {
    PushedMembers(st.queue, slots);
    AsideExchanged(st, RequeueAll(Finish(st, t), slots));
  }

  // ----- the dispatcher -----------------------------------------------------------------------

  lemma PopNone(c: Config, st: State, hint: Option<string>, now: real)
    requires ValidConfig(c)
    ensures var (q, got) := QueueSpec.PopNext(c.queue, st.queue, hint, now);
            && NoneNew(st, st.(queue := q))
            && (got.Some? ==> got.value in QueueSpec.Contents(st.queue))
  {
    QueueSpec.PopTakesOne(c.queue, st.queue, hint, now);
    var (q, got) := QueueSpec.PopNext(c.queue, st.queue, hint, now);
    AsideExchanged(st, st.(queue := q));
  }

  /** Routing `s` gives it to somebody and brings back nobody else's. */
  ghost predicate OnlyNew(st: State, st': State, s: Req) {
    forall x :: Holds(st', x) ==> Holds(st, x) || x == s
  }

  lemma ReserveOnly(c: Config, st: State, s: Req, o: Oracle)
    requires o.rid !in st.residents
    ensures OnlyNew(st, Reserve(c, st, s, o), s)
  {
    var st' := Reserve(c, st, s, o);
    forall x | Holds(st', x) && x != s
      ensures Holds(st, x)
    {
      if HeldByResident(st', x) {
        var rid :| rid in st'.residents.Keys && Has(st'.residents[rid], x);
        assert rid in st.residents.Keys && Has(st.residents[rid], x);
      }
    }
  }

  lemma GivenOnly(st: State, rid: nat, s: Req, now: real)
    requires rid in st.residents
    ensures OnlyNew(st, With(st, rid, Given(st.residents[rid], s, now)), s)
  {
    var st' := With(st, rid, Given(st.residents[rid], s, now));
    forall x | Holds(st', x) && x != s
      ensures Holds(st, x)
    {
      if HeldByResident(st', x) {
        var o :| o in st'.residents.Keys && Has(st'.residents[o], x);
        assert o in st.residents.Keys && Has(st.residents[o], x);
      }
    }
  }

  lemma DeferOnly(st: State, s: Req)
    ensures OnlyNew(st, Defer(st, s), s)
  {
    var st' := Defer(st, s);
    forall x | Holds(st', x) && x != s
      ensures Holds(st, x)
    {
      if HeldByTask(st'.bg, x) {
        var t :| t in st'.bg && Carries(t, x);
        assert t in st.bg;
      }
      if HeldByResident(st', x) {
        assert HeldByResident(st, x);
      }
    }
  }

  lemma RouteOnly(c: Config, st: State, s: Req, o: Oracle)
    requires o.rid !in st.residents
    ensures OnlyNew(st, Route(c, st, s, o), s)
  {
    var live := LiveResident(st, s.model);
    if live.Some? {
      GivenOnly(st, live.value, s, o.now);
    } else if |LiveModels(st)| < c.cap {
      ReserveOnly(c, st, s, o);
    } else if Candidate(st, o.victim) {
      EvictNone(st, o.victim);
      ReserveOnly(c, BeginEvict(st, o.victim), s, o);
    } else {
      DeferOnly(st, s);
    }
  }

  lemma DispatchNone(c: Config, st: State, o: Oracle)
    requires ValidConfig(c) && o.rid !in st.residents
    ensures NoneNew(st, Dispatch(c, st, o))
  {
    PopNone(c, st, o.hint, o.now);
    var (q, got) := QueueSpec.PopNext(c.queue, st.queue, o.hint, o.now);
    var st1 := st.(queue := q);
    if got.Some? {
      if o.gone {
        SideNone(st1, Resolve(st1, got.value));
      } else {
        RouteOnly(c, st1, got.value, o);
      }
    }
  }

  // ----- every action -------------------------------------------------------------------------

  lemma StartNone(c: Config, st: State, a: Action)
    requires Enabled(c, st, a) && (a.Start? || a.CancelUnstarted? || a.GateRefused? || a.Spawned?)
    ensures NoneNew(st, Apply(c, st, a))
  {
    var r := st.residents[a.rid];
    if a.Start? {
      WithNone(st, a.rid, Started(r));
    } else if a.CancelUnstarted? {
      RetireNone(st, a.rid);
    } else if a.GateRefused? {
      GateRefusedNone(st, a.rid, a.alive);
    } else {
      Exchanged(st, Apply(c, st, a), a.rid, Booting(r, a.pid, a.width));
    }
  }

  lemma HealthNone(c: Config, st: State, a: Action)
    requires Enabled(c, st, a) && HealthAction(a)
    ensures NoneNew(st, Apply(c, st, a))
  {
    if a.Healthy? {
      PublishNone(st, a.rid, a.now, a.alive);
    } else if a.Unhealthy? {
      FailHealthNone(st, a.rid, a.alive);
    } else {
      FinallyNone(st, a.rid, false);
    }
  }

  lemma ServeNone(c: Config, st: State, a: Action)
    requires Enabled(c, st, a) && ServeAction(a)
    ensures NoneNew(st, Apply(c, st, a))
  {
    if a.Served? {
      Exchanged(st, Apply(c, st, a), a.rid, st.residents[a.rid].(pc := InGrace));
    } else if a.Match? {
      MatchNone(st, a.rid);
    } else {
      Exchanged(st, Apply(c, st, a), a.rid, Unmatched(st.residents[a.rid]));
    }
  }

  lemma FanOutNone(c: Config, st: State, a: Action)
    requires Enabled(c, st, a) && FanOutAction(a)
    ensures NoneNew(st, Apply(c, st, a))
  {
    if a.Launch? {
      LaunchNone(st, a.rid, a.gone);
    } else if a.RiderDone? {
      var r := st.residents[a.rid];
      Exchanged(st, Apply(c, st, a), a.rid, r.(finished := r.finished + {a.s}));
    } else {
      WakeNone(st, a.rid, a.gone);
    }
  }

  lemma WindowNone(c: Config, st: State, a: Action)
    requires Enabled(c, st, a) && (WindowAction(a) || ExitAction(a))
    ensures NoneNew(st, Apply(c, st, a))
  {
    if a.GraceOver? {
      EndGraceNone(st, a.rid, a.keepWarm, a.now, a.alive);
    } else if a.Unpark? {
      TakeInboxNone(st, a.rid, a.now, a.alive);
    } else if a.ParkTimeout? {
      EndParkNone(st, a.rid, a.now, a.alive);
    } else if a.Abort? {
      UnwindNone(st, a.rid, a.alive);
    } else {
      LeaveNone(st, a.rid);
    }
  }

  lemma TaskNone(c: Config, st: State, a: Action)
    requires Enabled(c, st, a) && (ReapAction(a) || ReturnAction(a))
    ensures NoneNew(st, Apply(c, st, a))
  {
    if a.RunTeardown? {
      TeardownNone(st, a.rid, a.alive);
    } else if a.RunReapDead? {
      ReapDeadNone(st, a.rid);
    } else if a.RunRequeue? {
      RequeueTaskNone(st, Requeue(a.slots), a.slots);
    } else if a.RunBackoff? {
      RequeueTaskNone(st, Backoff(a.s), [a.s]);
    } else {
      SideNone(st, Apply(c, st, a));
    }
  }

  lemma OutsideNone(c: Config, st: State, a: Action)
    requires ValidConfig(c) && Enabled(c, st, a) && (ShutdownAction(a) || a.ClientGone? || a.DispatchOne?)
    ensures NoneNew(st, Apply(c, st, a))
  {
    if a.DispatchOne? {
      DispatchNone(c, st, a.o);
    } else {
      AsideExchanged(st, Apply(c, st, a));
    }
  }

  lemma SubmitOnly(c: Config, st: State, s: Req, head: bool)
    ensures OnlyNew(st, DoSubmit(c, st, s, head), s)
  {
    var st' := DoSubmit(c, st, s, head);
    forall x | Holds(st', x) && x != s
      ensures Holds(st, x)
    {
      if HeldByResident(st', x) {
        assert HeldByResident(st, x);
      }
    }
  }

  /** Only a submission makes anybody hold what nobody held. */
  lemma StepNone(c: Config, st: State, a: Action)
    requires ValidConfig(c) && Enabled(c, st, a) && !a.Submit?
    ensures NoneNew(st, Apply(c, st, a))
  {
    if StartAction(a) {
      StartNone(c, st, a);
    } else if HealthAction(a) {
      HealthNone(c, st, a);
    } else if ServeAction(a) {
      ServeNone(c, st, a);
    } else if FanOutAction(a) {
      FanOutNone(c, st, a);
    } else if WindowAction(a) || ExitAction(a) {
      WindowNone(c, st, a);
    } else if ReapAction(a) || ReturnAction(a) {
      TaskNone(c, st, a);
    } else {
      OutsideNone(c, st, a);
    }
  }

  /** An accepted request that nobody holds stays so. */
  lemma StepForgets(c: Config, st: State, a: Action, s: Req)
    requires ValidConfig(c) && Enabled(c, st, a) && s in st.accepted && !Holds(st, s)
    ensures !Holds(Apply(c, st, a), s)
  {
    if a.Submit? {
      SubmitOnly(c, st, a.s, a.head);
    } else {
      StepNone(c, st, a);
    }
  }

  /** Along every run, an accepted request that has left every hand never comes back. */
  lemma {:induction false} LeavesForGood(c: Config, actions: seq<Action>, k: nat, s: Req)
    requires ValidConfig(c) && k <= |actions|
    requires s in Run(c, actions[..k]).accepted && !Holds(Run(c, actions[..k]), s)
    ensures !Holds(Run(c, actions), s)
    decreases |actions|
  {
    if k == |actions| {
      assert actions[..k] == actions;
    } else {
      var before := actions[..|actions| - 1];
      assert before[..k] == actions[..k];
      LeavesForGood(c, before, k, s);
      DispatcherHistory.RunsOnlyAge(c, before, k);
      if Enabled(c, Run(c, before), actions[|actions| - 1]) {
        StepForgets(c, Run(c, before), actions[|actions| - 1], s);
      }
    }
  }

  // ----- who counts deferrals, and who touches the queue ---------------------------------------

  /** Neither the deferrals nor the queue changed. */
  predicate Aside(st: State, st': State) {
    st'.defers == st.defers && st'.queue == st.queue
  }

  lemma EvictCounts(st: State, rid: nat)
    requires rid in st.residents
    ensures rid in BeginEvict(st, rid).residents && Aside(st, BeginEvict(st, rid))
  {
  }

  lemma FinallyCounts(st: State, rid: nat, alive: bool)
    requires rid in st.residents
    ensures Aside(st, EnterFinally(st, rid, alive))
  {
  }

  lemma LoopHeadCounts(st: State, rid: nat, s: Req, now: real, alive: bool)
    requires rid in st.residents
    ensures Aside(st, LoopHead(st, rid, s, now, alive))
  {
    FinallyCounts(With(st, rid, st.residents[rid].(slot := Some(s))), rid, alive);
  }

  lemma TakeInboxCounts(st: State, rid: nat, now: real, alive: bool)
    requires rid in st.residents && st.residents[rid].inbox != []
    ensures Aside(st, TakeInbox(st, rid, now, alive))
  {
    var r := st.residents[rid];
    LoopHeadCounts(With(st, rid, r.(slot := Some(r.inbox[0]), inbox := r.inbox[1..])), rid, r.inbox[0], now, alive);
  }

  lemma PublishCounts(st: State, rid: nat, now: real, alive: bool)
    requires rid in st.residents
    ensures Aside(st, Publish(st, rid, now, alive))
  {
    var r := st.residents[rid];
    if r.slot.Some? {
      var st1 := With(st, rid, r.(handle := r.booting, booting := None, life := Active));
      LoopHeadCounts(st1, rid, r.slot.value, now, alive);
    }
  }

  lemma FailHealthCounts(st: State, rid: nat, alive: bool)
    requires rid in st.residents
    ensures Aside(st, FailHealth(st, rid, alive))
  {
    var r := st.residents[rid];
    var st1 := With(Release(ResolveOpt(st, r.slot), r.booting, None, alive), rid,
        r.(booting := None, pc := ReapUnhealthy));
    FinallyCounts(st1, rid, alive);
  }

  lemma EvictFinallyCounts(st: State, rid: nat, alive: bool)
    requires rid in st.residents
    ensures Aside(st, EnterFinally(BeginEvict(st, rid), rid, alive))
  {
    EvictCounts(st, rid);
    FinallyCounts(BeginEvict(st, rid), rid, alive);
  }

  lemma EndGraceCounts(st: State, rid: nat, keepWarm: bool, now: real, alive: bool)
    requires rid in st.residents
    ensures Aside(st, EndGrace(st, rid, keepWarm, now, alive))
  {
    var r := st.residents[rid];
    if r.life == Dead {
      FinallyCounts(st, rid, alive);
    } else if !keepWarm {
      EvictFinallyCounts(With(st, rid, r.(active := None, lastActive := now)), rid, alive);
    } else if r.inbox != [] {
      TakeInboxCounts(With(st, rid, Idled(r, now)), rid, now, alive);
    }
  }

  lemma EndParkCounts(st: State, rid: nat, now: real, alive: bool)
    requires rid in st.residents
    ensures Aside(st, EndPark(st, rid, now, alive))
  {
    var r := st.residents[rid];
    if r.life == IdleEvictable && r.inbox == [] {
      EvictFinallyCounts(st, rid, alive);
    } else if r.inbox != [] {
      TakeInboxCounts(st, rid, now, alive);
    } else if r.slot.Some? {
      LoopHeadCounts(st, rid, r.slot.value, now, alive);
    }
  }

  lemma UnwindCounts(st: State, rid: nat, alive: bool)
    requires rid in st.residents
    ensures Aside(st, Unwind(st, rid, alive))
  {
    var r := st.residents[rid];
    FinallyCounts(With(ResolveAll(st, r.inflight), rid, r.(inflight := [], finished := {})), rid, alive);
  }

  lemma ReapDeadCounts(st: State, rid: nat)
    requires rid in st.residents
    ensures Aside(st, DoReapDead(st, rid))
  {
    var r := st.residents[rid];
    EvictCounts(ResolveAll(ResolveOpt(Finish(st, ReapDead(rid)), r.active), r.inflight), rid);
  }

  lemma EarlyCounts(c: Config, st: State, a: Action)
    requires Enabled(c, st, a) && (StartAction(a) || HealthAction(a))
    ensures Aside(st, Apply(c, st, a))
  {
    if a.GateRefused? {
      FinallyCounts(ResolveOpt(st, st.residents[a.rid].slot), a.rid, a.alive);
    } else if a.Healthy? {
      PublishCounts(st, a.rid, a.now, a.alive);
    } else if a.Unhealthy? {
      FailHealthCounts(st, a.rid, a.alive);
    } else if a.UnhealthyReaped? {
      FinallyCounts(st, a.rid, false);
    }
  }

  lemma ServingCounts(c: Config, st: State, a: Action)
    requires Enabled(c, st, a) && (ServeAction(a) || FanOutAction(a))
    ensures Apply(c, st, a).defers == st.defers && (!a.Match? ==> Apply(c, st, a).queue == st.queue)
  {
  }

  lemma WindowCounts(c: Config, st: State, a: Action)
    requires Enabled(c, st, a) && WindowAction(a)
    ensures Aside(st, Apply(c, st, a))
  {
    if a.GraceOver? {
      EndGraceCounts(st, a.rid, a.keepWarm, a.now, a.alive);
    } else if a.Unpark? {
      TakeInboxCounts(st, a.rid, a.now, a.alive);
    } else {
      EndParkCounts(st, a.rid, a.now, a.alive);
    }
  }

  lemma ExitCounts(c: Config, st: State, a: Action)
    requires Enabled(c, st, a) && ExitAction(a)
    ensures Apply(c, st, a).defers == st.defers && (!a.CleanupOver? ==> Apply(c, st, a).queue == st.queue)
  {
    if a.Abort? {
      UnwindCounts(st, a.rid, a.alive);
    } else {
      LeaveCounts(st, a.rid);
    }
  }

  lemma LeaveCounts(st: State, rid: nat)
    requires rid in st.residents
    ensures LeaveFinally(st, rid).defers == st.defers
  {
  }

  lemma ReapCounts(c: Config, st: State, a: Action)
    requires Enabled(c, st, a) && ReapAction(a)
    ensures Aside(st, Apply(c, st, a))
  {
    if a.RunReapDead? {
      ReapDeadCounts(st, a.rid);
    } else {
      TeardownCounts(st, a.rid, a.alive);
    }
  }

  lemma TeardownCounts(st: State, rid: nat, alive: bool)
    requires rid in st.residents
    ensures Aside(st, DoTeardown(st, rid, alive))
  {
    var r := st.residents[rid];
    ReleaseFrameOf(Finish(st, Teardown(rid)), r.handle, r.booting, alive);
  }

  lemma RestCounts(c: Config, st: State, a: Action)
    requires Enabled(c, st, a) && (ShutdownAction(a) || a.Submit? || a.ClientGone?)
    ensures Apply(c, st, a).defers == st.defers
  {
  }

  lemma ReturnCounts(c: Config, st: State, a: Action)
    requires Enabled(c, st, a) && ReturnAction(a)
    ensures Apply(c, st, a).defers == st.defers
  {
  }

  lemma DefersKept(c: Config, st: State, a: Action)
    requires Enabled(c, st, a) && !a.DispatchOne?
    ensures Apply(c, st, a).defers == st.defers
  {
    if StartAction(a) || HealthAction(a) {
      EarlyCounts(c, st, a);
    } else if ServeAction(a) || FanOutAction(a) {
      ServingCounts(c, st, a);
    } else if WindowAction(a) {
      WindowCounts(c, st, a);
    } else if ExitAction(a) {
      ExitCounts(c, st, a);
    } else if ReapAction(a) {
      ReapCounts(c, st, a);
    } else if ReturnAction(a) {
      ReturnCounts(c, st, a);
    } else {
      RestCounts(c, st, a);
    }
  }

  lemma RouteDefers(c: Config, st: State, s: Req, o: Oracle)
    ensures Route(c, st, s, o).defers == st.defers || Route(c, st, s, o) == Defer(st, s)
  {
    if Candidate(st, o.victim) {
      EvictCounts(st, o.victim);
    }
  }

  // ----- the deferral bound -------------------------------------------------------------------

  /** Nobody is deferred more often than the cap and once; who reached that is resolved and
      gone. */
  ghost predicate DefersBounded(st: State) {
    && st.defers.Keys <= st.accepted
    && forall s <- st.defers.Keys ::
         st.defers[s] <= MAX_DISPATCH_DEFERS + 1
         && (st.defers[s] > MAX_DISPATCH_DEFERS ==> s in st.done && !Holds(st, s))
  }

  /** A request just popped is in nobody's hands. */
  lemma PoppedIsFree(c: Config, st: State, l: Ledger, hint: Option<string>, now: real)
    requires ValidConfig(c) && Inv(c, st, l)
    ensures var (q, got) := QueueSpec.PopNext(c.queue, st.queue, hint, now);
            got.Some? ==> Holds(st, got.value) && got.value in st.accepted && !Holds(st.(queue := q), got.value)
  {
    var (q, got) := QueueSpec.PopNext(c.queue, st.queue, hint, now);
    QueueSpec.PopTakesOne(c.queue, st.queue, hint, now);
    if got.Some? {
      var s := got.value;
      assert HasAt(l.home, s, Queued);
      RemoveAtMembers(QueueSpec.Contents(st.queue), QueueSpec.PopIndex(c.queue, st.queue, hint, now));
      QueuedNotHeld(st, l.home, l.hand, s);
    }
  }

  lemma QueuedNotHeld(st: State, home: map<Req, Place>, hand: set<Req>, s: Req)
    requires Placed(st, home, hand) && HasAt(home, s, Queued)
    ensures !HeldByResident(st, s) && !HeldByTask(st.bg, s)
  {
    forall rid <- st.residents.Keys
      ensures !Has(st.residents[rid], s)
    {
      assert ResidentAt(home, rid, st.residents[rid]);
    }
    forall t <- st.bg
      ensures !Carries(t, s)
    {
      assert t in st.bg && Carries(t, s) <==> HasAt(home, s, InTask(t));
    }
  }

  lemma DeferBounds(st: State, st': State, s: Req)
    requires st' == Defer(st, s) && s in st.accepted && !Holds(st, s)
    requires s in st.defers ==> st.defers[s] <= MAX_DISPATCH_DEFERS
    ensures s in st'.defers && st'.defers == st.defers[s := st'.defers[s]]
    ensures st'.defers[s] <= MAX_DISPATCH_DEFERS + 1
    ensures st'.defers[s] > MAX_DISPATCH_DEFERS ==> s in st'.done && !Holds(st', s)
  {
    if st'.defers[s] > MAX_DISPATCH_DEFERS {
      SideNone(st, st');
    }
  }

  lemma BoundKept(st: State, st': State)
    requires DefersBounded(st) && st'.defers == st.defers && st.done <= st'.done && st.accepted <= st'.accepted
    requires forall s <- st.defers.Keys :: !Holds(st, s) ==> !Holds(st', s)
    ensures DefersBounded(st')
  {
  }

  lemma DispatchBounds(c: Config, st: State, l: Ledger, o: Oracle)
    requires ValidConfig(c) && Inv(c, st, l) && Enabled(c, st, DispatchOne(o)) && DefersBounded(st)
    ensures DefersBounded(Dispatch(c, st, o))
  {
    var st' := Dispatch(c, st, o);
    DispatchNone(c, st, o);
    DispatcherHistory.StepOlder(c, st, l, DispatchOne(o));
    PoppedIsFree(c, st, l, o.hint, o.now);
    var (q, got) := QueueSpec.PopNext(c.queue, st.queue, o.hint, o.now);
    var st1 := st.(queue := q);
    if got.Some? && !o.gone {
      RouteDefers(c, st1, got.value, o);
      if st'.defers != st.defers {
        DeferredBounded(st, st1, st', got.value);
        return;
      }
    }
    assert st'.defers == st.defers;
    BoundKept(st, st');
  }

  lemma DeferredBounded(st: State, st1: State, st': State, s: Req)
    requires DefersBounded(st) && st1 == st.(queue := st1.queue) && st' == Defer(st1, s) && NoneNew(st, st')
    requires Holds(st, s) && s in st.accepted && !Holds(st1, s) && st.done <= st'.done && st'.accepted == st.accepted
    ensures DefersBounded(st')
  {
    DeferBounds(st1, st', s);
  }

  lemma StepBounds(c: Config, st: State, l: Ledger, a: Action)
    requires ValidConfig(c) && Inv(c, st, l) && Enabled(c, st, a) && DefersBounded(st)
    ensures DefersBounded(Apply(c, st, a))
  {
    if a.DispatchOne? {
      DispatchBounds(c, st, l, a.o);
    } else {
      DefersKept(c, st, a);
      DispatcherHistory.StepOlder(c, st, l, a);
      forall s <- st.defers.Keys | !Holds(st, s)
        ensures !Holds(Apply(c, st, a), s)
      {
        StepForgets(c, st, a, s);
      }
      BoundKept(st, Apply(c, st, a));
    }
  }

  /** Over every run a request is deferred at most once more than the cap, and one that was is
      resolved and in nobody's hands. */
  lemma {:induction false} DeferralsBounded(c: Config, actions: seq<Action>)
    requires ValidConfig(c)
    ensures DefersBounded(Run(c, actions))
    decreases |actions|
  {
    if actions != [] {
      var before, a := actions[..|actions| - 1], actions[|actions| - 1];
      DeferralsBounded(c, before);
      var l := RunKeepsInv(c, before);
      if Enabled(c, Run(c, before), a) {
        StepBounds(c, Run(c, before), l, a);
      }
    }
  }
}
