/** What never goes back along a run, and who may touch a resident while it serves. */
module DispatcherHistory {
  import opened Common
  import opened Dispatcher
  import opened DispatcherInv
  import opened DispatcherMoves
  import opened DispatcherSteps
  import opened DispatcherSafety
  import QueueSpec

  /** A resident keeps its model, port and card; a claimed teardown stays claimed; death is
      final. */
  predicate Ages(r: Resident, r': Resident) {
    && r'.model == r.model && r'.port == r.port && r'.need == r.need && r'.gpu == r.gpu && r'.split == r.split
    && (r.tornDown ==> r'.tornDown)
    && (r.life == Dead ==> r'.life == Dead)
  }

  ghost predicate ResidentsAge(a: map<nat, Resident>, b: map<nat, Resident>) {
    forall rid <- a.Keys :: rid in b && Ages(a[rid], b[rid])
  }

  /** Nothing accepted, resolved, spawned or reaped is ever forgotten. */
  predicate CountsGrow(st: State, st': State) {
    && st.accepted <= st'.accepted && st.done <= st'.done && st.spawned <= st'.spawned
    && st.reaps <= st'.reaps && st.exited <= st'.exited
    && (st.stopped ==> st'.stopped) && (st.queue.closed ==> st'.queue.closed)
  }

  ghost predicate Older(st: State, st': State) {
    ResidentsAge(st.residents, st'.residents) && CountsGrow(st, st')
  }

  ghost predicate OthersUntouched(a: map<nat, Resident>, b: map<nat, Resident>, who: nat) {
    forall rid <- a.Keys :: rid != who ==> rid in b && b[rid] == a[rid]
  }

  /** A step that updates no existing resident but `who`. */
  ghost predicate Ahead(st: State, st': State, who: nat) {
    Older(st, st') && OthersUntouched(st.residents, st'.residents, who)
  }

  lemma OlderTrans(a: State, b: State, d: State)
    requires Older(a, b) && Older(b, d)
    ensures Older(a, d)
  {
    forall rid <- a.residents.Keys
      ensures rid in d.residents && Ages(a.residents[rid], d.residents[rid])
    {
      assert Ages(a.residents[rid], b.residents[rid]);
    }
  }

  lemma AheadTrans(a: State, b: State, d: State, who: nat)
    requires Ahead(a, b, who) && Ahead(b, d, who)
    ensures Ahead(a, d, who)
  {
    OlderTrans(a, b, d);
  }

  lemma WithAhead(st: State, rid: nat, r': Resident)
    requires rid in st.residents ==> Ages(st.residents[rid], r')
    ensures Ahead(st, With(st, rid, r'), rid)
  {
  }

  lemma SideAhead(st: State, st': State, who: nat)
    requires st'.residents == st.residents && CountsGrow(st, st')
    ensures Ahead(st, st', who)
  {
  }

  lemma RequeueAhead(st: State, slots: seq<Req>, who: nat)
    ensures Ahead(st, RequeueAll(st, slots), who)
  {
    QueueSpec.PushAllReverses(st.queue, slots);
  }

  lemma ReleaseAhead(st: State, handle: Option<nat>, booting: Option<nat>, alive: bool, who: nat)
    ensures Ahead(st, Release(st, handle, booting, alive), who)
    ensures Release(st, handle, booting, alive).residents == st.residents
  {
  }

  lemma EvictAhead(st: State, rid: nat)
    requires rid in st.residents
    ensures Ahead(st, BeginEvict(st, rid), rid)
    ensures rid in BeginEvict(st, rid).residents
  {
  }

  lemma RetireAhead(st: State, rid: nat)
    requires rid in st.residents
    ensures Ahead(st, Retire(st, rid), rid)
  {
  }

  lemma FinallyAhead(st: State, rid: nat, alive: bool)
    requires rid in st.residents
    ensures Ahead(st, EnterFinally(st, rid, alive), rid)
  {
    var r := st.residents[rid];
    if r.tornDown {
      RetireAhead(st, rid);
    } else {
      var st1 := Release(st, r.handle, r.booting, alive);
      ReleaseAhead(st, r.handle, r.booting, alive, rid);
      SideAhead(st1, Unregister(st1, rid), rid);
      WithAhead(Unregister(st1, rid), rid, Claimed(r, IsRegistered(st, rid)));
      AheadTrans(st, st1, Unregister(st1, rid), rid);
      AheadTrans(st, Unregister(st1, rid), EnterFinally(st, rid, alive), rid);
    }
  }

  lemma LeaveAhead(st: State, rid: nat)
    requires rid in st.residents
    ensures Ahead(st, LeaveFinally(st, rid), rid)
  {
    var r := st.residents[rid];
    var st1 := RequeueAll(st, r.pending);
    RequeueAhead(st, r.pending, rid);
    var st2 := With(st1, rid, r.(pending := []));
    WithAhead(st1, rid, r.(pending := []));
    var st3 := ResolveOpt(st2, Unswept(r));
    SideAhead(st2, st3, rid);
    RetireAhead(st3, rid);
    AheadTrans(st, st1, st2, rid);
    AheadTrans(st, st2, st3, rid);
    AheadTrans(st, st3, LeaveFinally(st, rid), rid);
  }

  lemma LoopHeadAhead(st: State, rid: nat, s: Req, now: real, alive: bool)
    requires rid in st.residents
    ensures Ahead(st, LoopHead(st, rid, s, now, alive), rid)
  {
    var r := st.residents[rid];
    if st.stopped || r.life == Dead {
      WithAhead(st, rid, r.(slot := Some(s)));
      FinallyAhead(With(st, rid, r.(slot := Some(s))), rid, alive);
      AheadTrans(st, With(st, rid, r.(slot := Some(s))), LoopHead(st, rid, s, now, alive), rid);
    } else {
      WithAhead(st, rid, Anchored(r, s, now));
    }
  }

  lemma TakeInboxAhead(st: State, rid: nat, now: real, alive: bool)
    requires rid in st.residents && st.residents[rid].inbox != []
    ensures Ahead(st, TakeInbox(st, rid, now, alive), rid)
  {
    var r := st.residents[rid];
    var r1 := r.(slot := Some(r.inbox[0]), inbox := r.inbox[1..]);
    WithAhead(st, rid, r1);
    LoopHeadAhead(With(st, rid, r1), rid, r.inbox[0], now, alive);
    AheadTrans(st, With(st, rid, r1), TakeInbox(st, rid, now, alive), rid);
  }

  lemma PublishAhead(st: State, rid: nat, now: real, alive: bool)
    requires rid in st.residents && st.residents[rid].life != Dead
    ensures Ahead(st, Publish(st, rid, now, alive), rid)
  {
    var r := st.residents[rid];
    var r1 := r.(handle := r.booting, booting := None, life := Active);
    WithAhead(st, rid, r1);
    if r.slot.Some? {
      LoopHeadAhead(With(st, rid, r1), rid, r.slot.value, now, alive);
      AheadTrans(st, With(st, rid, r1), Publish(st, rid, now, alive), rid);
    }
  }

  lemma FailHealthAhead(st: State, rid: nat, alive: bool)
    requires rid in st.residents
    ensures Ahead(st, FailHealth(st, rid, alive), rid)
  {
    var r := st.residents[rid];
    var st1 := Release(ResolveOpt(st, r.slot), r.booting, None, alive);
    SideAhead(st, st1, rid);
    var st2 := With(st1, rid, r.(booting := None, pc := ReapUnhealthy));
    WithAhead(st1, rid, r.(booting := None, pc := ReapUnhealthy));
    AheadTrans(st, st1, st2, rid);
    FinallyAhead(st2, rid, alive);
    if !alive {
      AheadTrans(st, st2, FailHealth(st, rid, alive), rid);
    }
  }

  lemma GraceAhead(st: State, rid: nat, keepWarm: bool, now: real, alive: bool)
    requires rid in st.residents
    ensures Ahead(st, EndGrace(st, rid, keepWarm, now, alive), rid)
  {
    var r := st.residents[rid];
    var st' := EndGrace(st, rid, keepWarm, now, alive);
    if r.life == Dead {
      FinallyAhead(st, rid, alive);
    } else if !keepWarm {
      var st1 := With(st, rid, r.(active := None, lastActive := now));
      WithAhead(st, rid, r.(active := None, lastActive := now));
      EvictAhead(st1, rid);
      FinallyAhead(BeginEvict(st1, rid), rid, alive);
      AheadTrans(st, st1, BeginEvict(st1, rid), rid);
      AheadTrans(st, BeginEvict(st1, rid), st', rid);
    } else {
      WithAhead(st, rid, Idled(r, now));
      if r.inbox != [] {
        TakeInboxAhead(With(st, rid, Idled(r, now)), rid, now, alive);
        AheadTrans(st, With(st, rid, Idled(r, now)), st', rid);
      }
    }
  }

  lemma ParkAhead(st: State, rid: nat, now: real, alive: bool)
    requires rid in st.residents
    ensures Ahead(st, EndPark(st, rid, now, alive), rid)
  {
    var r := st.residents[rid];
    if r.life == IdleEvictable && r.inbox == [] {
      EvictAhead(st, rid);
      FinallyAhead(BeginEvict(st, rid), rid, alive);
      AheadTrans(st, BeginEvict(st, rid), EndPark(st, rid, now, alive), rid);
    } else if r.inbox != [] {
      TakeInboxAhead(st, rid, now, alive);
    } else if r.slot.Some? {
      LoopHeadAhead(st, rid, r.slot.value, now, alive);
    }
  }

  lemma UnwindAhead(st: State, rid: nat, alive: bool)
    requires rid in st.residents
    ensures Ahead(st, Unwind(st, rid, alive), rid)
  {
    var r := st.residents[rid];
    var st1 := ResolveAll(st, r.inflight);
    SideAhead(st, st1, rid);
    WithAhead(st1, rid, r.(inflight := [], finished := {}));
    var st2 := With(st1, rid, r.(inflight := [], finished := {}));
    FinallyAhead(st2, rid, alive);
    AheadTrans(st, st1, st2, rid);
    AheadTrans(st, st2, Unwind(st, rid, alive), rid);
  }

  lemma TeardownAhead(st: State, rid: nat, alive: bool)
    requires rid in st.residents
    ensures Ahead(st, DoTeardown(st, rid, alive), rid)
  {
    var r := st.residents[rid];
    var st1 := Finish(st, Teardown(rid));
    SideAhead(st, st1, rid);
    if !r.tornDown {
      var st2 := Release(st1, r.handle, r.booting, alive);
      ReleaseAhead(st1, r.handle, r.booting, alive, rid);
      WithAhead(st2, rid, TornDown(r));
      AheadTrans(st, st1, st2, rid);
      AheadTrans(st, st2, DoTeardown(st, rid, alive), rid);
    }
  }

  lemma ReapDeadAhead(st: State, rid: nat)
    requires rid in st.residents
    ensures Ahead(st, DoReapDead(st, rid), rid)
  {
    var r := st.residents[rid];
    var st1 := ResolveAll(ResolveOpt(Finish(st, ReapDead(rid)), r.active), r.inflight);
    SideAhead(st, st1, rid);
    EvictAhead(st1, rid);
    AheadTrans(st, st1, DoReapDead(st, rid), rid);
  }

  lemma ReserveAhead(c: Config, st: State, s: Req, o: Oracle, rid: nat)
    requires o.rid !in st.residents
    ensures Ahead(st, Reserve(c, st, s, o), rid)
  {
    if o.footprint.None? || !VramAdmits(st, o.footprint.value, o.probe) {
      SideAhead(st, Resolve(st, s), rid);
    } else {
      WithAhead(st, o.rid, Fresh(s, AllocPort(c, st), o.footprint.value, o.now));
    }
  }

  /** The one existing resident routing may touch: the model's own, or the victim. */
  function Touched(st: State, s: Req, o: Oracle): nat {
    match LiveResident(st, s.model)
    case Some(rid) => rid
    case None => o.victim
  }

  lemma RouteAhead(c: Config, st: State, s: Req, o: Oracle)
    requires o.rid !in st.residents
    ensures Ahead(st, Route(c, st, s, o), Touched(st, s, o))
  {
    if LiveResident(st, s.model).Some? {
      var rid := LiveResident(st, s.model).value;
      WithAhead(st, rid, Given(st.residents[rid], s, o.now));
    } else if |LiveModels(st)| < c.cap {
      ReserveAhead(c, st, s, o, o.victim);
    } else if Candidate(st, o.victim) {
      EvictAhead(st, o.victim);
      ReserveAhead(c, BeginEvict(st, o.victim), s, o, o.victim);
      AheadTrans(st, BeginEvict(st, o.victim), Route(c, st, s, o), o.victim);
    } else {
      SideAhead(st, Defer(st, s), o.victim);
    }
  }

  lemma PopSameClosed(c: Config, q: QueueSpec.Queue, hint: Option<string>, now: real)
    requires ValidConfig(c)
    ensures QueueSpec.PopNext(c.queue, q, hint, now).0.closed == q.closed
  {
    QueueSpec.PopTakesOne(c.queue, q, hint, now);
  }

  lemma DispatchOlder(c: Config, st: State, o: Oracle)
    requires ValidConfig(c) && o.rid !in st.residents
    ensures Older(st, Dispatch(c, st, o))
  {
    PopSameClosed(c, st.queue, o.hint, o.now);
    var (q, got) := QueueSpec.PopNext(c.queue, st.queue, o.hint, o.now);
    SideAhead(st, st.(queue := q), 0);
    if got.Some? {
      if o.gone {
        SideAhead(st.(queue := q), Resolve(st.(queue := q), got.value), 0);
      } else {
        RouteAhead(c, st.(queue := q), got.value, o);
      }
      OlderTrans(st, st.(queue := q), Dispatch(c, st, o));
    }
  }

  lemma HealthAlive(c: Config, st: State, l: Ledger, rid: nat)
    requires Inv(c, st, l) && At(st, rid, Health)
    ensures st.residents[rid].life == ReservedLoading
  {
    Unshape(c, st, l, rid);
  }

  lemma OutsideAhead(c: Config, st: State, a: Action, who: nat)
    requires Enabled(c, st, a) && (a.Submit? || a.ClientGone? || a.CancelBackoff? || a.Stop? || a.CloseQueue?)
    ensures Ahead(st, Apply(c, st, a), who)
  {
    if a.Submit? || a.CloseQueue? {
      assert Apply(c, st, a).residents == st.residents;
    }
    SideAhead(st, Apply(c, st, a), who);
  }

  lemma RequeueStepAhead(c: Config, st: State, a: Action, who: nat)
    requires Enabled(c, st, a) && (a.RunRequeue? || a.RunBackoff?)
    ensures Ahead(st, Apply(c, st, a), who)
  {
    var st1 := Finish(st, if a.RunRequeue? then Requeue(a.slots) else Backoff(a.s));
    var slots := if a.RunRequeue? then a.slots else [a.s];
    SideAhead(st, st1, who);
    RequeueAhead(st1, slots, who);
    AheadTrans(st, st1, RequeueAll(st1, slots), who);
  }

  /** The driver actions that are one update of the resident. */
  predicate Simple(a: Action) {
    || a.Start? || a.CancelUnstarted? || a.Spawned? || a.Served? || a.Launch? || a.RiderDone? || a.Wake? || a.Match?
        || a.MatchDone?
  }

  lemma SpawnStepAhead(c: Config, st: State, a: Action)
    requires Enabled(c, st, a) && (a.Start? || a.CancelUnstarted? || a.Spawned? || a.Served?)
    ensures Ahead(st, Apply(c, st, a), a.rid)
  {
  }

  lemma LaunchAhead(st: State, rid: nat, gone: set<Req>)
    requires rid in st.residents
    ensures Ahead(st, DoLaunch(st, rid, gone), rid)
  {
  }

  lemma WakeAhead(st: State, rid: nat, gone: set<Req>)
    requires rid in st.residents
    ensures Ahead(st, DoWake(st, rid, gone), rid)
  {
  }

  lemma ServeStepAhead(c: Config, st: State, a: Action)
    requires Enabled(c, st, a) && (a.Launch? || a.RiderDone? || a.Wake?)
    ensures Ahead(st, Apply(c, st, a), a.rid)
  {
    if a.Launch? {
      LaunchAhead(st, a.rid, a.gone);
    } else if a.Wake? {
      WakeAhead(st, a.rid, a.gone);
    }
  }

  lemma TakeMatchAhead(st: State, rid: nat)
    requires rid in st.residents
    ensures Ahead(st, TakeMatch(st, rid), rid)
  {
  }

  lemma MatchStepAhead(c: Config, st: State, a: Action)
    requires Enabled(c, st, a) && (a.Match? || a.MatchDone?)
    ensures Ahead(st, Apply(c, st, a), a.rid)
  {
    if a.Match? {
      TakeMatchAhead(st, a.rid);
    }
  }

  lemma SimpleStepAhead(c: Config, st: State, a: Action)
    requires Enabled(c, st, a) && Simple(a)
    ensures Ahead(st, Apply(c, st, a), a.rid)
  {
    if a.Start? || a.CancelUnstarted? || a.Spawned? || a.Served? {
      SpawnStepAhead(c, st, a);
    } else if a.Launch? || a.RiderDone? || a.Wake? {
      ServeStepAhead(c, st, a);
    } else {
      MatchStepAhead(c, st, a);
    }
  }

  predicate Raising(a: Action) {
    a.GateRefused? || a.Healthy? || a.Unhealthy? || a.UnhealthyReaped?
  }

  predicate Ending(a: Action) {
    || a.GraceOver? || a.Unpark? || a.ParkTimeout? || a.Abort? || a.CleanupOver? || a.RunTeardown? || a.RunReapDead?
  }

  predicate Compound(a: Action) {
    Raising(a) || Ending(a)
  }

  lemma RaisingStepAhead(c: Config, st: State, l: Ledger, a: Action)
    requires Inv(c, st, l) && Enabled(c, st, a) && Raising(a)
    ensures Ahead(st, Apply(c, st, a), a.rid)
  {
    if a.GateRefused? {
      var st1 := ResolveOpt(st, st.residents[a.rid].slot);
      SideAhead(st, st1, a.rid);
      FinallyAhead(st1, a.rid, a.alive);
      AheadTrans(st, st1, EnterFinally(st1, a.rid, a.alive), a.rid);
    } else if a.Healthy? {
      HealthAlive(c, st, l, a.rid);
      PublishAhead(st, a.rid, a.now, a.alive);
    } else if a.Unhealthy? {
      FailHealthAhead(st, a.rid, a.alive);
    } else {
      FinallyAhead(st, a.rid, false);
    }
  }

  lemma EndingStepAhead(c: Config, st: State, a: Action)
    requires Enabled(c, st, a) && Ending(a)
    ensures Ahead(st, Apply(c, st, a), a.rid)
  {
    if a.GraceOver? {
      GraceAhead(st, a.rid, a.keepWarm, a.now, a.alive);
    } else if a.Unpark? {
      TakeInboxAhead(st, a.rid, a.now, a.alive);
    } else if a.ParkTimeout? {
      ParkAhead(st, a.rid, a.now, a.alive);
    } else if a.Abort? {
      UnwindAhead(st, a.rid, a.alive);
    } else if a.CleanupOver? {
      LeaveAhead(st, a.rid);
    } else if a.RunTeardown? {
      TeardownAhead(st, a.rid, a.alive);
    } else {
      ReapDeadAhead(st, a.rid);
    }
  }

  lemma CompoundStepAhead(c: Config, st: State, l: Ledger, a: Action)
    requires Inv(c, st, l) && Enabled(c, st, a) && Compound(a)
    ensures Ahead(st, Apply(c, st, a), a.rid)
  {
    if Raising(a) {
      RaisingStepAhead(c, st, l, a);
    } else {
      EndingStepAhead(c, st, a);
    }
  }

  /** The resident whose driver, teardown or reaper runs an action. */
  function Actor(a: Action): Option<nat> {
    match a
    case Submit(_, _) => None
    case ClientGone(_) => None
    case DispatchOne(_) => None
    case Start(rid) => Some(rid)
    case CancelUnstarted(rid) => Some(rid)
    case GateRefused(rid, _) => Some(rid)
    case Spawned(rid, _, _) => Some(rid)
    case Healthy(rid, _, _) => Some(rid)
    case Unhealthy(rid, _) => Some(rid)
    case UnhealthyReaped(rid) => Some(rid)
    case Served(rid) => Some(rid)
    case Launch(rid, _) => Some(rid)
    case RiderDone(rid, _) => Some(rid)
    case Wake(rid, _) => Some(rid)
    case Match(rid) => Some(rid)
    case MatchDone(rid) => Some(rid)
    case GraceOver(rid, _, _, _) => Some(rid)
    case Unpark(rid, _, _) => Some(rid)
    case ParkTimeout(rid, _, _) => Some(rid)
    case Abort(rid, _) => Some(rid)
    case CleanupOver(rid) => Some(rid)
    case RunTeardown(rid, _) => Some(rid)
    case RunReapDead(rid) => Some(rid)
    case RunRequeue(_) => None
    case RunBackoff(_) => None
    case CancelBackoff(_) => None
    case Stop => None
    case CloseQueue => None
  }

  lemma ActorStepAhead(c: Config, st: State, l: Ledger, a: Action)
    requires Inv(c, st, l) && Enabled(c, st, a) && Actor(a).Some?
    ensures Ahead(st, Apply(c, st, a), Actor(a).value)
  {
    if Simple(a) {
      SimpleStepAhead(c, st, a);
    } else {
      CompoundStepAhead(c, st, l, a);
    }
  }

  lemma NobodyStepAhead(c: Config, st: State, a: Action, who: nat)
    requires Enabled(c, st, a) && Actor(a) == None && !a.DispatchOne?
    ensures Ahead(st, Apply(c, st, a), who)
  {
    if a.RunRequeue? || a.RunBackoff? {
      RequeueStepAhead(c, st, a, who);
    } else {
      OutsideAhead(c, st, a, who);
    }
  }

  /** Every action but the dispatcher's own turn updates at most its actor. */
  lemma StepAhead(c: Config, st: State, l: Ledger, a: Action, who: nat)
    requires ValidConfig(c) && Inv(c, st, l) && Enabled(c, st, a) && !a.DispatchOne?
    requires Actor(a).Some? ==> who == Actor(a).value
    ensures Ahead(st, Apply(c, st, a), who)
  {
    if Actor(a).Some? {
      ActorStepAhead(c, st, l, a);
    } else {
      NobodyStepAhead(c, st, a, who);
    }
  }

  lemma StepOlderAlone(c: Config, st: State, l: Ledger, a: Action, who: nat)
    requires ValidConfig(c) && Inv(c, st, l) && Enabled(c, st, a) && !a.DispatchOne?
    requires Actor(a).Some? ==> who == Actor(a).value
    ensures Older(st, Apply(c, st, a))
  {
    StepAhead(c, st, l, a, who);
  }

  lemma StepOlder(c: Config, st: State, l: Ledger, a: Action)
    requires ValidConfig(c) && Inv(c, st, l) && Enabled(c, st, a)
    ensures Older(st, Apply(c, st, a))
  {
    if a.DispatchOne? {
      DispatchOlder(c, st, a.o);
    } else {
      StepOlderAlone(c, st, l, a, if Actor(a).Some? then Actor(a).value else 0);
    }
  }

  /** Along every run `torn_down` flips at most once, death is final, a resident never
      changes its model, port or card, and nothing accepted, resolved, spawned or reaped is
      forgotten. */
  lemma {:induction false} RunsOnlyAge(c: Config, actions: seq<Action>, k: nat)
    requires ValidConfig(c) && k <= |actions|
    ensures Older(Run(c, actions[..k]), Run(c, actions))
    decreases |actions|
  {
    if k == |actions| {
      assert actions[..k] == actions;
    } else {
      var before := actions[..|actions| - 1];
      assert before[..k] == actions[..k];
      RunsOnlyAge(c, before, k);
      var st, a := Run(c, before), actions[|actions| - 1];
      if Enabled(c, st, a) {
        var l := RunKeepsInv(c, before);
        StepOlder(c, st, l, a);
        OlderTrans(Run(c, actions[..k]), st, Apply(c, st, a));
      }
    }
  }

  /** How often the future of `s` went from unresolved to resolved in a run. */
  ghost function Resolutions(c: Config, actions: seq<Action>, s: Req): nat {
    if actions == [] then 0
    else
      var before := actions[..|actions| - 1];
      Resolutions(c, before, s) + if s !in Run(c, before).done && s in Run(c, actions).done then 1 else 0
  }

  /** No future is resolved twice: along every run it is resolved once if it is resolved in
      the end, and never otherwise. */
  lemma {:induction false} ResolvedOnceExactly(c: Config, actions: seq<Action>, s: Req)
    requires ValidConfig(c)
    ensures Resolutions(c, actions, s) == if s in Run(c, actions).done then 1 else 0
    decreases |actions|
  {
    if actions != [] {
      var before := actions[..|actions| - 1];
      ResolvedOnceExactly(c, before, s);
      RunsOnlyAge(c, actions, |before|);
    }
  }

  // ----- nobody disturbs a serving driver ---------------------------------------------------------

  /** Somebody put requests in the inbox; nothing else happened. */
  predicate OnlyInboxGrew(r: Resident, r': Resident) {
    r' == r.(inbox := r'.inbox, lastActive := r'.lastActive) && r.inbox <= r'.inbox
  }

  /** The actions of `rid`'s own driver. */
  predicate OwnAction(a: Action, rid: nat) {
    Actor(a) == Some(rid) && !a.RunTeardown? && !a.RunReapDead?
  }

  lemma RouteSpares(c: Config, st: State, s: Req, o: Oracle, rid: nat)
    requires rid in st.residents && o.rid !in st.residents && st.residents[rid].life == Active
    ensures rid in Route(c, st, s, o).residents && OnlyInboxGrew(st.residents[rid], Route(c, st, s, o).residents[rid])
  {
    RouteAhead(c, st, s, o);
    if rid == Touched(st, s, o) && LiveResident(st, s.model).None? {
      assert !Candidate(st, rid);
    }
  }

  lemma DispatchSpares(c: Config, st: State, o: Oracle, rid: nat)
    requires rid in st.residents && o.rid !in st.residents && st.residents[rid].life == Active
    ensures rid in Dispatch(c, st, o).residents && OnlyInboxGrew(st.residents[rid], Dispatch(c, st, o).residents[rid])
  {
    var (q, got) := QueueSpec.PopNext(c.queue, st.queue, o.hint, o.now);
    if got.Some? && !o.gone {
      RouteSpares(c, st.(queue := q), got.value, o, rid);
    }
  }

  lemma OthersSpare(c: Config, st: State, l: Ledger, a: Action, rid: nat)
    requires ValidConfig(c) && Inv(c, st, l) && Enabled(c, st, a) && !a.DispatchOne?
    requires rid in st.residents && Actor(a) != Some(rid)
    ensures rid in Apply(c, st, a).residents && Apply(c, st, a).residents[rid] == st.residents[rid]
  {
    StepAhead(c, st, l, a, if Actor(a).Some? then Actor(a).value else rid + 1);
  }

  lemma BusyTasks(c: Config, st: State, l: Ledger, rid: nat)
    requires Inv(c, st, l) && rid in st.residents && Busy(st.residents[rid].pc)
    ensures st.residents[rid].life == Active && Teardown(rid) !in st.bg && ReapDead(rid) !in st.bg
  {
    BusyFacts(c, st, l, rid);
    BusyHasNoTasks(st, rid);
  }

  lemma OthersAct(c: Config, st: State, a: Action, rid: nat)
    requires Enabled(c, st, a) && !OwnAction(a, rid) && Teardown(rid) !in st.bg && ReapDead(rid) !in st.bg
    ensures Actor(a) != Some(rid)
  {
  }

  lemma BusySpared(c: Config, st: State, l: Ledger, o: Oracle, rid: nat)
    requires Inv(c, st, l) && o.rid !in st.residents && rid in st.residents && Busy(st.residents[rid].pc)
    ensures rid in Dispatch(c, st, o).residents && OnlyInboxGrew(st.residents[rid], Dispatch(c, st, o).residents[rid])
  {
    BusyTasks(c, st, l, rid);
    DispatchSpares(c, st, o, rid);
  }

  lemma BusyUndisturbed(c: Config, st: State, l: Ledger, a: Action, rid: nat)
    requires ValidConfig(c) && Inv(c, st, l) && Enabled(c, st, a)
    requires rid in st.residents && Busy(st.residents[rid].pc) && !OwnAction(a, rid)
    ensures rid in Apply(c, st, a).residents && OnlyInboxGrew(st.residents[rid], Apply(c, st, a).residents[rid])
  {
    if a.DispatchOne? {
      BusySpared(c, st, l, a.o, rid);
    } else {
      BusyTasks(c, st, l, rid);
      OthersAct(c, st, a, rid);
      OthersSpare(c, st, l, a, rid);
    }
  }

  lemma BusyHasNoTasks(st: State, rid: nat)
    requires Tasks(st) && rid in st.residents && st.residents[rid].life != Dead && st.residents[rid].pc != Done
    ensures Teardown(rid) !in st.bg && ReapDead(rid) !in st.bg
  {
  }

  /** While a resident serves, no action of anybody else — dispatcher, eviction, another
      driver, a detached teardown, the reaper — changes anything of it but its inbox, which
      can only grow: no run tears down a sidecar mid-serve through eviction. */
  lemma ServingUndisturbed(c: Config, actions: seq<Action>, a: Action, rid: nat)
    requires ValidConfig(c) && Enabled(c, Run(c, actions), a)
    requires rid in Run(c, actions).residents && Busy(Run(c, actions).residents[rid].pc) && !OwnAction(a, rid)
    ensures var st, st' := Run(c, actions), Apply(c, Run(c, actions), a);
            rid in st'.residents && OnlyInboxGrew(st.residents[rid], st'.residents[rid])
  {
    var l := RunKeepsInv(c, actions);
    BusyUndisturbed(c, Run(c, actions), l, a, rid);
  }

  lemma DeadStaysDead(st: State, st': State, rid: nat)
    requires Older(st, st') && rid in st.residents && st.residents[rid].life == Dead
    ensures rid in st'.residents && st'.residents[rid].life == Dead
  {
    assert Ages(st.residents[rid], st'.residents[rid]);
  }

  /** Once a resident has gone DEAD its driver never serves again, and nobody hands it any
      more work: it stays out of the registry with an empty inbox. */
  lemma DeadNeverServes(c: Config, actions: seq<Action>, k: nat, rid: nat)
    requires ValidConfig(c) && k <= |actions|
    requires var st := Run(c, actions[..k]); rid in st.residents && st.residents[rid].life == Dead
    ensures var st := Run(c, actions);
            rid in st.residents && !Busy(st.residents[rid].pc) && !IsRegistered(st, rid)
                && st.residents[rid].inbox == []
  {
    RunsOnlyAge(c, actions, k);
    DeadStaysDead(Run(c, actions[..k]), Run(c, actions), rid);
    BusyNeverEvictable(c, actions, rid);
  }
}
