/** What each step of a driver, a teardown or the reaper comes to, told flatly from the state
    before it: where its resident stands afterwards, who is answered, what is given back and
    what becomes of the process. */
module DispatcherDeeds {
  import opened Common
  import opened Dispatcher
  import opened DispatcherInv
  import opened DispatcherSteps
  import opened DispatcherTeardown
  import DispatcherHistory
  import QueueSpec

  /** `back` is the batch on its way back to the queue, in order; `since` is when the resident
      was last active, as long as it lives. */
  datatype Deed = Deed(pc: Pc, life: Life, since: real, slot: Option<Req>, inbox: seq<Req>, riders: seq<Req>,
                       back: seq<Req>, resolved: set<Req>, reaped: set<nat>, exited: set<nat>)

  ghost predicate Did(st: State, st': State, rid: nat, d: Deed) {
    && rid in st'.residents
    && (var r' := st'.residents[rid];
        && r'.pc == d.pc && r'.life == d.life && r'.slot == d.slot && r'.inbox == d.inbox && r'.inflight == d.riders
        && (d.life != Dead ==> r'.lastActive == d.since)
        && (d.back != [] ==> r'.pending == d.back || Requeue(d.back) in st'.bg))
    && st'.done == st.done + d.resolved
    && st'.reaps == st.reaps + multiset(d.reaped) && st'.exited == st.exited + d.exited
  }

  // ----- the table -----------------------------------------------------------------------------

  /** Nothing that shows. */
  function Still(r: Resident): Deed {
    Deed(r.pc, r.life, r.lastActive, r.slot, r.inbox, r.inflight, [], {}, {}, {})
  }

  /** The driver's end: dead, inbox on its way back, the process let go of. */
  function Ends(slot: Option<Req>, back: seq<Req>, resolved: set<Req>, p: Option<nat>, reap: bool): Deed {
    Deed(Cleanup, Dead, 0.0, slot, [], [], back, resolved, if reap then Just(p) else {}, if reap then {} else Just(p))
  }

  /** The end of a driver whose teardown somebody else has claimed. */
  function Leaves(r: Resident): Deed {
    Still(r).(pc := Done, slot := None)
  }

  /** Serving `s` next, unless the dispatcher is stopping. */
  function Anchors(stopped: bool, s: Req, rest: seq<Req>, now: real, p: Option<nat>, alive: bool): Deed {
    if stopped then Ends(Some(s), rest, {}, p, alive)
    else Deed(Serving, Active, now, Some(s), rest, [], [], {}, {}, {})
  }

  /** The process a resident records, and whether letting go of it means to reap it: a live
      handle and whatever is still booting. */
  function Process(r: Resident): Option<nat> {
    if r.handle.Some? then r.handle else r.booting
  }

  predicate Reaps(r: Resident, alive: bool) {
    alive || r.booting.Some?
  }

  /** Riders from the inbox join `stay`, up to the width. */
  function Refills(r: Resident, stay: seq<Req>, gone: set<Req>): Deed {
    var k := Taken(r.inbox, gone, Left(r.width, stay));
    var riders := stay + Without(r.inbox[..k], gone);
    Deed(if riders == [] then InGrace else FanOut, r.life, r.lastActive, r.slot, r.inbox[k..], riders, [],
         Elements(r.inbox[..k]) * gone, {}, {})
  }

  function AfterGrace(st: State, r: Resident, keepWarm: bool, now: real, alive: bool): Deed {
    if !keepWarm then Ends(r.slot, r.inbox, {}, r.handle, alive)
    else if r.inbox == [] then Deed(Parked, IdleEvictable, now, r.slot, [], [], [], {}, {}, {})
    else Anchors(st.stopped, r.inbox[0], r.inbox[1..], now, r.handle, alive)
  }

  function AfterPark(st: State, r: Resident, now: real, alive: bool): Deed {
    if r.tornDown then Leaves(r)
    else if r.inbox == [] then Ends(r.slot, [], {}, r.handle, alive)
    else Anchors(st.stopped, r.inbox[0], r.inbox[1..], now, r.handle, alive)
  }

  function AfterMatch(st: State, r: Resident): Deed {
    var found := r.slot.Some? && QueueSpec.PopMatchedThread(st.queue, r.slot.value.thread, r.model).1.Some?;
    Still(r).(pc := if found then MatchServing else InGrace)
  }

  /** What an action of resident `rid`'s driver, teardown or reaper comes to. */
  function DeedOf(st: State, rid: nat, a: Action): Deed
    requires rid in st.residents
  {
    var r := st.residents[rid];
    match a
    case Start(_) =>
      if r.inbox == [] then Still(r) else Still(r).(pc := Gate, slot := Some(r.inbox[0]), inbox := r.inbox[1..])
    case CancelUnstarted(_) => Leaves(r)
    case GateRefused(_, _) => Ends(r.slot, r.inbox, Just(r.slot), None, true)
    case Spawned(_, _, _) => Still(r).(pc := Health)
    case Healthy(_, now, alive) =>
      if r.slot.None? then Still(r) else Anchors(st.stopped, r.slot.value, r.inbox, now, r.booting, alive)
    case Unhealthy(_, alive) =>
      if alive then Still(r).(pc := ReapUnhealthy, resolved := Just(r.slot), reaped := Just(r.booting))
      else Ends(r.slot, r.inbox, Just(r.slot), r.booting, false)
    case UnhealthyReaped(_) => Ends(r.slot, r.inbox, {}, None, true)
    case Served(_) => Still(r).(pc := InGrace, resolved := Just(r.slot))
    case Launch(_, gone) => if r.slot.None? then Still(r) else Refills(r, [r.slot.value], gone)
    case RiderDone(_, s) => Still(r).(resolved := {s})
    case Wake(_, gone) => Refills(r, Without(r.inflight, r.finished), gone)
    case Match(_) => AfterMatch(st, r)
    case MatchDone(_) => Still(r).(pc := InGrace, resolved := Just(r.active))
    case GraceOver(_, keepWarm, now, alive) => AfterGrace(st, r, keepWarm, now, alive)
    case Unpark(_, now, alive) =>
      if r.inbox == [] then Still(r) else Anchors(st.stopped, r.inbox[0], r.inbox[1..], now, r.handle, alive)
    case ParkTimeout(_, now, alive) => AfterPark(st, r, now, alive)
    case Abort(_, alive) =>
      if r.tornDown then Leaves(r) else Ends(r.slot, r.inbox, Elements(r.inflight), Process(r), Reaps(r, alive))
    case CleanupOver(_) => Leaves(r).(resolved := LeftBehind(st, r))
    case RunTeardown(_, alive) => TornOff(r, alive)
    case RunReapDead(_) => Still(r).(life := Dead, inbox := [], back := r.inbox,
                                     resolved := Just(r.active) + Elements(r.inflight))
    case _ => Still(r)
  }

  // ----- the critical sections -----------------------------------------------------------------

  /** Steps before the one that counts left their own marks. */
  lemma DidAfter(st: State, st1: State, st': State, rid: nat, d: Deed, resolved: set<Req>)
    requires Did(st1, st', rid, d) && st1.done == st.done + resolved
    requires st1.reaps == st.reaps && st1.exited == st.exited
    ensures Did(st, st', rid, d.(resolved := resolved + d.resolved))
  {
  }

  /** Alive exactly as long as registered. */
  predicate Tied(st: State, rid: nat) {
    rid in st.residents && (st.residents[rid].life != Dead ==> IsRegistered(st, rid))
  }

  lemma ReleaseDoes(st: State, handle: Option<nat>, booting: Option<nat>, alive: bool)
    requires handle == None || booting == None
    ensures var st' := Release(st, handle, booting, alive);
            var p, reap := Just(if handle.Some? then handle else booting), alive || booting.Some?;
            && st' == st.(reaps := st'.reaps, exited := st'.exited)
            && st'.reaps == st.reaps + multiset(if reap then p else {})
            && st'.exited == st.exited + if reap then {} else p
  {
    if handle.Some? {
      assert multiset({handle.value}) == multiset{handle.value};
    } else if booting.Some? {
      assert multiset({booting.value}) == multiset{booting.value};
    }
  }

  lemma UnregisterFrame(st: State, rid: nat)
    requires rid in st.residents
    ensures var st' := Unregister(st, rid); st' == st.(registry := st'.registry)
  {
  }

  lemma ClaimDoes(st: State, rid: nat, alive: bool)
    requires Tied(st, rid) && !st.residents[rid].tornDown && st.residents[rid].inflight == []
    requires st.residents[rid].handle == None || st.residents[rid].booting == None
    ensures var r := st.residents[rid];
            Did(st, EnterFinally(st, rid, alive), rid, Ends(r.slot, r.inbox, {}, Process(r), Reaps(r, alive)))
  {
    var r := st.residents[rid];
    ReleaseDoes(st, r.handle, r.booting, alive);
    var st1 := Release(st, r.handle, r.booting, alive);
    UnregisterFrame(st1, rid);
    assert EnterFinally(st, rid, alive) == With(Unregister(st1, rid), rid, Claimed(r, IsRegistered(st, rid)));
  }

  lemma RetireDoes(st: State, rid: nat)
    requires rid in st.residents
    ensures Did(st, Retire(st, rid), rid, Leaves(st.residents[rid]))
  {
  }

  lemma FinallyDoes(st: State, rid: nat, alive: bool)
    requires Tied(st, rid) && st.residents[rid].inflight == []
    requires st.residents[rid].handle == None || st.residents[rid].booting == None
    ensures var r := st.residents[rid];
            Did(st, EnterFinally(st, rid, alive), rid,
                if r.tornDown then Leaves(r) else Ends(r.slot, r.inbox, {}, Process(r), Reaps(r, alive)))
  {
    if st.residents[rid].tornDown {
      RetireDoes(st, rid);
    } else {
      ClaimDoes(st, rid, alive);
    }
  }

  /** Rewriting the resident first leaves no marks of its own. */
  lemma DidWith(st: State, rid: nat, r1: Resident, st': State, d: Deed)
    requires Did(With(st, rid, r1), st', rid, d)
    ensures Did(st, st', rid, d)
  {
  }

  lemma TiedWith(st: State, rid: nat, r1: Resident)
    requires Tied(st, rid) && r1.model == st.residents[rid].model
    requires st.residents[rid].life == Dead ==> r1.life == Dead
    ensures Tied(With(st, rid, r1), rid)
  {
    assert IsRegistered(With(st, rid, r1), rid) <==> IsRegistered(st, rid);
  }

  lemma LoopDoes(st: State, rid: nat, s: Req, now: real, alive: bool)
    requires Tied(st, rid) && st.residents[rid].life != Dead && !st.residents[rid].tornDown
    requires st.residents[rid].inflight == [] && st.residents[rid].booting == None
    ensures var r := st.residents[rid];
            Did(st, LoopHead(st, rid, s, now, alive), rid, Anchors(st.stopped, s, r.inbox, now, r.handle, alive))
  {
    var r := st.residents[rid];
    if st.stopped {
      var r1 := r.(slot := Some(s));
      TiedWith(st, rid, r1);
      ClaimDoes(With(st, rid, r1), rid, alive);
      DidWith(st, rid, r1, LoopHead(st, rid, s, now, alive), Anchors(st.stopped, s, r.inbox, now, r.handle, alive));
    }
  }

  lemma TakeDoes(st: State, rid: nat, now: real, alive: bool)
    requires Tied(st, rid) && st.residents[rid].life != Dead && !st.residents[rid].tornDown
    requires st.residents[rid].inflight == [] && st.residents[rid].booting == None && st.residents[rid].inbox != []
    ensures var r := st.residents[rid];
            Did(st, TakeInbox(st, rid, now, alive), rid,
                Anchors(st.stopped, r.inbox[0], r.inbox[1..], now, r.handle, alive))
  {
    var r := st.residents[rid];
    var r1 := r.(slot := Some(r.inbox[0]), inbox := r.inbox[1..]);
    TiedWith(st, rid, r1);
    LoopDoes(With(st, rid, r1), rid, r.inbox[0], now, alive);
    DidWith(st, rid, r1, TakeInbox(st, rid, now, alive),
        Anchors(st.stopped, r.inbox[0], r.inbox[1..], now, r.handle, alive));
  }

  // ----- the driver ----------------------------------------------------------------------------

  /** What the invariant says of a resident about to step, as far as it matters here. */
  predicate Ready(r: Resident) {
    && (r.handle == None || r.booting == None)
    && (r.pc != FanOut ==> r.inflight == [])
    && (r.tornDown ==> r.life == Dead && r.handle == None && r.booting == None)
    && (r.life == Dead ==> r.inbox == [])
    && (r.life == IdleEvictable ==> r.inbox == [])
    && (r.pc == NotStarted || r.pc == Gate || r.pc == Health || r.pc == ReapUnhealthy ==> r.life == ReservedLoading)
    && (r.pc == Serving || r.pc == FanOut || r.pc == InGrace || r.pc == MatchServing ==>
          r.life == Active && r.handle.Some?)
    && (r.pc == Gate || r.pc == ReapUnhealthy ==> r.handle == None && r.booting == None)
    && (r.pc == Health ==> r.handle == None)
    && (r.pc != NotStarted && r.pc != Done ==> r.slot.Some?)
    && (r.slot.Some? ==> r.slot.value.model == r.model)
    && (r.pc == Parked ==> r.booting == None && (r.life == Active ==> r.inbox != [])
                           && (r.life == Active || r.life == IdleEvictable || r.life == Dead)
                           && (r.handle == None ==> r.tornDown))
    && (r.pc == FanOut ==> |r.inflight| <= r.width)
    && (r.pc == Cleanup ==> r.tornDown)
  }

  lemma ShapeReady(r: Resident, done: set<Req>, swept: bool)
    requires Quiet(r) && AtPc(r, done, swept) && (r.handle == None || r.booting == None)
    ensures Ready(r)
  {
  }

  lemma Facts(c: Config, st: State, l: Ledger, rid: nat)
    requires Inv(c, st, l) && rid in st.residents
    ensures Tied(st, rid) && Ready(st.residents[rid])
  {
    Unshape(c, st, l, rid);
    ShapeReady(st.residents[rid], st.done, ReapDead(rid) !in st.bg);
  }

  lemma GateRefusedDoes(st: State, rid: nat, alive: bool)
    requires Tied(st, rid) && Ready(st.residents[rid]) && At(st, rid, Gate)
    ensures var r := st.residents[rid];
            Did(st, EnterFinally(ResolveOpt(st, r.slot), rid, alive), rid,
                Ends(r.slot, r.inbox, Just(r.slot), None, true))
  {
    var r := st.residents[rid];
    var st1 := ResolveOpt(st, r.slot);
    assert Tied(st1, rid);
    ClaimDoes(st1, rid, alive);
    DidAfter(st, st1, EnterFinally(st1, rid, alive), rid, Ends(r.slot, r.inbox, {}, None, Reaps(r, alive)),
        Just(r.slot));
  }

  lemma HealthyDoes(st: State, rid: nat, now: real, alive: bool)
    requires Tied(st, rid) && Ready(st.residents[rid]) && At(st, rid, Health)
    ensures var r := st.residents[rid];
            Did(st, Publish(st, rid, now, alive), rid,
                Anchors(st.stopped, r.slot.value, r.inbox, now, r.booting, alive))
  {
    var r := st.residents[rid];
    var r1 := r.(handle := r.booting, booting := None, life := Active);
    TiedWith(st, rid, r1);
    LoopDoes(With(st, rid, r1), rid, r.slot.value, now, alive);
    DidWith(st, rid, r1, Publish(st, rid, now, alive),
        Anchors(st.stopped, r.slot.value, r.inbox, now, r.booting, alive));
  }

  /** Two steps, one after the other. */
  lemma DidThen(st: State, st1: State, st': State, rid: nat, d1: Deed, d2: Deed)
    requires Did(st, st1, rid, d1) && Did(st1, st', rid, d2) && d1.reaped == {}
    ensures Did(st, st', rid, d2.(resolved := d1.resolved + d2.resolved, exited := d1.exited + d2.exited))
  {
    assert multiset(d1.reaped) == multiset{};
    assert st'.done == st.done + (d1.resolved + d2.resolved);
    assert st'.exited == st.exited + (d1.exited + d2.exited);
  }

  function Failed(r: Resident, alive: bool): Deed {
    Still(r).(pc := ReapUnhealthy, resolved := Just(r.slot), reaped := if alive then Just(r.booting) else {},
              exited := if alive then {} else Just(r.booting))
  }

  lemma FailedDoes(st: State, rid: nat, alive: bool)
    requires rid in st.residents && st.residents[rid].handle == None
    ensures var r := st.residents[rid];
            Did(st, With(Release(ResolveOpt(st, r.slot), r.booting, None, alive), rid,
                         r.(booting := None, pc := ReapUnhealthy)), rid, Failed(r, alive))
  {
    var r := st.residents[rid];
    ReleaseDoes(ResolveOpt(st, r.slot), r.booting, None, alive);
  }

  lemma UnhealthyDoes(st: State, rid: nat, alive: bool)
    requires Tied(st, rid) && Ready(st.residents[rid]) && At(st, rid, Health)
    ensures var r := st.residents[rid];
            Did(st, FailHealth(st, rid, alive), rid,
                if alive then Failed(r, true) else Ends(r.slot, r.inbox, Just(r.slot), r.booting, false))
  {
    FailedDoes(st, rid, alive);
    if !alive {
      var r := st.residents[rid];
      var r1 := r.(booting := None, pc := ReapUnhealthy);
      var st0 := Release(ResolveOpt(st, r.slot), r.booting, None, alive);
      assert Tied(With(st0, rid, r1), rid) by {
        ReleaseDoes(ResolveOpt(st, r.slot), r.booting, None, alive);
        TiedWith(st0, rid, r1);
      }
      ClaimDoes(With(st0, rid, r1), rid, alive);
      EndsAfter(st, With(st0, rid, r1), FailHealth(st, rid, alive), rid, r, r1);
    }
  }

  lemma EndsAfter(st: State, st1: State, st': State, rid: nat, r: Resident, r1: Resident)
    requires Did(st, st1, rid, Failed(r, false)) && Did(st1, st', rid, Ends(r1.slot, r1.inbox, {}, None, false))
    requires r1.slot == r.slot && r1.inbox == r.inbox
    ensures Did(st, st', rid, Ends(r.slot, r.inbox, Just(r.slot), r.booting, false))
  {
    var d := Ends(r1.slot, r1.inbox, {}, None, false);
    DidThen(st, st1, st', rid, Failed(r, false), d);
    assert Just(r.slot) + {} == Just(r.slot) && Just(r.booting) + {} == Just(r.booting);
  }

  // ----- the windows ---------------------------------------------------------------------------

  lemma EvictDoes(st: State, rid: nat)
    requires rid in st.residents && st.residents[rid].life != Dead
    ensures var r := st.residents[rid];
            Did(st, BeginEvict(st, rid), rid, Still(r).(life := Dead, inbox := [], back := r.inbox))
    ensures var r' := BeginEvict(st, rid).residents[rid]; r' == st.residents[rid].(life := Dead, inbox := [])
    ensures st.residents[rid].inbox != [] ==> Requeue(st.residents[rid].inbox) in BeginEvict(st, rid).bg
  {
  }

  /** A self-eviction: what the drain put into a task is on its way back. */
  lemma SelfEvictDoes(st: State, rid: nat, alive: bool)
    requires rid in st.residents && Ready(st.residents[rid]) && st.residents[rid].life != Dead
    requires st.residents[rid].inflight == [] && st.residents[rid].booting == None
    ensures var r := st.residents[rid];
            Did(st, EnterFinally(BeginEvict(st, rid), rid, alive), rid, Ends(r.slot, r.inbox, {}, r.handle, alive))
  {
    var r := st.residents[rid];
    var st1 := BeginEvict(st, rid);
    EvictDoes(st, rid);
    ClaimDoes(st1, rid, alive);
    ClaimKeepsTasks(st1, rid, alive);
    SelfEvicted(st, st1, EnterFinally(st1, rid, alive), rid, alive);
  }

  lemma ClaimKeepsTasks(st: State, rid: nat, alive: bool)
    requires rid in st.residents && !st.residents[rid].tornDown
    ensures EnterFinally(st, rid, alive).bg == st.bg
  {
  }

  lemma SelfEvicted(st: State, st1: State, st': State, rid: nat, alive: bool)
    requires rid in st.residents && st.residents[rid].booting == None
    requires var r := st.residents[rid];
             && Did(st, st1, rid, Still(r).(life := Dead, inbox := [], back := r.inbox))
             && Did(st1, st', rid, Ends(r.slot, [], {}, r.handle, alive))
             && (r.inbox != [] ==> Requeue(r.inbox) in st1.bg) && st'.bg == st1.bg
    ensures var r := st.residents[rid]; Did(st, st', rid, Ends(r.slot, r.inbox, {}, r.handle, alive))
  {
    var r := st.residents[rid];
    DidThen(st, st1, st', rid, Still(r).(life := Dead, inbox := [], back := r.inbox),
        Ends(r.slot, [], {}, r.handle, alive));
  }

  lemma GraceOverDoes(st: State, rid: nat, keepWarm: bool, now: real, alive: bool)
    requires Tied(st, rid) && Ready(st.residents[rid]) && At(st, rid, InGrace)
    ensures Did(st, EndGrace(st, rid, keepWarm, now, alive), rid,
                AfterGrace(st, st.residents[rid], keepWarm, now, alive))
  {
    var r := st.residents[rid];
    if !keepWarm {
      var r1 := r.(active := None, lastActive := now);
      SelfEvictDoes(With(st, rid, r1), rid, alive);
      DidWith(st, rid, r1, EndGrace(st, rid, keepWarm, now, alive), AfterGrace(st, r, keepWarm, now, alive));
    } else if r.inbox != [] {
      var r1 := Idled(r, now);
      TiedWith(st, rid, r1);
      TakeDoes(With(st, rid, r1), rid, now, alive);
      DidWith(st, rid, r1, EndGrace(st, rid, keepWarm, now, alive), AfterGrace(st, r, keepWarm, now, alive));
    }
  }

  lemma ParkOverDoes(st: State, rid: nat, now: real, alive: bool)
    requires Tied(st, rid) && Ready(st.residents[rid]) && At(st, rid, Parked)
    ensures Did(st, EndPark(st, rid, now, alive), rid, AfterPark(st, st.residents[rid], now, alive))
  {
    var r := st.residents[rid];
    if r.life == IdleEvictable {
      SelfEvictDoes(st, rid, alive);
    } else if r.inbox != [] {
      TakeDoes(st, rid, now, alive);
    } else {
      DeadParkDoes(st, rid, now, alive);
    }
  }

  /** An idle window that ends after an eviction. */
  lemma DeadParkDoes(st: State, rid: nat, now: real, alive: bool)
    requires Tied(st, rid) && Ready(st.residents[rid]) && At(st, rid, Parked) && st.residents[rid].life == Dead
    ensures var r := st.residents[rid];
            Did(st, EndPark(st, rid, now, alive), rid,
                if r.tornDown then Leaves(r) else Ends(r.slot, [], {}, r.handle, alive))
  {
    var r := st.residents[rid];
    assert st.residents[rid := r] == st.residents;
    assert r.(slot := Some(r.slot.value)) == r;
    assert EndPark(st, rid, now, alive) == EnterFinally(st, rid, alive);
    FinallyDoes(st, rid, alive);
  }

  lemma UnparkDoes(st: State, rid: nat, now: real, alive: bool)
    requires Tied(st, rid) && Ready(st.residents[rid]) && At(st, rid, Parked) && st.residents[rid].inbox != []
    ensures var r := st.residents[rid];
            Did(st, TakeInbox(st, rid, now, alive), rid,
                Anchors(st.stopped, r.inbox[0], r.inbox[1..], now, r.handle, alive))
  {
    TakeDoes(st, rid, now, alive);
  }

  // ----- serving -------------------------------------------------------------------------------

  lemma LaunchDoes(st: State, rid: nat, gone: set<Req>)
    requires rid in st.residents && Ready(st.residents[rid]) && At(st, rid, Serving)
    ensures var r := st.residents[rid]; Did(st, DoLaunch(st, rid, gone), rid, Refills(r, [r.slot.value], gone))
  {
  }

  lemma WakeDoes(st: State, rid: nat, gone: set<Req>)
    requires rid in st.residents && Ready(st.residents[rid]) && At(st, rid, FanOut)
    ensures var r := st.residents[rid];
            Did(st, DoWake(st, rid, gone), rid, Refills(r, Without(r.inflight, r.finished), gone))
  {
  }

  lemma MatchDoes(st: State, rid: nat)
    requires rid in st.residents && Ready(st.residents[rid]) && At(st, rid, InGrace)
    ensures Did(st, TakeMatch(st, rid), rid, AfterMatch(st, st.residents[rid]))
  {
  }

  // ----- the ways out --------------------------------------------------------------------------

  lemma AbortDoes(st: State, rid: nat, alive: bool)
    requires Tied(st, rid) && Ready(st.residents[rid]) && Abortable(st.residents[rid].pc)
    ensures var r := st.residents[rid];
            Did(st, Unwind(st, rid, alive), rid,
                if r.tornDown then Leaves(r)
                else Ends(r.slot, r.inbox, Elements(r.inflight), Process(r), Reaps(r, alive)))
  {
    var r := st.residents[rid];
    var r1 := r.(inflight := [], finished := {});
    var st1 := ResolveAll(st, r.inflight);
    TiedWith(st1, rid, r1);
    FinallyDoes(With(st1, rid, r1), rid, alive);
    var st' := Unwind(st, rid, alive);
    if r.tornDown {
      assert r1 == r.(finished := {}) && Elements(r.inflight) == {};
      DidAfter(st, With(st1, rid, r1), st', rid, Leaves(r1), {});
    } else {
      DidAfter(st, With(st1, rid, r1), st', rid, Ends(r.slot, r.inbox, {}, Process(r), Reaps(r, alive)),
          Elements(r.inflight));
    }
  }

  /** What a cleanup resolves at its end: its batch, if the queue has closed, and an anchor that
      never became the active slot. */
  function LeftBehind(st: State, r: Resident): set<Req> {
    (if st.queue.closed then Elements(r.pending) else {}) + (if r.active == r.slot then {} else Just(r.slot))
  }

  lemma RequeueDoes(st: State, slots: seq<Req>)
    ensures var st' := RequeueAll(st, slots);
            st' == st.(queue := st'.queue, done := st.done + if st.queue.closed then Elements(slots) else {})
  {
  }

  lemma LeaveDoes(st: State, rid: nat)
    requires rid in st.residents && Ready(st.residents[rid]) && At(st, rid, Cleanup)
    ensures var r := st.residents[rid];
            Did(st, LeaveFinally(st, rid), rid, Leaves(r).(resolved := LeftBehind(st, r)))
  {
    var r := st.residents[rid];
    RequeueDoes(st, r.pending);
    var st1 := ResolveOpt(With(RequeueAll(st, r.pending), rid, r.(pending := [])), Unswept(r));
    assert Just(Unswept(r)) == if r.active == r.slot then {} else Just(r.slot);
    assert st1.done == st.done + LeftBehind(st, r);
    RetireDoes(st1, rid);
    DidAfter(st, st1, LeaveFinally(st, rid), rid, Leaves(r.(pending := [])), LeftBehind(st, r));
  }

  /** A detached teardown lets go of what nobody has claimed. */
  function TornOff(r: Resident, alive: bool): Deed {
    var p, reap := Just(Process(r)), Reaps(r, alive);
    if r.tornDown then Still(r) else Still(r).(reaped := if reap then p else {}, exited := if reap then {} else p)
  }

  lemma TornOffDoes(st: State, rid: nat, alive: bool)
    requires rid in st.residents && Ready(st.residents[rid]) && !st.residents[rid].tornDown
    ensures var r := st.residents[rid];
            Did(st, With(Release(st, r.handle, r.booting, alive), rid, TornDown(r)), rid, TornOff(r, alive))
  {
    var r := st.residents[rid];
    var st1 := Release(st, r.handle, r.booting, alive);
    ReleaseDoes(st, r.handle, r.booting, alive);
    assert st1.done == st.done + {} && st1.residents == st.residents;
    assert With(st1, rid, TornDown(r)).residents[rid] == TornDown(r);
  }

  lemma DidFinish(st: State, t: Task, st': State, rid: nat, d: Deed)
    requires Did(Finish(st, t), st', rid, d)
    ensures Did(st, st', rid, d)
  {
  }

  lemma TeardownDoes(st: State, rid: nat, alive: bool)
    requires rid in st.residents && Ready(st.residents[rid])
    ensures Did(st, DoTeardown(st, rid, alive), rid, TornOff(st.residents[rid], alive))
  {
    if !st.residents[rid].tornDown {
      TornOffDoes(Finish(st, Teardown(rid)), rid, alive);
      DidFinish(st, Teardown(rid), DoTeardown(st, rid, alive), rid, TornOff(st.residents[rid], alive));
    }
  }

  lemma ReapDeadDoes(st: State, rid: nat)
    requires rid in st.residents && (st.residents[rid].life == Dead ==> st.residents[rid].inbox == [])
    ensures var r := st.residents[rid];
            Did(st, DoReapDead(st, rid), rid,
                Still(r).(life := Dead, inbox := [], back := r.inbox,
                          resolved := Just(r.active) + Elements(r.inflight)))
  {
    var r := st.residents[rid];
    assert st.done + Just(r.active) + Elements(r.inflight) == st.done + (Just(r.active) + Elements(r.inflight));
  }

  // ----- every action of a driver, a teardown or the reaper ------------------------------------------

  lemma StartDeed(c: Config, st: State, a: Action)
    requires Enabled(c, st, a) && StartAction(a) && Tied(st, a.rid) && Ready(st.residents[a.rid])
    ensures Did(st, Apply(c, st, a), a.rid, DeedOf(st, a.rid, a))
  {
    if a.CancelUnstarted? {
      RetireDoes(st, a.rid);
    } else if a.GateRefused? {
      GateRefusedDoes(st, a.rid, a.alive);
    }
  }

  lemma HealthDeed(c: Config, st: State, a: Action)
    requires Enabled(c, st, a) && HealthAction(a) && Tied(st, a.rid) && Ready(st.residents[a.rid])
    ensures Did(st, Apply(c, st, a), a.rid, DeedOf(st, a.rid, a))
  {
    if a.Healthy? {
      HealthyDoes(st, a.rid, a.now, a.alive);
    } else if a.Unhealthy? {
      UnhealthyDoes(st, a.rid, a.alive);
    } else {
      FinallyDoes(st, a.rid, false);
    }
  }

  lemma ServeDeed(c: Config, st: State, a: Action)
    requires Enabled(c, st, a) && ServeAction(a) && Tied(st, a.rid) && Ready(st.residents[a.rid])
    ensures Did(st, Apply(c, st, a), a.rid, DeedOf(st, a.rid, a))
  {
    if a.Match? {
      MatchDoes(st, a.rid);
    }
  }

  lemma FanOutDeed(c: Config, st: State, a: Action)
    requires Enabled(c, st, a) && FanOutAction(a) && Tied(st, a.rid) && Ready(st.residents[a.rid])
    ensures Did(st, Apply(c, st, a), a.rid, DeedOf(st, a.rid, a))
  {
    if a.Launch? {
      LaunchDoes(st, a.rid, a.gone);
    } else if a.Wake? {
      WakeDoes(st, a.rid, a.gone);
    }
  }

  lemma WindowDeed(c: Config, st: State, a: Action)
    requires Enabled(c, st, a) && WindowAction(a) && Tied(st, a.rid) && Ready(st.residents[a.rid])
    ensures Did(st, Apply(c, st, a), a.rid, DeedOf(st, a.rid, a))
  {
    if a.GraceOver? {
      GraceOverDoes(st, a.rid, a.keepWarm, a.now, a.alive);
    } else if a.Unpark? {
      UnparkDoes(st, a.rid, a.now, a.alive);
    } else {
      ParkOverDoes(st, a.rid, a.now, a.alive);
    }
  }

  lemma ExitDeed(c: Config, st: State, a: Action)
    requires Enabled(c, st, a) && ExitAction(a) && Tied(st, a.rid) && Ready(st.residents[a.rid])
    ensures Did(st, Apply(c, st, a), a.rid, DeedOf(st, a.rid, a))
  {
    if a.Abort? {
      AbortDoes(st, a.rid, a.alive);
    } else {
      LeaveDoes(st, a.rid);
    }
  }

  lemma ReapDeed(c: Config, st: State, a: Action)
    requires Enabled(c, st, a) && ReapAction(a) && Tied(st, a.rid) && Ready(st.residents[a.rid])
    ensures Did(st, Apply(c, st, a), a.rid, DeedOf(st, a.rid, a))
  {
    if a.RunTeardown? {
      TeardownDoes(st, a.rid, a.alive);
    } else {
      ReapDeadDoes(st, a.rid);
    }
  }

  lemma ReadyDoes(c: Config, st: State, a: Action, rid: nat)
    requires Enabled(c, st, a) && DispatcherHistory.Actor(a) == Some(rid)
    requires Tied(st, rid) && Ready(st.residents[rid])
    ensures Did(st, Apply(c, st, a), rid, DeedOf(st, rid, a))
  {
    if StartAction(a) {
      StartDeed(c, st, a);
    } else if HealthAction(a) {
      HealthDeed(c, st, a);
    } else if ServeAction(a) {
      ServeDeed(c, st, a);
    } else if FanOutAction(a) {
      FanOutDeed(c, st, a);
    } else if WindowAction(a) {
      WindowDeed(c, st, a);
    } else if ExitAction(a) {
      ExitDeed(c, st, a);
    } else {
      ReapDeed(c, st, a);
    }
  }

  /** In every reachable state every step of a driver, a detached teardown or the reaper comes
      to what the table says. */
  lemma StepDoes(c: Config, st: State, l: Ledger, a: Action, rid: nat)
    requires Inv(c, st, l) && Enabled(c, st, a) && DispatcherHistory.Actor(a) == Some(rid) && rid in st.residents
    ensures Did(st, Apply(c, st, a), rid, DeedOf(st, rid, a))
  {
    Facts(c, st, l, rid);
    ReadyDoes(c, st, a, rid);
  }
}
