/** The multi-resident dispatcher of manager.py (max_parallel_sidecars >= 2) as a state
    machine.  One action is one stretch of code between two suspension points: no body
    run under `_registry_lock` or the queue lock ever suspends, so each is one action, and
    actions interleave in any order. */
module Dispatcher {
  import opened Common
  import QueueSpec

  datatype Life = ReservedLoading | Active | Grace | IdleEvictable | Dead

  datatype Split = NoneSplit | Layer | Row | Tensor

  /** Where a driver task is suspended. */
  datatype Pc =
    | NotStarted      // created, first instruction not run yet
    | Gate            // awaiting the per-spawn safety gate
    | Health          // awaiting the health check of a spawned sidecar
    | ReapUnhealthy   // awaiting the reap of a sidecar that failed its health check
    | Serving         // the anchor's audit, completion or stream
    | FanOut          // awaiting the first finished rider
    | InGrace         // audit or sleep of the grace window
    | MatchServing    // serving a matched follow-up inside the grace window
    | Parked          // awaiting the inbox
    | Cleanup         // the `finally`, awaiting the reap it owns
    | Done

  datatype Resident = Resident(
    model: string, port: int, need: int, gpu: int, split: Split,
    life: Life, inbox: seq<Req>, inflight: seq<Req>, finished: set<Req>, active: Option<Req>,
    handle: Option<nat>, booting: Option<nat>, tornDown: bool, lastActive: real,
    // the driver task's own variables
    pc: Pc, slot: Option<Req>, pending: seq<Req>, width: nat)

  /** Detached background tasks that have not finished. */
  datatype Task =
    | Teardown(rid: nat)          // _evict_teardown
    | ReapDead(rid: nat)          // _reap_dead_resident, scheduled by the done callback
    | Requeue(slots: seq<Req>)    // _requeue_slots_or_fail of a drained inbox
    | Backoff(slot: Req)          // _requeue_after_backoff

  datatype Config = Config(queue: QueueSpec.Config, cap: nat, portBase: int)

  /** What configuration validation guarantees at this path. */
  predicate ValidConfig(c: Config) {
    c.queue.stagingMax > 0 && 2 <= c.cap <= 32
  }

  /** `done` are the requests whose future is resolved.  Processes are numbered by pid:
      `reaps` counts hand-overs to a reap, `exited` are those found dead when let go. */
  datatype State = State(
    queue: QueueSpec.Queue, registry: map<string, nat>, residents: map<nat, Resident>, bg: set<Task>,
    accepted: set<Req>, done: set<Req>, defers: map<Req, nat>,
    spawned: set<nat>, reaps: multiset<nat>, exited: set<nat>, stopped: bool)

  const Init := State(QueueSpec.EmptyQueue, map[], map[], {}, {}, {}, map[], {}, multiset{}, {}, false)

  const MAX_DISPATCH_DEFERS := 50
  const PORT_WINDOW := 100

  // ----- futures and processes ----------------------------------------------------------

  /** Every place that resolves a future first asks whether it is done, so resolving is
      idempotent. */
  function Resolve(st: State, s: Req): State {
    st.(done := st.done + {s})
  }

  function ResolveAll(st: State, ss: seq<Req>): State {
    st.(done := st.done + Elements(ss))
  }

  function ResolveOpt(st: State, s: Option<Req>): State {
    st.(done := st.done + Just(s))
  }

  /** Let go of the recorded process: a live handle and a booting pid go to a reap. */
  function Release(st: State, handle: Option<nat>, booting: Option<nat>, alive: bool): State {
    if handle.Some? && alive then st.(reaps := st.reaps + multiset{handle.value})
    else if booting.Some? then st.(reaps := st.reaps + multiset{booting.value})
    else if handle.Some? then st.(exited := st.exited + {handle.value})
    else st
  }

  function With(st: State, rid: nat, r: Resident): State {
    st.(residents := st.residents[rid := r])
  }

  // ----- the registry ---------------------------------------------------------------------

  predicate IsRegistered(st: State, rid: nat) {
    rid in st.residents && st.residents[rid].model in st.registry && st.registry[st.residents[rid].model] == rid
  }

  /** `_model_residents`: the models with a live resident. */
  function LiveModels(st: State): set<string> {
    set m <- st.registry.Keys | st.registry[m] in st.residents && st.residents[st.registry[m]].life != Dead
  }

  function LiveResident(st: State, model: string): Option<nat> {
    if model in LiveModels(st) then Some(st.registry[model]) else None
  }

  /** `_lru_idle_evictable`: busy residents are no candidates. */
  predicate Candidate(st: State, rid: nat) {
    && IsRegistered(st, rid)
    && var r := st.residents[rid];
       r.life == IdleEvictable && r.active == None && r.inflight == []
  }

  ghost predicate LeastRecent(st: State, rid: nat) {
    && Candidate(st, rid)
    && forall m <- st.registry.Keys :: Candidate(st, st.registry[m]) ==>
         st.residents[rid].lastActive <= st.residents[st.registry[m]].lastActive
  }

  /** A victim that is least recently used, if any resident is a candidate at all. */
  ghost predicate BestVictim(st: State, victim: nat) {
    forall m <- st.registry.Keys :: Candidate(st, st.registry[m]) ==> LeastRecent(st, victim)
  }

  function HeldPorts(st: State): set<int> {
    set m <- st.registry.Keys | st.registry[m] in st.residents :: st.residents[st.registry[m]].port
  }

  /** The lowest port from `p` on, `n` to try; the window's base when all are held. */
  function LowestFree(held: set<int>, p: int, n: nat, base: int): int
    decreases n
  {
    if n == 0 then base else if p !in held then p else LowestFree(held, p + 1, n - 1, base)
  }

  function AllocPort(c: Config, st: State): int {
    LowestFree(HeldPorts(st), c.portBase, PORT_WINDOW, c.portBase)
  }

  datatype Footprint = Footprint(need: int, gpu: int, split: Split)

  /** Budget of still-loading siblings on the same card. */
  ghost function BootingCharge(st: State, models: set<string>, gpu: int): int {
    if models == {} then 0
    else
      var m :| m in models;
      var charge := if m in LiveModels(st) && st.residents[st.registry[m]].life == ReservedLoading
                       && st.residents[st.registry[m]].gpu == gpu
                    then st.residents[st.registry[m]].need else 0;
      charge + BootingCharge(st, models - {m}, gpu)
  }

  /** `_vram_admits_locked`; `probe` is the free budget, None when it cannot be read. */
  ghost predicate VramAdmits(st: State, f: Footprint, probe: Option<int>) {
    var siblings := LiveModels(st);
    && (siblings != {} ==>
          && f.split == NoneSplit
          && forall m <- siblings ::
              st.residents[st.registry[m]].split == NoneSplit && st.residents[st.registry[m]].gpu != f.gpu)
    && (match probe
        case None => siblings == {}
        case Some(free) => free - BootingCharge(st, siblings, f.gpu) >= f.need)
  }

  // ----- critical sections ------------------------------------------------------------------

  function Unregister(st: State, rid: nat): State
    requires rid in st.residents
  {
    if IsRegistered(st, rid) then st.(registry := st.registry - {st.residents[rid].model}) else st
  }

  /** `_begin_evict_locked`: the inbox is drained on every call, the rest happens once. */
  function BeginEvict(st: State, rid: nat): State
    requires rid in st.residents
  {
    var r := st.residents[rid];
    var bg := if r.inbox == [] then st.bg else st.bg + {Requeue(r.inbox)};
    if r.life == Dead then With(st, rid, r.(inbox := [])).(bg := bg)
    else With(Unregister(st, rid), rid, r.(inbox := [], life := Dead)).(bg := bg + {Teardown(rid)})
  }

  /** The driver task ends; its done callback schedules the death reaper. */
  function Retire(st: State, rid: nat): State
    requires rid in st.residents
  {
    With(st, rid, st.residents[rid].(pc := Done, slot := None)).(bg := st.bg + {ReapDead(rid)})
  }

  /** A resident whose driver has claimed the teardown. */
  function Claimed(r: Resident, registered: bool): Resident {
    r.(tornDown := true, handle := None, booting := None, pending := r.inbox, inbox := [], pc := Cleanup,
       life := if registered then Dead else r.life)
  }

  /** The `finally` of the driver up to its first suspension: claim the teardown. */
  function EnterFinally(st: State, rid: nat, alive: bool): State
    requires rid in st.residents
  {
    var r := st.residents[rid];
    if r.tornDown then Retire(st, rid)
    else With(Unregister(Release(st, r.handle, r.booting, alive), rid), rid, Claimed(r, IsRegistered(st, rid)))
  }

  /** `_requeue_slots_or_fail`: head inserts one after another, or, once the queue is
      closed, failed futures. */
  function RequeueAll(st: State, slots: seq<Req>): State {
    if st.queue.closed then ResolveAll(st, slots) else st.(queue := QueueSpec.PushAll(st.queue, slots))
  }

  /** The anchor that no later sweep of active slot and riders would see. */
  function Unswept(r: Resident): Option<Req> {
    if r.slot.Some? && r.active != r.slot && r.slot.value !in r.inflight then r.slot else None
  }

  /** The rest of the `finally`: hand the drained inbox back, fail an unswept anchor, end. */
  function LeaveFinally(st: State, rid: nat): State
    requires rid in st.residents
  {
    var r := st.residents[rid];
    Retire(ResolveOpt(With(RequeueAll(st, r.pending), rid, r.(pending := [])), Unswept(r)), rid)
  }

  function Anchored(r: Resident, s: Req, now: real): Resident {
    r.(slot := Some(s), life := Active, active := Some(s), lastActive := now, pc := Serving)
  }

  /** The head of the driver's loop with `s` as its slot. */
  function LoopHead(st: State, rid: nat, s: Req, now: real, alive: bool): State
    requires rid in st.residents
  {
    var r := st.residents[rid];
    if st.stopped || r.life == Dead then EnterFinally(With(st, rid, r.(slot := Some(s))), rid, alive)
    else With(st, rid, Anchored(r, s, now))
  }

  /** Take the inbox head and go on to the loop head. */
  function TakeInbox(st: State, rid: nat, now: real, alive: bool): State
    requires rid in st.residents && st.residents[rid].inbox != []
  {
    var r := st.residents[rid];
    LoopHead(With(st, rid, r.(slot := Some(r.inbox[0]), inbox := r.inbox[1..])), rid, r.inbox[0], now, alive)
  }

  /** One more deferral of `s`. */
  function Counted(st: State, s: Req): State {
    st.(defers := st.defers[s := (if s in st.defers then st.defers[s] else 0) + 1])
  }

  function GiveUpOrBackOff(st: State, s: Req, giveUp: bool): State {
    if giveUp then Resolve(st, s) else st.(bg := st.bg + {Backoff(s)})
  }

  /** `_defer_unroutable`. */
  function Defer(st: State, s: Req): State {
    var st' := Counted(st, s);
    GiveUpOrBackOff(st', s, st'.defers[s] > MAX_DISPATCH_DEFERS)
  }

  /** What the environment answers during one dispatch.  `hint` is the affinity hint,
      `footprint` None when reading the manifest raises, `rid` names a new resident. */
  datatype Oracle = Oracle(hint: Option<string>, now: real, gone: bool, footprint: Option<Footprint>,
                           probe: Option<int>, victim: nat, rid: nat)

  function Fresh(s: Req, port: int, f: Footprint, now: real): Resident {
    Resident(s.model, port, f.need, f.gpu, f.split, ReservedLoading, [s], [], {}, None, None, None, false, now,
             NotStarted, None, [], 1)
  }

  /** `_reserve_and_start_locked`. */
  ghost function Reserve(c: Config, st: State, s: Req, o: Oracle): State {
    if o.footprint.None? || !VramAdmits(st, o.footprint.value, o.probe) then Resolve(st, s)
    else
      var r := Fresh(s, AllocPort(c, st), o.footprint.value, o.now);
      With(st, o.rid, r).(registry := st.registry[s.model := o.rid])
  }

  function Given(r: Resident, s: Req, now: real): Resident {
    r.(life := if r.life == IdleEvictable then Active else r.life, lastActive := now, inbox := r.inbox + [s])
  }

  /** `_route_or_reserve`. */
  ghost function Route(c: Config, st: State, s: Req, o: Oracle): State {
    match LiveResident(st, s.model)
    case Some(rid) => With(st, rid, Given(st.residents[rid], s, o.now))
    case None =>
      if |LiveModels(st)| < c.cap then Reserve(c, st, s, o)
      else if Candidate(st, o.victim) then Reserve(c, BeginEvict(st, o.victim), s, o)
      else Defer(st, s)
  }

  /** One turn of `_dispatch_loop`. */
  ghost function Dispatch(c: Config, st: State, o: Oracle): State {
    var (q, got) := QueueSpec.PopNext(c.queue, st.queue, o.hint, o.now);
    var st' := st.(queue := q);
    match got
    case None => st'
    case Some(s) => if o.gone then Resolve(st', s) else Route(c, st', s, o)
  }

  // ----- the steps of a driver ----------------------------------------------------------------

  function Started(r: Resident): Resident
    requires r.inbox != []
  {
    r.(slot := Some(r.inbox[0]), inbox := r.inbox[1..], pc := Gate)
  }

  function Booting(r: Resident, pid: nat, width: nat): Resident {
    r.(booting := Some(pid), width := width, pc := Health)
  }

  /** The health check passed: publish the handle and enter the loop. */
  function Publish(st: State, rid: nat, now: real, alive: bool): State
    requires rid in st.residents
  {
    var r := st.residents[rid];
    var st' := With(st, rid, r.(handle := r.booting, booting := None, life := Active));
    if r.slot.Some? then LoopHead(st', rid, r.slot.value, now, alive) else st'
  }

  /** The health check failed: fail the anchor; a live sidecar is reaped by this driver. */
  function FailHealth(st: State, rid: nat, alive: bool): State
    requires rid in st.residents
  {
    var r := st.residents[rid];
    var st' := With(Release(ResolveOpt(st, r.slot), r.booting, None, alive), rid,
        r.(booting := None, pc := ReapUnhealthy));
    if alive then st' else EnterFinally(st', rid, alive)
  }

  function Without(ss: seq<Req>, gone: set<Req>): seq<Req> {
    if ss == [] then []
    else if ss[0] in gone then Without(ss[1..], gone)
    else [ss[0]] + Without(ss[1..], gone)
  }

  lemma {:induction false} WithoutMembers(ss: seq<Req>, gone: set<Req>)
    ensures forall s :: s in Without(ss, gone) <==> s in ss && s !in gone
    ensures Distinct(ss) ==> Distinct(Without(ss, gone))
    ensures |Without(ss, gone)| <= |ss|
  {
    if ss != [] {
      WithoutMembers(ss[1..], gone);
      assert forall s :: s in ss <==> s == ss[0] || s in ss[1..];
      if Distinct(ss) {
        DistinctTail(ss);
        if ss[0] !in gone {
          DistinctWithNew(Without(ss[1..], gone), ss[0]);
        }
      }
    }
  }

  /** How many inbox entries `_admit_from_inbox` takes when `room` riders fit: a rider whose
      client is gone is taken and failed, but needs no room. */
  function Taken(inbox: seq<Req>, gone: set<Req>, room: nat): (k: nat)
    ensures k <= |inbox|
  {
    if inbox == [] || room == 0 then 0
    else 1 + Taken(inbox[1..], gone, if inbox[0] in gone then room else room - 1)
  }

  /** The riders launched fit, and the room is filled unless the inbox runs out. */
  lemma {:induction false} TakenFits(inbox: seq<Req>, gone: set<Req>, room: nat)
    ensures var k := Taken(inbox, gone, room);
            && |Without(inbox[..k], gone)| <= room
            && (k < |inbox| ==> |Without(inbox[..k], gone)| == room)
  {
    if inbox != [] && room != 0 {
      TakenFits(inbox[1..], gone, if inbox[0] in gone then room else room - 1);
      var k := Taken(inbox, gone, room);
      assert inbox[..k][1..] == inbox[1..][..k - 1];
    }
  }

  function Left(width: nat, inflight: seq<Req>): nat {
    if width > |inflight| then width - |inflight| else 0
  }

  function Room(r: Resident): nat {
    Left(r.width, r.inflight)
  }

  function Admit(r: Resident, gone: set<Req>): Resident {
    var k := Taken(r.inbox, gone, Room(r));
    r.(inflight := r.inflight + Without(r.inbox[..k], gone), inbox := r.inbox[k..])
  }

  /** The riders `Admit` fails instead of launching. */
  function TurnedAway(r: Resident, gone: set<Req>): set<Req> {
    Elements(r.inbox[..Taken(r.inbox, gone, Room(r))]) * gone
  }

  /** The anchor opens a fan-out on its own. */
  function Opened(r: Resident): Resident
    requires r.slot.Some?
  {
    r.(inflight := [r.slot.value], finished := {}, pc := FanOut)
  }

  function DoLaunch(st: State, rid: nat, gone: set<Req>): State
    requires rid in st.residents
  {
    var r := st.residents[rid];
    if r.slot.None? then st
    else With(st, rid, Admit(Opened(r), gone)).(done := st.done + TurnedAway(Opened(r), gone))
  }

  /** Finished riders leave the fan-out. */
  function Landed(r: Resident): Resident {
    r.(inflight := Without(r.inflight, r.finished), finished := {})
  }

  /** A fan-out with no rider left is over. */
  function Settle(r: Resident): Resident {
    if r.inflight == [] then r.(pc := InGrace) else r
  }

  /** The driver wakes: finished riders leave, the inbox refills, an empty set ends it. */
  function DoWake(st: State, rid: nat, gone: set<Req>): State
    requires rid in st.residents
  {
    var r := Landed(st.residents[rid]);
    With(st, rid, Settle(Admit(r, gone))).(done := st.done + TurnedAway(r, gone))
  }

  /** A follow-up of the same thread is served inside the grace window. */
  function TakeMatch(st: State, rid: nat): State
    requires rid in st.residents
  {
    var r := st.residents[rid];
    if r.slot.None? then st
    else
      var (q, got) := QueueSpec.PopMatchedThread(st.queue, r.slot.value.thread, r.slot.value.model);
      if got.Some? then With(st, rid, r.(active := got, pc := MatchServing)).(queue := q) else st
  }

  function Unmatched(r: Resident): Resident {
    r.(active := r.slot, pc := InGrace)
  }

  function Idled(r: Resident, now: real): Resident {
    r.(active := None, lastActive := now, life := IdleEvictable, pc := Parked)
  }

  /** The grace window ends: go idle, or, with no idle window, evict oneself. */
  function EndGrace(st: State, rid: nat, keepWarm: bool, now: real, alive: bool): State
    requires rid in st.residents
  {
    var r := st.residents[rid];
    if r.life == Dead then EnterFinally(st, rid, alive)
    else if !keepWarm then
      EnterFinally(BeginEvict(With(st, rid, r.(active := None, lastActive := now)), rid), rid, alive)
    else if r.inbox != [] then TakeInbox(With(st, rid, Idled(r, now)), rid, now, alive)
    else With(st, rid, Idled(r, now))
  }

  /** The idle window ends. */
  function EndPark(st: State, rid: nat, now: real, alive: bool): State
    requires rid in st.residents
  {
    var r := st.residents[rid];
    if r.life == IdleEvictable && r.inbox == [] then EnterFinally(BeginEvict(st, rid), rid, alive)
    else if r.inbox != [] then TakeInbox(st, rid, now, alive)
    else if r.slot.Some? then LoopHead(st, rid, r.slot.value, now, alive)
    else st
  }

  /** A cancellation or an exception: a fan-out first fails its riders. */
  function Unwind(st: State, rid: nat, alive: bool): State
    requires rid in st.residents
  {
    var r := st.residents[rid];
    EnterFinally(With(ResolveAll(st, r.inflight), rid, r.(inflight := [], finished := {})), rid, alive)
  }

  // ----- background tasks -----------------------------------------------------------------------

  function Finish(st: State, t: Task): State {
    st.(bg := st.bg - {t})
  }

  function TornDown(r: Resident): Resident {
    r.(tornDown := true, handle := None, booting := None)
  }

  function DoTeardown(st: State, rid: nat, alive: bool): State
    requires rid in st.residents
  {
    var r := st.residents[rid];
    var st' := Finish(st, Teardown(rid));
    if r.tornDown then st' else With(Release(st', r.handle, r.booting, alive), rid, TornDown(r))
  }

  function DoReapDead(st: State, rid: nat): State
    requires rid in st.residents
  {
    var r := st.residents[rid];
    BeginEvict(ResolveAll(ResolveOpt(Finish(st, ReapDead(rid)), r.active), r.inflight), rid)
  }

  function DoSubmit(c: Config, st: State, s: Req, head: bool): State {
    var admission := if head then QueueSpec.EnqueueHead(st.queue, s) else QueueSpec.Enqueue(c.queue, st.queue, s);
    if admission.Admitted? then st.(queue := admission.queue, accepted := st.accepted + {s}) else st
  }

  function DoClose(st: State): State {
    ResolveAll(st.(queue := QueueSpec.Close(st.queue).0), QueueSpec.Close(st.queue).1)
  }

  // ----- the actions ----------------------------------------------------------------------------

  datatype Action =
    | Submit(s: Req, head: bool)
    | ClientGone(s: Req)                       // the caller gives up on the future
    | DispatchOne(o: Oracle)
    | Start(rid: nat)                          // first instruction of a driver
    | CancelUnstarted(rid: nat)                // cancelled before it
    | GateRefused(rid: nat, alive: bool)
    | Spawned(rid: nat, pid: nat, width: nat)
    | Healthy(rid: nat, now: real, alive: bool)
    | Unhealthy(rid: nat, alive: bool)
    | UnhealthyReaped(rid: nat)
    | Served(rid: nat)                         // the anchor alone on the sidecar
    | Launch(rid: nat, gone: set<Req>)         // the anchor opens a fan-out
    | RiderDone(rid: nat, s: Req)
    | Wake(rid: nat, gone: set<Req>)
    | Match(rid: nat)
    | MatchDone(rid: nat)
    | GraceOver(rid: nat, keepWarm: bool, now: real, alive: bool)
    | Unpark(rid: nat, now: real, alive: bool)
    | ParkTimeout(rid: nat, now: real, alive: bool)
    | Abort(rid: nat, alive: bool)             // cancelled, or an exception, at any suspension
    | CleanupOver(rid: nat)
    | RunTeardown(rid: nat, alive: bool)
    | RunReapDead(rid: nat)
    | RunRequeue(slots: seq<Req>)
    | RunBackoff(s: Req)
    | CancelBackoff(s: Req)
    | Stop
    | CloseQueue

  predicate At(st: State, rid: nat, pc: Pc) {
    rid in st.residents && st.residents[rid].pc == pc
  }

  /** The suspension points where a cancellation or exception enters the `finally`. */
  predicate Abortable(pc: Pc) {
    pc != NotStarted && pc != Cleanup && pc != Done
  }

  ghost predicate Enabled(c: Config, st: State, a: Action) {
    match a
    case Submit(s, head) => s !in st.accepted
    case ClientGone(s) => s in st.accepted
    case DispatchOne(o) =>
      && !st.stopped && o.rid !in st.residents
      && BestVictim(st, o.victim)
    case Start(rid) => At(st, rid, NotStarted) && st.residents[rid].inbox != []
    case CancelUnstarted(rid) => At(st, rid, NotStarted)
    case GateRefused(rid, _) => At(st, rid, Gate)
    case Spawned(rid, pid, _) => At(st, rid, Gate) && pid !in st.spawned
    case Healthy(rid, _, _) => At(st, rid, Health)
    case Unhealthy(rid, _) => At(st, rid, Health)
    case UnhealthyReaped(rid) => At(st, rid, ReapUnhealthy)
    case Served(rid) => At(st, rid, Serving) && st.residents[rid].width <= 1
    case Launch(rid, _) => At(st, rid, Serving) && st.residents[rid].width > 1
    case RiderDone(rid, s) => At(st, rid, FanOut) && s in st.residents[rid].inflight
    case Wake(rid, _) => At(st, rid, FanOut) && st.residents[rid].finished != {}
    case Match(rid) => At(st, rid, InGrace)
    case MatchDone(rid) => At(st, rid, MatchServing)
    case GraceOver(rid, _, _, _) => At(st, rid, InGrace)
    case Unpark(rid, _, _) => At(st, rid, Parked) && st.residents[rid].inbox != []
    case ParkTimeout(rid, _, _) => At(st, rid, Parked)
    case Abort(rid, _) => rid in st.residents && Abortable(st.residents[rid].pc)
    case CleanupOver(rid) => At(st, rid, Cleanup)
    case RunTeardown(rid, _) => Teardown(rid) in st.bg && rid in st.residents
    case RunReapDead(rid) => ReapDead(rid) in st.bg && rid in st.residents
    case RunRequeue(slots) => Requeue(slots) in st.bg
    case RunBackoff(s) => Backoff(s) in st.bg
    case CancelBackoff(s) => Backoff(s) in st.bg
    case Stop => true
    case CloseQueue => true
  }

  ghost function Apply(c: Config, st: State, a: Action): State
    requires Enabled(c, st, a)
  {
    match a
    case Submit(s, head) => DoSubmit(c, st, s, head)
    case ClientGone(s) => Resolve(st, s)
    case DispatchOne(o) => Dispatch(c, st, o)
    case Start(rid) => With(st, rid, Started(st.residents[rid]))
    case CancelUnstarted(rid) => Retire(st, rid)
    case GateRefused(rid, alive) => EnterFinally(ResolveOpt(st, st.residents[rid].slot), rid, alive)
    case Spawned(rid, pid, width) =>
      With(st, rid, Booting(st.residents[rid], pid, width)).(spawned := st.spawned + {pid})
    case Healthy(rid, now, alive) => Publish(st, rid, now, alive)
    case Unhealthy(rid, alive) => FailHealth(st, rid, alive)
    case UnhealthyReaped(rid) => EnterFinally(st, rid, false)
    case Served(rid) => With(ResolveOpt(st, st.residents[rid].slot), rid, st.residents[rid].(pc := InGrace))
    case Launch(rid, gone) => DoLaunch(st, rid, gone)
    case RiderDone(rid, s) =>
      With(Resolve(st, s), rid, st.residents[rid].(finished := st.residents[rid].finished + {s}))
    case Wake(rid, gone) => DoWake(st, rid, gone)
    case Match(rid) => TakeMatch(st, rid)
    case MatchDone(rid) => With(ResolveOpt(st, st.residents[rid].active), rid, Unmatched(st.residents[rid]))
    case GraceOver(rid, keepWarm, now, alive) => EndGrace(st, rid, keepWarm, now, alive)
    case Unpark(rid, now, alive) => TakeInbox(st, rid, now, alive)
    case ParkTimeout(rid, now, alive) => EndPark(st, rid, now, alive)
    case Abort(rid, alive) => Unwind(st, rid, alive)
    case CleanupOver(rid) => LeaveFinally(st, rid)
    case RunTeardown(rid, alive) => DoTeardown(st, rid, alive)
    case RunReapDead(rid) => DoReapDead(st, rid)
    case RunRequeue(slots) => RequeueAll(Finish(st, Requeue(slots)), slots)
    case RunBackoff(s) => RequeueAll(Finish(st, Backoff(s)), [s])
    case CancelBackoff(s) => Resolve(Finish(st, Backoff(s)), s)
    case Stop => st.(stopped := true)
    case CloseQueue => DoClose(st)
  }

  /** A run: any sequence of actions, those not enabled being skipped. */
  ghost function Run(c: Config, actions: seq<Action>): State {
    if actions == [] then Init
    else
      var st := Run(c, actions[..|actions| - 1]);
      var a := actions[|actions| - 1];
      if Enabled(c, st, a) then Apply(c, st, a) else st
  }
}
