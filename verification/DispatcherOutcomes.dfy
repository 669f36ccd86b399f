/** Over every run: who is answered, who dies, what happens to processes, and in which order a
    resident takes its work — told from the state before the step. */
module DispatcherOutcomes {
  import opened Common
  import opened Dispatcher
  import opened DispatcherInv
  import opened DispatcherSteps
  import opened DispatcherVerdicts
  import opened DispatcherDeeds
  import DispatcherDefers
  import DispatcherHistory
  import QueueSpec

  // ----- the dispatcher's turn ---------------------------------------------------------------------

  /** What the dispatcher's pop hands out. */
  function Popped(c: Config, st: State, o: Oracle): Option<Req> {
    QueueSpec.PopNext(c.queue, st.queue, o.hint, o.now).1
  }

  function AfterPop(c: Config, st: State, o: Oracle): State {
    st.(queue := QueueSpec.PopNext(c.queue, st.queue, o.hint, o.now).0)
  }

  /** How often `s` has been put off. */
  function Deferrals(st: State, s: Req): nat {
    if s in st.defers then st.defers[s] else 0
  }

  /** The popped request is turned down: its client has gone; or no resident serves its model
      and either there is no room to be made and it has been put off fifty times, or it does not
      fit beside those that stay. */
  predicate TurnedDownNow(c: Config, st: State, s: Req, o: Oracle) {
    || o.gone
    || (!HasResident(st, s.model)
        && if MakesRoom(c, st, o) then !DispatcherVerdicts.Fits(st, Siblings(c, st, o.victim), o.footprint, o.probe)
           else Deferrals(st, s) >= MAX_DISPATCH_DEFERS)
  }

  /** The dispatcher makes room by giving up `rid`: the registry is full, no resident serves the
      model popped, and `rid` is idle, least recently active of all that are. */
  predicate GivenUp(c: Config, st: State, o: Oracle, rid: nat) {
    && Popped(c, st, o).Some? && !o.gone && !HasResident(st, Popped(c, st, o).value.model)
    && Full(c, st) && rid == o.victim && Candidate(st, rid)
  }

  lemma QueueAside(c: Config, st: State, q: QueueSpec.Queue, victim: nat)
    ensures var st1 := st.(queue := q);
            && LiveModels(st1) == LiveModels(st) && Siblings(c, st1, victim) == Siblings(c, st, victim)
            && (forall rid :: Candidate(st1, rid) <==> Candidate(st, rid))
            && (Linked(st) ==> Linked(st1))
  {
    var st1 := st.(queue := q);
    forall rid
      ensures Candidate(st1, rid) <==> Candidate(st, rid)
    {
      assert IsRegistered(st1, rid) <==> IsRegistered(st, rid);
    }
    if Linked(st) {
      forall o <- st1.residents.Keys
        ensures st1.residents[o].life != Dead <==> IsRegistered(st1, o)
      {
        assert IsRegistered(st1, o) <==> IsRegistered(st, o);
      }
    }
  }

  lemma RegistryIsSmall(c: Config, st: State, l: Ledger)
    requires ValidConfig(c) && Inv(c, st, l)
    ensures Linked(st) && |st.registry| < PORT_WINDOW
  {
  }

  /** The routing half of a turn. */
  lemma RouteSettles(c: Config, st: State, s: Req, o: Oracle)
    requires Linked(st) && |st.registry| < PORT_WINDOW && o.rid !in st.residents && !o.gone
    ensures Route(c, st, s, o).done == st.done + if TurnedDownNow(c, st, s, o) then {s} else {}
  {
    if HasResident(st, s.model) {
      HitHandsOver(c, st, s, o);
    } else if MakesRoom(c, st, o) {
      ReservesExactly(c, st, s, o);
    } else {
      MissIs(c, st, s, o);
    }
  }

  lemma TurnedDownAside(c: Config, st: State, q: QueueSpec.Queue, s: Req, o: Oracle)
    ensures TurnedDownNow(c, st.(queue := q), s, o) <==> TurnedDownNow(c, st, s, o)
  {
    QueueAside(c, st, q, o.victim);
    FitsElsewhere(st, st.(queue := q), Siblings(c, st, o.victim), o.footprint, o.probe);
  }

  function SettledByTurn(c: Config, st: State, o: Oracle): set<Req> {
    var got := Popped(c, st, o);
    if got.Some? && TurnedDownNow(c, st, got.value, o) then {got.value} else {}
  }

  lemma TurnIs(c: Config, st: State, o: Oracle)
    ensures var st1, got := AfterPop(c, st, o), Popped(c, st, o);
            Dispatch(c, st, o) == if got.None? then st1
                                  else if o.gone then Resolve(st1, got.value) else Route(c, st1, got.value, o)
  {
  }

  lemma PoppedRoutes(c: Config, st: State, l: Ledger, o: Oracle, s: Req)
    requires ValidConfig(c) && Inv(c, st, l) && o.rid !in st.residents && !o.gone
    ensures var st1 := AfterPop(c, st, o);
            Route(c, st1, s, o).done == st.done + if TurnedDownNow(c, st, s, o) then {s} else {}
  {
    RegistryIsSmall(c, st, l);
    var st1 := AfterPop(c, st, o);
    QueueAside(c, st, st1.queue, o.victim);
    TurnedDownAside(c, st, st1.queue, s, o);
    RouteSettles(c, st1, s, o);
  }

  lemma TurnSettles(c: Config, st: State, l: Ledger, o: Oracle)
    requires ValidConfig(c) && Inv(c, st, l) && Enabled(c, st, DispatchOne(o))
    ensures Dispatch(c, st, o).done == st.done + SettledByTurn(c, st, o)
  {
    TurnIs(c, st, o);
    var got := Popped(c, st, o);
    if got.Some? && !o.gone {
      PoppedRoutes(c, st, l, o, got.value);
    }
  }

  lemma RouteKills(c: Config, st: State, s: Req, o: Oracle, rid: nat)
    requires Linked(st) && |st.registry| < PORT_WINDOW && o.rid !in st.residents && rid in st.residents
    requires st.residents[rid].life != Dead
    ensures var st' := Route(c, st, s, o);
            && rid in st'.residents
            && (st'.residents[rid].life == Dead <==>
                !HasResident(st, s.model) && Full(c, st) && rid == o.victim && Candidate(st, rid))
  {
    if HasResident(st, s.model) {
      HitHandsOver(c, st, s, o);
    } else if MakesRoom(c, st, o) {
      ReservesExactly(c, st, s, o);
    } else {
      MissIs(c, st, s, o);
    }
  }

  lemma TurnKills(c: Config, st: State, l: Ledger, o: Oracle, rid: nat)
    requires ValidConfig(c) && Inv(c, st, l) && Enabled(c, st, DispatchOne(o))
    requires rid in st.residents && st.residents[rid].life != Dead
    ensures var st' := Dispatch(c, st, o);
            rid in st'.residents && (st'.residents[rid].life == Dead <==> GivenUp(c, st, o, rid))
    ensures GivenUp(c, st, o, rid) ==> LeastRecent(st, rid)
  {
    RegistryIsSmall(c, st, l);
    var st1 := AfterPop(c, st, o);
    QueueAside(c, st, st1.queue, o.victim);
    TurnIs(c, st, o);
    var got := Popped(c, st, o);
    if got.Some? && !o.gone {
      RouteKills(c, st1, got.value, o, rid);
      assert HasResident(st1, got.value.model) <==> HasResident(st, got.value.model);
    }
    if GivenUp(c, st, o, rid) {
      assert st.registry[st.residents[rid].model] == rid;
    }
  }

  // ----- what a step comes to ------------------------------------------------------------------------

  /** In every run every step of a driver, a detached teardown or the reaper comes to what the
      table of deeds says. */
  lemma EveryStepDoes(c: Config, actions: seq<Action>, a: Action, rid: nat)
    requires ValidConfig(c) && Enabled(c, Run(c, actions), a) && DispatcherHistory.Actor(a) == Some(rid)
    ensures var st := Run(c, actions); rid in st.residents && Did(st, Apply(c, st, a), rid, DeedOf(st, rid, a))
  {
    var l := RunKeepsInv(c, actions);
    ActorResides(c, Run(c, actions), a, rid);
    StepDoes(c, Run(c, actions), l, a, rid);
  }

  // ----- who is answered -----------------------------------------------------------------------------

  /** The requests whose callers an action answers, if they have not been answered before. */
  function Settles(c: Config, st: State, a: Action): set<Req> {
    match a
    case Submit(_, _) => {}
    case ClientGone(s) => {s}
    case DispatchOne(o) => SettledByTurn(c, st, o)
    case RunRequeue(slots) => if st.queue.closed then Elements(slots) else {}
    case RunBackoff(s) => if st.queue.closed then {s} else {}
    case CancelBackoff(s) => {s}
    case Stop => {}
    case CloseQueue => Elements(QueueSpec.Contents(st.queue))
    case _ =>
      var who := DispatcherHistory.Actor(a);
      if who.Some? && who.value in st.residents then DeedOf(st, who.value, a).resolved else {}
  }

  lemma AsideSettles(c: Config, st: State, a: Action)
    requires Enabled(c, st, a) && DispatcherHistory.Actor(a) == None && !a.DispatchOne?
    ensures Apply(c, st, a).done == st.done + Settles(c, st, a)
  {
    if a.RunBackoff? {
      assert Elements([a.s]) == {a.s};
    }
  }

  lemma ActorResides(c: Config, st: State, a: Action, rid: nat)
    requires Enabled(c, st, a) && DispatcherHistory.Actor(a) == Some(rid)
    ensures rid in st.residents
  {
  }

  lemma StepSettles(c: Config, st: State, l: Ledger, a: Action)
    requires ValidConfig(c) && Inv(c, st, l) && Enabled(c, st, a)
    ensures Apply(c, st, a).done == st.done + Settles(c, st, a)
  {
    var who := DispatcherHistory.Actor(a);
    if who.Some? {
      ActorResides(c, st, a, who.value);
      StepDoes(c, st, l, a, who.value);
    } else if a.DispatchOne? {
      TurnSettles(c, st, l, a.o);
    } else {
      AsideSettles(c, st, a);
    }
  }

  /** In every run a step answers exactly these: whoever gives up; whom the dispatcher turns
      down; the anchor whose gate or health check fails or who has been served; a finished
      rider; riders turned away because their clients have gone; the riders of a fan-out that
      is broken off; the batch and the anchor a cleanup leaves behind; what a dead driver
      abandoned; and whoever waits, or comes back, when the queue is closed. */
  lemma AnsweredExactly(c: Config, actions: seq<Action>, a: Action)
    requires ValidConfig(c) && Enabled(c, Run(c, actions), a)
    ensures var st := Run(c, actions); Apply(c, st, a).done == st.done + Settles(c, st, a)
  {
    var l := RunKeepsInv(c, actions);
    StepSettles(c, Run(c, actions), l, a);
  }

  // ----- who dies ------------------------------------------------------------------------------------

  /** An action ends the life of `rid`, alive until now. */
  predicate Kills(c: Config, st: State, a: Action, rid: nat)
    requires rid in st.residents
  {
    var r := st.residents[rid];
    match a
    case DispatchOne(o) => GivenUp(c, st, o, rid)
    case GateRefused(who, _) => who == rid
    case Healthy(who, _, _) => who == rid && st.stopped
    case Unhealthy(who, alive) => who == rid && !alive
    case UnhealthyReaped(who) => who == rid
    case GraceOver(who, keepWarm, _, _) => who == rid && (!keepWarm || (r.inbox != [] && st.stopped))
    case Unpark(who, _, _) => who == rid && st.stopped
    case ParkTimeout(who, _, _) => who == rid && (r.inbox == [] || st.stopped)
    case Abort(who, _) => who == rid
    case RunReapDead(who) => who == rid
    case _ => false
  }

  lemma DeedKills(c: Config, st: State, a: Action, rid: nat)
    requires Enabled(c, st, a) && DispatcherHistory.Actor(a) == Some(rid) && rid in st.residents
    requires Ready(st.residents[rid]) && st.residents[rid].life != Dead
    ensures DeedOf(st, rid, a).life == Dead <==> Kills(c, st, a, rid)
  {
  }

  lemma OtherKills(c: Config, st: State, a: Action, rid: nat)
    requires rid in st.residents && DispatcherHistory.Actor(a) != Some(rid) && !a.DispatchOne?
    ensures !Kills(c, st, a, rid)
  {
  }

  lemma StepKills(c: Config, st: State, l: Ledger, a: Action, rid: nat)
    requires ValidConfig(c) && Inv(c, st, l) && Enabled(c, st, a)
    requires rid in st.residents && st.residents[rid].life != Dead
    ensures var st' := Apply(c, st, a);
            rid in st'.residents && (st'.residents[rid].life == Dead <==> Kills(c, st, a, rid))
  {
    if a.DispatchOne? {
      TurnKills(c, st, l, a.o, rid);
    } else if DispatcherHistory.Actor(a) == Some(rid) {
      Facts(c, st, l, rid);
      StepDoes(c, st, l, a, rid);
      DeedKills(c, st, a, rid);
    } else {
      DispatcherHistory.OthersSpare(c, st, l, a, rid);
      OtherKills(c, st, a, rid);
    }
  }

  /** In every run a resident dies in exactly these steps: the dispatcher gives it up, which
      takes a full registry, a model nobody serves, and no idle resident less recently active;
      its gate refuses; its sidecar is found dead or reaped after its health check; a stop is
      noticed at the loop head; its grace window ends with nothing to keep warm; its idle
      window ends with an empty inbox; its driver is cancelled or raises; or the reaper finds
      its driver gone. */
  lemma DiesExactly(c: Config, actions: seq<Action>, a: Action, rid: nat)
    requires ValidConfig(c) && Enabled(c, Run(c, actions), a)
    requires rid in Run(c, actions).residents && Run(c, actions).residents[rid].life != Dead
    ensures var st := Run(c, actions);
            var st' := Apply(c, st, a);
            && rid in st'.residents && (st'.residents[rid].life == Dead <==> Kills(c, st, a, rid))
            && (a.DispatchOne? && Kills(c, st, a, rid) ==> LeastRecent(st, rid))
  {
    var l := RunKeepsInv(c, actions);
    StepKills(c, Run(c, actions), l, a, rid);
    if a.DispatchOne? {
      TurnKills(c, Run(c, actions), l, a.o, rid);
    }
  }

  // ----- what becomes of processes ---------------------------------------------------------------------

  /** What the environment says about the process when a step lets go of it. */
  function FoundAlive(a: Action): bool {
    match a
    case GateRefused(_, alive) => alive
    case Healthy(_, _, alive) => alive
    case Unhealthy(_, alive) => alive
    case GraceOver(_, _, _, alive) => alive
    case Unpark(_, _, alive) => alive
    case ParkTimeout(_, _, alive) => alive
    case Abort(_, alive) => alive
    case RunTeardown(_, alive) => alive
    case _ => true
  }

  /** What `d` lets go of is what `r` records; it is reaped if it was found alive, or was still
      booting with nobody having looked, and otherwise written off. */
  predicate LetsGoRightly(r: Resident, d: Deed, alive: bool, unseen: bool) {
    && (d.reaped == {} || d.exited == {})
    && (d.reaped == {} || d.reaped == Just(Process(r))) && (d.exited == {} || d.exited == Just(Process(r)))
    && (d.reaped != {} ==> alive || (unseen && r.booting.Some?))
    && (d.exited != {} ==> !alive && !(unseen && r.booting.Some?))
  }

  /** The steps in which nobody looks whether a booting process lives. */
  predicate Unseen(a: Action) {
    a.Abort? || a.RunTeardown?
  }

  lemma EarlySpares(c: Config, st: State, a: Action)
    requires Enabled(c, st, a) && (StartAction(a) || HealthAction(a)) && Ready(st.residents[a.rid])
    ensures LetsGoRightly(st.residents[a.rid], DeedOf(st, a.rid, a), FoundAlive(a), Unseen(a))
  {
  }

  lemma MiddleSpares(c: Config, st: State, a: Action)
    requires Enabled(c, st, a) && (ServeAction(a) || FanOutAction(a)) && Ready(st.residents[a.rid])
    ensures LetsGoRightly(st.residents[a.rid], DeedOf(st, a.rid, a), FoundAlive(a), Unseen(a))
  {
  }

  lemma WindowSpares(c: Config, st: State, a: Action)
    requires Enabled(c, st, a) && WindowAction(a) && Ready(st.residents[a.rid])
    ensures LetsGoRightly(st.residents[a.rid], DeedOf(st, a.rid, a), FoundAlive(a), Unseen(a))
  {
  }

  lemma ExitSpares(c: Config, st: State, a: Action)
    requires Enabled(c, st, a) && ExitAction(a) && Ready(st.residents[a.rid])
    ensures LetsGoRightly(st.residents[a.rid], DeedOf(st, a.rid, a), FoundAlive(a), Unseen(a))
  {
  }

  lemma ReapSpares(c: Config, st: State, a: Action)
    requires Enabled(c, st, a) && ReapAction(a) && Ready(st.residents[a.rid])
    ensures LetsGoRightly(st.residents[a.rid], DeedOf(st, a.rid, a), FoundAlive(a), Unseen(a))
  {
  }

  lemma DeedSpares(c: Config, st: State, a: Action, rid: nat)
    requires Enabled(c, st, a) && DispatcherHistory.Actor(a) == Some(rid)
    requires rid in st.residents && Ready(st.residents[rid])
    ensures LetsGoRightly(st.residents[rid], DeedOf(st, rid, a), FoundAlive(a), Unseen(a))
  {
    if StartAction(a) || HealthAction(a) {
      EarlySpares(c, st, a);
    } else if ServeAction(a) || FanOutAction(a) {
      MiddleSpares(c, st, a);
    } else if WindowAction(a) {
      WindowSpares(c, st, a);
    } else if ExitAction(a) {
      ExitSpares(c, st, a);
    } else {
      ReapSpares(c, st, a);
    }
  }

  /** The dispatcher, clients and re-queues let go of no process. */
  lemma RestSpares(c: Config, st: State, l: Ledger, a: Action)
    requires ValidConfig(c) && Inv(c, st, l) && Enabled(c, st, a) && DispatcherHistory.Actor(a) == None
    ensures Apply(c, st, a).reaps == st.reaps && Apply(c, st, a).exited == st.exited
  {
    if a.DispatchOne? {
      TurnSpares(c, st, l, a.o);
    } else {
      AsideSpares(c, st, a);
    }
  }

  lemma AsideSpares(c: Config, st: State, a: Action)
    requires Enabled(c, st, a) && DispatcherHistory.Actor(a) == None && !a.DispatchOne?
    ensures Apply(c, st, a).reaps == st.reaps && Apply(c, st, a).exited == st.exited
  {
  }

  lemma RouteSpares(c: Config, st: State, s: Req, o: Oracle)
    requires Linked(st) && |st.registry| < PORT_WINDOW && o.rid !in st.residents
    ensures Route(c, st, s, o).reaps == st.reaps && Route(c, st, s, o).exited == st.exited
  {
    if HasResident(st, s.model) {
      HitHandsOver(c, st, s, o);
    } else if MakesRoom(c, st, o) {
      ReservesExactly(c, st, s, o);
    } else {
      MissIs(c, st, s, o);
    }
  }

  lemma TurnSpares(c: Config, st: State, l: Ledger, o: Oracle)
    requires ValidConfig(c) && Inv(c, st, l) && Enabled(c, st, DispatchOne(o))
    ensures Dispatch(c, st, o).reaps == st.reaps && Dispatch(c, st, o).exited == st.exited
  {
    RegistryIsSmall(c, st, l);
    var st1 := AfterPop(c, st, o);
    QueueAside(c, st, st1.queue, o.victim);
    TurnIs(c, st, o);
    if Popped(c, st, o).Some? && !o.gone {
      RouteSpares(c, st1, Popped(c, st, o).value, o);
    }
  }

  /** In every run a process that a step lets go of was recorded by the resident that stepped;
      it goes to a reap if it was found alive, or was still booting when its driver was broken
      off or torn down, and is written off otherwise: never a live one. */
  lemma NoLiveOneWrittenOff(c: Config, actions: seq<Action>, a: Action, p: nat)
    requires ValidConfig(c) && Enabled(c, Run(c, actions), a)
    requires p !in Run(c, actions).reaps && p !in Run(c, actions).exited
    ensures var st := Run(c, actions);
            var st', who := Apply(c, st, a), DispatcherHistory.Actor(a);
            p in st'.reaps || p in st'.exited ==>
              && who.Some? && who.value in st.residents && Records(st.residents[who.value], p)
              && (p in st'.reaps <==> FoundAlive(a) || (Unseen(a) && st.residents[who.value].booting == Some(p)))
              && (p in st'.exited <==> p !in st'.reaps)
  {
    var st := Run(c, actions);
    var l := RunKeepsInv(c, actions);
    var who := DispatcherHistory.Actor(a);
    if who.Some? {
      ActorResides(c, st, a, who.value);
      Facts(c, st, l, who.value);
      StepDoes(c, st, l, a, who.value);
      DeedSpares(c, st, a, who.value);
      LetGo(st, Apply(c, st, a), who.value, DeedOf(st, who.value, a), FoundAlive(a), Unseen(a), p);
    } else {
      RestSpares(c, st, l, a);
    }
  }

  lemma LetGo(st: State, st': State, rid: nat, d: Deed, alive: bool, unseen: bool, p: nat)
    requires rid in st.residents && Ready(st.residents[rid]) && Did(st, st', rid, d)
    requires LetsGoRightly(st.residents[rid], d, alive, unseen) && p !in st.reaps && p !in st.exited
    ensures p in st'.reaps || p in st'.exited ==>
              var r := st.residents[rid];
              && Records(r, p) && (p in st'.reaps <==> alive || (unseen && r.booting == Some(p)))
              && (p in st'.exited <==> p !in st'.reaps)
  {
  }

  // ----- a resident takes its work in order ---------------------------------------------------------------

  function InboxOf(st: State, rid: nat): seq<Req> {
    if rid in st.residents then st.residents[rid].inbox else []
  }

  /** What came into an inbox at its end, and what left it at its front. */
  function Arrived(before: seq<Req>, after: seq<Req>): seq<Req> {
    if |after| > |before| then after[|before|..] else []
  }

  function Departed(before: seq<Req>, after: seq<Req>): seq<Req> {
    if |after| < |before| then before[..|before| - |after|] else []
  }

  /** Front or end, nothing else. */
  predicate Moves(before: seq<Req>, after: seq<Req>) {
    before + Arrived(before, after) == Departed(before, after) + after
  }

  lemma MovesByFront(before: seq<Req>, k: nat)
    requires k <= |before|
    ensures Moves(before, before[k..])
  {
    assert before == before[..k] + before[k..];
  }

  lemma RefillTakes(r: Resident, stay: seq<Req>, gone: set<Req>) returns (k: nat)
    ensures k <= |r.inbox| && Refills(r, stay, gone).inbox == r.inbox[k..]
  {
    k := Taken(r.inbox, gone, Dispatcher.Left(r.width, stay));
  }

  /** A step that is no refill leaves the inbox, takes its head, or empties it. */
  lemma OtherTakes(st: State, rid: nat, a: Action)
    requires rid in st.residents && !a.Launch? && !a.Wake?
    ensures var inbox, after := st.residents[rid].inbox, DeedOf(st, rid, a).inbox;
            after == inbox || after == [] || (inbox != [] && after == inbox[1..])
  {
  }

  lemma TakesSome(inbox: seq<Req>, after: seq<Req>) returns (k: nat)
    requires after == inbox || after == [] || (inbox != [] && after == inbox[1..])
    ensures k <= |inbox| && after == inbox[k..]
  {
    k := if after == inbox then 0 else if after == [] then |inbox| else 1;
  }

  /** How many entries a step takes out of the inbox. */
  lemma DeedTakes(st: State, rid: nat, a: Action) returns (k: nat)
    requires rid in st.residents
    ensures k <= |st.residents[rid].inbox| && DeedOf(st, rid, a).inbox == st.residents[rid].inbox[k..]
  {
    var r := st.residents[rid];
    if a.Launch? && r.slot.Some? {
      k := RefillTakes(r, [r.slot.value], a.gone);
    } else if a.Launch? {
      k := 0;
    } else if a.Wake? {
      k := RefillTakes(r, Without(r.inflight, r.finished), a.gone);
    } else {
      OtherTakes(st, rid, a);
      k := TakesSome(r.inbox, DeedOf(st, rid, a).inbox);
    }
  }

  ghost predicate IdleEmpty(st: State) {
    forall x <- st.residents.Keys :: st.residents[x].life == IdleEvictable ==> st.residents[x].inbox == []
  }

  lemma MovesByEnd(before: seq<Req>, more: seq<Req>)
    ensures Moves(before, before + more)
  {
  }

  lemma HitAppends(c: Config, st: State, s: Req, o: Oracle, rid: nat) returns (more: seq<Req>)
    requires HasResident(st, s.model)
    ensures InboxOf(Route(c, st, s, o), rid) == InboxOf(st, rid) + more
  {
    HitHandsOver(c, st, s, o);
    more := if rid == st.registry[s.model] then [s] else [];
  }

  /** A victim's inbox was empty, so its death takes nothing out of it. */
  lemma MissAppends(c: Config, st: State, st': State, victim: nat, rid: nat) returns (more: seq<Req>)
    requires IdleEmpty(st) && OnlyVictimDied(c, st, st', victim) && (Full(c, st) ==> Candidate(st, victim))
    ensures InboxOf(st', rid) == InboxOf(st, rid) + more
  {
    more := if rid in st.residents then [] else InboxOf(st', rid);
  }

  lemma RouteAppends(c: Config, st: State, s: Req, o: Oracle, rid: nat) returns (more: seq<Req>)
    requires IdleEmpty(st) && Linked(st) && |st.registry| < PORT_WINDOW && o.rid !in st.residents
    ensures InboxOf(Route(c, st, s, o), rid) == InboxOf(st, rid) + more
  {
    if HasResident(st, s.model) {
      more := HitAppends(c, st, s, o, rid);
    } else if MakesRoom(c, st, o) {
      ReservesExactly(c, st, s, o);
      more := MissAppends(c, st, Route(c, st, s, o), o.victim, rid);
    } else {
      MissIs(c, st, s, o);
      more := [];
    }
  }

  lemma IdleIsEmpty(c: Config, st: State, l: Ledger)
    requires Inv(c, st, l)
    ensures IdleEmpty(st)
  {
    forall x <- st.residents.Keys
      ensures Ready(st.residents[x])
    {
      Facts(c, st, l, x);
    }
  }

  lemma IdleAside(st: State, st1: State)
    requires IdleEmpty(st) && st1.residents == st.residents
    ensures IdleEmpty(st1)
  {
  }

  /** The dispatcher only ever adds to an inbox, at its end. */
  lemma TurnAppends(c: Config, st: State, l: Ledger, o: Oracle, rid: nat) returns (more: seq<Req>)
    requires ValidConfig(c) && Inv(c, st, l) && Enabled(c, st, DispatchOne(o))
    ensures InboxOf(Dispatch(c, st, o), rid) == InboxOf(st, rid) + more
  {
    RegistryIsSmall(c, st, l);
    IdleIsEmpty(c, st, l);
    var st1 := AfterPop(c, st, o);
    QueueAside(c, st, st1.queue, o.victim);
    IdleAside(st, st1);
    TurnIs(c, st, o);
    more := [];
    if Popped(c, st, o).Some? && !o.gone {
      more := RouteAppends(c, st1, Popped(c, st, o).value, o, rid);
    }
  }

  lemma OwnMoves(c: Config, st: State, l: Ledger, a: Action, rid: nat)
    requires Inv(c, st, l) && Enabled(c, st, a) && rid in st.residents && DispatcherHistory.Actor(a) == Some(rid)
    ensures Moves(InboxOf(st, rid), InboxOf(Apply(c, st, a), rid))
  {
    StepDoes(c, st, l, a, rid);
    var k := DeedTakes(st, rid, a);
    MovesByFront(st.residents[rid].inbox, k);
  }

  lemma OtherMoves(c: Config, st: State, l: Ledger, a: Action, rid: nat)
    requires ValidConfig(c) && Inv(c, st, l) && Enabled(c, st, a) && !a.DispatchOne?
    requires rid in st.residents && DispatcherHistory.Actor(a) != Some(rid)
    ensures Moves(InboxOf(st, rid), InboxOf(Apply(c, st, a), rid))
  {
    DispatcherHistory.OthersSpare(c, st, l, a, rid);
    MovesByEnd(InboxOf(st, rid), []);
  }

  lemma StepMoves(c: Config, st: State, l: Ledger, a: Action, rid: nat)
    requires ValidConfig(c) && Inv(c, st, l) && Enabled(c, st, a)
    ensures Moves(InboxOf(st, rid), InboxOf(Apply(c, st, a), rid))
  {
    if a.DispatchOne? {
      var more := TurnAppends(c, st, l, a.o, rid);
      MovesByEnd(InboxOf(st, rid), more);
    } else if rid !in st.residents {
      MovesByEnd([], InboxOf(Apply(c, st, a), rid));
    } else if DispatcherHistory.Actor(a) == Some(rid) {
      OwnMoves(c, st, l, a, rid);
    } else {
      OtherMoves(c, st, l, a, rid);
    }
  }

  /** Along a run, everything that came into the inbox of `rid`, and everything that left it. */
  ghost function Received(c: Config, actions: seq<Action>, rid: nat): seq<Req> {
    if actions == [] then []
    else
      var before := actions[..|actions| - 1];
      Received(c, before, rid) + Arrived(InboxOf(Run(c, before), rid), InboxOf(Run(c, actions), rid))
  }

  ghost function TakenOut(c: Config, actions: seq<Action>, rid: nat): seq<Req> {
    if actions == [] then []
    else
      var before := actions[..|actions| - 1];
      TakenOut(c, before, rid) + Departed(InboxOf(Run(c, before), rid), InboxOf(Run(c, actions), rid))
  }

  lemma Chain(got: seq<Req>, gone: seq<Req>, before: seq<Req>, after: seq<Req>)
    requires got == gone + before && Moves(before, after)
    ensures got + Arrived(before, after) == gone + Departed(before, after) + after
  {
    var j, f := Arrived(before, after), Departed(before, after);
    assert gone + before + j == gone + (before + j);
    assert gone + (f + after) == gone + f + after;
  }

  /** Over every run a resident takes its work first-come, first-served: what has left its
      inbox, followed by what is still in it, is what came in, in that order. */
  lemma {:induction false} InboxIsFifo(c: Config, actions: seq<Action>, rid: nat)
    requires ValidConfig(c)
    ensures Received(c, actions, rid) == TakenOut(c, actions, rid) + InboxOf(Run(c, actions), rid)
    decreases |actions|
  {
    if actions != [] {
      var before, a := actions[..|actions| - 1], actions[|actions| - 1];
      InboxIsFifo(c, before, rid);
      var b, n := InboxOf(Run(c, before), rid), InboxOf(Run(c, actions), rid);
      if Enabled(c, Run(c, before), a) {
        var l := RunKeepsInv(c, before);
        StepMoves(c, Run(c, before), l, a, rid);
      }
      Chain(Received(c, before, rid), TakenOut(c, before, rid), b, n);
    }
  }

  // ----- who touches the queue ------------------------------------------------------------------------------

  /** The queue after an action. */
  function QueueAfter(c: Config, st: State, a: Action): QueueSpec.Queue {
    match a
    case Submit(s, head) =>
      var admission := if head then QueueSpec.EnqueueHead(st.queue, s) else QueueSpec.Enqueue(c.queue, st.queue, s);
      if admission.Admitted? then admission.queue else st.queue
    case DispatchOne(o) => QueueSpec.PopNext(c.queue, st.queue, o.hint, o.now).0
    case Match(rid) =>
      if rid in st.residents && st.residents[rid].slot.Some?
      then QueueSpec.PopMatchedThread(st.queue, st.residents[rid].slot.value.thread, st.residents[rid].model).0
      else st.queue
    case CleanupOver(rid) =>
      if rid !in st.residents || st.queue.closed then st.queue
      else QueueSpec.PushAll(st.queue, st.residents[rid].pending)
    case RunRequeue(slots) => if st.queue.closed then st.queue else QueueSpec.PushAll(st.queue, slots)
    case RunBackoff(s) => if st.queue.closed then st.queue else QueueSpec.PushAll(st.queue, [s])
    case CloseQueue => QueueSpec.Close(st.queue).0
    case _ => st.queue
  }

  lemma RouteQueue(c: Config, st: State, s: Req, o: Oracle)
    requires Linked(st) && |st.registry| < PORT_WINDOW && o.rid !in st.residents
    ensures Route(c, st, s, o).queue == st.queue
  {
    if HasResident(st, s.model) {
      HitHandsOver(c, st, s, o);
    } else if MakesRoom(c, st, o) {
      ReservesExactly(c, st, s, o);
    } else {
      MissIs(c, st, s, o);
    }
  }

  lemma TurnQueue(c: Config, st: State, l: Ledger, o: Oracle)
    requires ValidConfig(c) && Inv(c, st, l) && Enabled(c, st, DispatchOne(o))
    ensures Dispatch(c, st, o).queue == AfterPop(c, st, o).queue
  {
    RegistryIsSmall(c, st, l);
    var st1 := AfterPop(c, st, o);
    QueueAside(c, st, st1.queue, o.victim);
    TurnIs(c, st, o);
    if Popped(c, st, o).Some? && !o.gone {
      RouteQueue(c, st1, Popped(c, st, o).value, o);
    }
  }

  lemma DriverQueue(c: Config, st: State, l: Ledger, a: Action)
    requires Inv(c, st, l) && Enabled(c, st, a) && DispatcherHistory.Actor(a).Some? && !a.Match? && !a.CleanupOver?
    ensures Apply(c, st, a).queue == st.queue
  {
    if StartAction(a) || HealthAction(a) {
      DispatcherDefers.EarlyCounts(c, st, a);
    } else if ServeAction(a) || FanOutAction(a) {
      DispatcherDefers.ServingCounts(c, st, a);
    } else if WindowAction(a) {
      DispatcherDefers.WindowCounts(c, st, a);
    } else if ExitAction(a) {
      DispatcherDefers.ExitCounts(c, st, a);
    } else {
      DispatcherDefers.ReapCounts(c, st, a);
    }
  }

  lemma MatchQueue(c: Config, st: State, rid: nat)
    requires rid in st.residents
    requires var r := st.residents[rid]; r.slot.Some? ==> r.slot.value.model == r.model
    ensures TakeMatch(st, rid).queue == QueueAfter(c, st, Match(rid))
  {
    var r := st.residents[rid];
    if r.slot.Some? {
      NoneKeepsQueue(st.queue, r.slot.value.thread, r.model);
    }
  }

  lemma NoneKeepsQueue(q: QueueSpec.Queue, thread: string, model: string)
    ensures var (after, got) := QueueSpec.PopMatchedThread(q, thread, model); got == None ==> after == q
  {
    QueueSpec.MatchedPopExactly(q, thread, model);
  }

  lemma LeaveQueue(st: State, rid: nat)
    requires rid in st.residents
    ensures LeaveFinally(st, rid).queue
            == if st.queue.closed then st.queue else QueueSpec.PushAll(st.queue, st.residents[rid].pending)
  {
  }

  lemma AsideQueue(c: Config, st: State, a: Action)
    requires Enabled(c, st, a) && DispatcherHistory.Actor(a) == None && !a.DispatchOne?
    ensures Apply(c, st, a).queue == QueueAfter(c, st, a)
  {
  }

  lemma ActorQueue(c: Config, st: State, l: Ledger, a: Action)
    requires Inv(c, st, l) && Enabled(c, st, a) && DispatcherHistory.Actor(a).Some?
    ensures Apply(c, st, a).queue == QueueAfter(c, st, a)
  {
    if a.Match? {
      Facts(c, st, l, a.rid);
      MatchQueue(c, st, a.rid);
    } else if a.CleanupOver? {
      LeaveQueue(st, a.rid);
    } else {
      DriverQueue(c, st, l, a);
    }
  }

  lemma StepQueue(c: Config, st: State, l: Ledger, a: Action)
    requires ValidConfig(c) && Inv(c, st, l) && Enabled(c, st, a)
    ensures Apply(c, st, a).queue == QueueAfter(c, st, a)
  {
    if a.DispatchOne? {
      TurnQueue(c, st, l, a.o);
    } else if DispatcherHistory.Actor(a).Some? {
      ActorQueue(c, st, l, a);
    } else {
      AsideQueue(c, st, a);
    }
  }

  /** In every run the queue changes in exactly these steps: an admission, the dispatcher's pop,
      a follow-up taken in the grace window, a batch or a backed-off request coming back while
      it is open, and the close. */
  lemma QueueTouchedExactly(c: Config, actions: seq<Action>, a: Action)
    requires ValidConfig(c) && Enabled(c, Run(c, actions), a)
    ensures Apply(c, Run(c, actions), a).queue == QueueAfter(c, Run(c, actions), a)
  {
    var l := RunKeepsInv(c, actions);
    StepQueue(c, Run(c, actions), l, a);
  }
}
