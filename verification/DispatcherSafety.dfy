/** What every run of the dispatcher guarantees, in terms of its state alone. */
module DispatcherSafety {
  import opened Common
  import opened Dispatcher
  import opened DispatcherInv
  import opened DispatcherMoves
  import opened DispatcherSteps
  import QueueSpec

  // ----- conservation --------------------------------------------------------------------------

  /** Who holds a request: the queue, one inbox, one driver, one driver's cleanup, or one
      pending background task. */
  predicate Holds(st: State, p: Place, s: Req) {
    match p
    case Queued => s in QueueSpec.Contents(st.queue)
    case InInbox(rid) => rid in st.residents && s in st.residents[rid].inbox
    case WithDriver(rid) => rid in st.residents && DriverHas(st.residents[rid], s)
    case InCleanup(rid) => rid in st.residents && s in st.residents[rid].pending
    case InTask(t) => t in st.bg && Carries(t, s)
    case InHand => false
    case Released => false
  }

  lemma HoldsIsHome(st: State, home: map<Req, Place>, p: Place, s: Req)
    requires Placed(st, home, {}) && p != Released
    ensures Holds(st, p, s) <==> HasAt(home, s, p)
  {
    if p.InInbox? || p.WithDriver? || p.InCleanup? {
      if p.rid in st.residents {
        assert ResidentAt(home, p.rid, st.residents[p.rid]);
      } else {
        assert s in home ==> !Owner(home[s], p.rid);
      }
    } else if p.InTask? {
      assert p.task in st.bg && Carries(p.task, s) <==> HasAt(home, s, InTask(p.task));
    }
  }

  lemma OneHolder(st: State, home: map<Req, Place>, s: Req) returns (p: Place)
    requires Placed(st, home, {}) && s in st.accepted && s !in st.done
    ensures Holds(st, p, s) && forall q :: Holds(st, q, s) ==> q == p
  {
    p := home[s];
    HoldsIsHome(st, home, p, s);
    forall q | Holds(st, q, s)
      ensures q == p
    {
      HoldsIsHome(st, home, q, s);
    }
  }

  /** In every reachable state an accepted request whose future is unresolved is held by
      exactly one party. */
  lemma ExactlyOneOwner(c: Config, actions: seq<Action>, s: Req) returns (p: Place)
    requires ValidConfig(c)
    requires var st := Run(c, actions); s in st.accepted && s !in st.done
    ensures var st := Run(c, actions); Holds(st, p, s) && forall q :: Holds(st, q, s) ==> q == p
  {
    var l := RunKeepsInv(c, actions);
    p := OneHolder(Run(c, actions), l.home, s);
  }

  lemma HoldersPlaced(st: State, home: map<Req, Place>)
    requires Placed(st, home, {})
    ensures forall p, s :: Holds(st, p, s) ==> s in st.accepted
    ensures forall p, q, s :: Holds(st, p, s) && Holds(st, q, s) ==> p == q
    ensures Distinct(QueueSpec.Contents(st.queue))
    ensures forall r <- st.residents.Values :: Distinct(r.inbox) && Distinct(r.inflight) && Distinct(r.pending)
  {
    forall p, s | Holds(st, p, s)
      ensures HasAt(home, s, p)
    {
      HoldsIsHome(st, home, p, s);
    }
    forall rid <- st.residents.Keys
      ensures Distinct(st.residents[rid].inbox) && Distinct(st.residents[rid].inflight)
              && Distinct(st.residents[rid].pending)
    {
      assert ResidentAt(home, rid, st.residents[rid]);
    }
  }

  /** Resolved or not, no request is ever held twice: not by two parties, and not twice by
      one; and only accepted requests are held. */
  lemma NeverHeldTwice(c: Config, actions: seq<Action>)
    requires ValidConfig(c)
    ensures var st := Run(c, actions);
            && (forall p, s :: Holds(st, p, s) ==> s in st.accepted)
            && (forall p, q, s :: Holds(st, p, s) && Holds(st, q, s) ==> p == q)
            && Distinct(QueueSpec.Contents(st.queue))
            && (forall r <- st.residents.Values :: Distinct(r.inbox) && Distinct(r.inflight) && Distinct(r.pending))
  {
    var l := RunKeepsInv(c, actions);
    HoldersPlaced(Run(c, actions), l.home);
  }

  // ----- quiescence ----------------------------------------------------------------------------

  /** The queue is closed and every driver and background task has finished. */
  predicate Quiescent(st: State) {
    st.queue.closed && st.bg == {} && forall rid <- st.residents.Keys :: st.residents[rid].pc == Done
  }

  lemma DoneHolds(r: Resident, done: set<Req>)
    requires Quiet(r) && AtPc(r, done, true) && r.pc == Done
    ensures r.inbox == [] && r.pending == [] && r.handle == None && r.booting == None
    ensures forall s :: DriverHas(r, s) ==> s in done
  {
  }

  lemma QuiescentResolved(st: State, home: map<Req, Place>)
    requires Placed(st, home, {}) && Quiescent(st) && forall o <- st.residents.Keys :: Shaped(st, o)
    ensures st.accepted <= st.done
  {
    forall s | s in st.accepted && s !in st.done
      ensures false
    {
      var p := OneHolder(st, home, s);
      match p
      case InInbox(rid) =>
        DoneHolds(st.residents[rid], st.done);
      case WithDriver(rid) =>
        DoneHolds(st.residents[rid], st.done);
      case InCleanup(rid) =>
        DoneHolds(st.residents[rid], st.done);
      case _ =>
    }
  }

  lemma QuiescentReaped(st: State, procs: map<nat, nat>)
    requires Processes(st, procs) && Quiescent(st) && forall o <- st.residents.Keys :: Shaped(st, o)
    ensures forall p <- st.spawned :: p in st.reaps || p in st.exited
  {
    forall p <- st.spawned
      ensures p in st.reaps || p in st.exited
    {
      if p in procs {
        var rid := procs[p];
        assert (rid in st.residents && Records(st.residents[rid], p)) <==> (p in procs && procs[p] == rid);
        DoneHolds(st.residents[rid], st.done);
      }
    }
  }

  /** Once the queue is closed and everything has finished, every accepted request is
      resolved and no sidecar is left behind: each was handed to a reap, once, or was found
      to have exited by itself. */
  lemma QuiescenceLosesNothing(c: Config, actions: seq<Action>)
    requires ValidConfig(c) && Quiescent(Run(c, actions))
    ensures var st := Run(c, actions);
            && st.done == st.accepted
            && forall p <- st.spawned :: (st.reaps[p] == 1 && p !in st.exited) || (st.reaps[p] == 0 && p in st.exited)
  {
    var l := RunKeepsInv(c, actions);
    QuiescentResolved(Run(c, actions), l.home);
    QuiescentReaped(Run(c, actions), l.procs);
  }

  // ----- processes -------------------------------------------------------------------------------

  lemma ProcessFacts(st: State, procs: map<nat, nat>, p: nat)
    requires Processes(st, procs) && p in st.spawned
    ensures st.reaps[p] <= 1
    ensures p in st.reaps || p in st.exited <==> !exists rid :: rid in st.residents && Records(st.residents[rid], p)
    ensures forall a <- st.residents.Keys, b <- st.residents.Keys ::
              Records(st.residents[a], p) && Records(st.residents[b], p) ==> a == b
  {
    forall rid
      ensures (rid in st.residents && Records(st.residents[rid], p)) <==> (p in procs && procs[p] == rid)
    {
    }
    if p in procs {
      assert Records(st.residents[procs[p]], p);
    }
  }

  /** At every suspension point a spawned sidecar is recorded by exactly one resident,
      as its handle or as its booting pid but never both, until it is let go of; it is then
      recorded by nobody, and it is handed to a reap at most once. */
  lemma EverySidecarAccountedFor(c: Config, actions: seq<Action>, p: nat)
    requires ValidConfig(c) && p in Run(c, actions).spawned
    ensures var st := Run(c, actions);
            && st.reaps[p] <= 1
            && (p in st.reaps || p in st.exited <==>
                !exists rid :: rid in st.residents && Records(st.residents[rid], p))
            && (forall a <- st.residents.Keys, b <- st.residents.Keys ::
                  Records(st.residents[a], p) && Records(st.residents[b], p) ==> a == b)
            && forall rid <- st.residents.Keys :: st.residents[rid].handle == None || st.residents[rid].booting == None
  {
    var l := RunKeepsInv(c, actions);
    ProcessFacts(Run(c, actions), l.procs, p);
  }

  // ----- busy residents ----------------------------------------------------------------------------

  /** The suspension points between publishing the slot and going idle. */
  predicate Busy(pc: Pc) {
    pc == Serving || pc == FanOut || pc == InGrace || pc == MatchServing
  }

  lemma BusyShape(r: Resident, done: set<Req>, swept: bool)
    requires Quiet(r) && AtPc(r, done, swept)
    ensures r.life == IdleEvictable ==> r.pc == Parked && r.inbox == [] && r.active == None && r.inflight == []
    ensures r.life == Dead ==> r.inbox == []
    ensures Busy(r.pc) ==> r.life == Active && r.handle.Some? && r.active.Some?
    ensures r.active.Some? || r.inflight != [] ==> r.life != IdleEvictable
    ensures r.pc == FanOut ==> |r.inflight| <= r.width
  {
  }

  /** An idle-evictable resident is parked with an empty inbox and nothing active; a dead
      one is out of the registry with an empty inbox; and while a driver serves, its resident
      is ACTIVE, registered, and its sidecar has not been let go of. */
  lemma BusyNeverEvictable(c: Config, actions: seq<Action>, rid: nat)
    requires ValidConfig(c) && rid in Run(c, actions).residents
    ensures var st := Run(c, actions);
            var r := st.residents[rid];
            && (r.life == IdleEvictable ==> r.pc == Parked && r.inbox == [] && r.active == None && r.inflight == [])
            && (r.life == Dead ==> !IsRegistered(st, rid) && r.inbox == [])
            && (Busy(r.pc) ==> r.life == Active && IsRegistered(st, rid)
                               && r.handle.Some? && r.handle.value !in st.reaps && r.handle.value !in st.exited)
            && (r.active.Some? || r.inflight != [] ==> r.life != IdleEvictable)
            && (r.pc == FanOut ==> |r.inflight| <= r.width)
  {
    var l := RunKeepsInv(c, actions);
    var st := Run(c, actions);
    BusyFacts(c, st, l, rid);
  }

  lemma BusyFacts(c: Config, st: State, l: Ledger, rid: nat)
    requires Inv(c, st, l) && rid in st.residents
    ensures var r := st.residents[rid];
            && (r.life == IdleEvictable ==> r.pc == Parked && r.inbox == [] && r.active == None && r.inflight == [])
            && (r.life == Dead ==> !IsRegistered(st, rid) && r.inbox == [])
            && (Busy(r.pc) ==> r.life == Active && IsRegistered(st, rid)
                               && r.handle.Some? && r.handle.value !in st.reaps && r.handle.value !in st.exited)
            && (r.active.Some? || r.inflight != [] ==> r.life != IdleEvictable)
            && (r.pc == FanOut ==> |r.inflight| <= r.width)
  {
    Unshape(c, st, l, rid);
    var r := st.residents[rid];
    BusyShape(r, st.done, ReapDead(rid) !in st.bg);
    HandleKept(st, l.procs, rid);
  }

  lemma HandleKept(st: State, procs: map<nat, nat>, rid: nat)
    requires Processes(st, procs) && rid in st.residents
    ensures var r := st.residents[rid]; r.handle.Some? ==> r.handle.value !in st.reaps && r.handle.value !in st.exited
  {
    var r := st.residents[rid];
    if r.handle.Some? {
      var p := r.handle.value;
      assert (rid in st.residents && Records(r, p)) <==> (p in procs && procs[p] == rid);
    }
  }

  // ----- the registry ----------------------------------------------------------------------------------

  lemma RegistryFacts(c: Config, st: State)
    requires Registry(c, st)
    ensures |st.registry| <= c.cap
    ensures forall m <- st.registry.Keys :: st.registry[m] in st.residents && st.residents[st.registry[m]].model == m
    ensures forall m <- st.registry.Keys :: c.portBase <= st.residents[st.registry[m]].port < c.portBase + PORT_WINDOW
    ensures forall m <- st.registry.Keys, n <- st.registry.Keys ::
            m != n ==> Apart(st.residents[st.registry[m]], st.residents[st.registry[n]])
  {
  }

  /** At most `cap` models are registered, each under its own tag; their ports are distinct
      and lie in the window; two or more co-residents are all unsplit, on distinct cards;
      and a resident only ever holds requests for its own model. */
  lemma RegistrySound(c: Config, actions: seq<Action>)
    requires ValidConfig(c)
    ensures var st := Run(c, actions);
            && |st.registry| <= c.cap
            && (forall m <- st.registry.Keys ::
                st.registry[m] in st.residents && st.residents[st.registry[m]].model == m
                  && c.portBase <= st.residents[st.registry[m]].port < c.portBase + PORT_WINDOW)
            && (forall m <- st.registry.Keys, n <- st.registry.Keys ::
                  m != n ==> Apart(st.residents[st.registry[m]], st.residents[st.registry[n]]))
            && (forall rid <- st.residents.Keys :: OfModel(st.residents[rid]))
  {
    var l := RunKeepsInv(c, actions);
    var st := Run(c, actions);
    RegistryFacts(c, st);
    forall rid <- st.residents.Keys
      ensures OfModel(st.residents[rid])
    {
      assert Shaped(st, rid);
    }
  }
}
