/** The invariant of the dispatcher and what each critical section does to it. */
module DispatcherInv {
  import opened Common
  import opened Dispatcher
  import QueueSpec

  // ----- who holds what ------------------------------------------------------------------

  datatype Place =
    | Queued | InInbox(rid: nat) | WithDriver(rid: nat) | InCleanup(rid: nat) | InTask(task: Task)
    | InHand      // inside one atomic step only
    | Released    // nobody holds it any more

  /** Where each accepted request is, which resident records each unreleased process, and
      what the current step has in its hand: nothing, between actions. */
  datatype Ledger = Ledger(home: map<Req, Place>, procs: map<nat, nat>, hand: set<Req>)

  predicate HasAt(home: map<Req, Place>, s: Req, p: Place) {
    s in home && home[s] == p
  }

  predicate DriverHas(r: Resident, s: Req) {
    r.slot == Some(s) || r.active == Some(s) || s in r.inflight
  }

  predicate Carries(t: Task, s: Req) {
    match t
    case Requeue(slots) => s in slots
    case Backoff(slot) => s == slot
    case _ => false
  }

  ghost predicate QueueAt(home: map<Req, Place>, q: QueueSpec.Queue) {
    && Distinct(QueueSpec.Contents(q))
    && (forall s :: s in QueueSpec.Contents(q) <==> HasAt(home, s, Queued))
    && (q.closed ==> QueueSpec.Contents(q) == [])
  }

  ghost predicate ResidentAt(home: map<Req, Place>, rid: nat, r: Resident) {
    && Distinct(r.inbox) && Distinct(r.pending) && Distinct(r.inflight)
    && (forall s :: s in r.inbox <==> HasAt(home, s, InInbox(rid)))
    && (forall s :: DriverHas(r, s) <==> HasAt(home, s, WithDriver(rid)))
    && (forall s :: s in r.pending <==> HasAt(home, s, InCleanup(rid)))
  }

  ghost predicate TasksAt(home: map<Req, Place>, bg: set<Task>) {
    && (forall t, s :: t in bg && Carries(t, s) <==> HasAt(home, s, InTask(t)))
    && (forall t <- bg :: t.Requeue? ==> t.slots != [] && Distinct(t.slots))
  }

  predicate Owner(p: Place, rid: nat) {
    p == InInbox(rid) || p == WithDriver(rid) || p == InCleanup(rid)
  }

  ghost predicate Placed(st: State, home: map<Req, Place>, hand: set<Req>) {
    && home.Keys == st.accepted
    && QueueAt(home, st.queue)
    && (forall rid <- st.residents.Keys :: ResidentAt(home, rid, st.residents[rid]))
    && TasksAt(home, st.bg)
    && (forall s, rid {:trigger Owner(home[s], rid)} :: s in home && Owner(home[s], rid) ==> rid in st.residents)
    && (forall s :: HasAt(home, s, Released) ==> s in st.done)
    && (forall s :: s in hand <==> HasAt(home, s, InHand))
  }

  // ----- processes -------------------------------------------------------------------------

  predicate Records(r: Resident, p: nat) {
    r.handle == Some(p) || r.booting == Some(p)
  }

  ghost predicate Processes(st: State, procs: map<nat, nat>) {
    && (forall p, rid :: (rid in st.residents && Records(st.residents[rid], p)) <==> (p in procs && procs[p] == rid))
    && (forall rid <- st.residents.Keys :: st.residents[rid].handle == None || st.residents[rid].booting == None)
    && (forall p <- procs.Keys :: p in st.spawned && p !in st.reaps && p !in st.exited)
    && (forall p <- st.spawned :: p in procs || p in st.reaps || p in st.exited)
    && (forall p :: p in st.reaps ==> st.reaps[p] == 1 && p in st.spawned)
    && st.exited <= st.spawned
    && (forall p <- st.exited :: p !in st.reaps)
  }

  // ----- the registry ------------------------------------------------------------------------

  predicate Apart(a: Resident, b: Resident) {
    a.port != b.port && a.split == NoneSplit && b.split == NoneSplit && a.gpu != b.gpu
  }

  /** The registry and the live residents are each other's image. */
  ghost predicate Linked(st: State) {
    && (forall rid <- st.residents.Keys :: st.residents[rid].life != Dead <==> IsRegistered(st, rid))
    && (forall m <- st.registry.Keys :: st.registry[m] in st.residents && st.residents[st.registry[m]].model == m)
  }

  /** Registered residents have ports of the window and never share a port or a card. */
  ghost predicate Spread(c: Config, st: State) {
    && (forall m <- st.registry.Keys :: st.registry[m] in st.residents
          && c.portBase <= st.residents[st.registry[m]].port < c.portBase + PORT_WINDOW)
    && (forall m <- st.registry.Keys, n <- st.registry.Keys ::
          m != n ==> Apart(st.residents[st.registry[m]], st.residents[st.registry[n]]))
  }

  ghost predicate Registry(c: Config, st: State) {
    Linked(st) && Spread(c, st) && |st.registry| <= c.cap
  }

  // ----- one resident at its driver's suspension point -----------------------------------------

  predicate SettledIn(s: Option<Req>, done: set<Req>) {
    s.Some? && s.value in done
  }

  ghost predicate OfModel(r: Resident) {
    && (forall s <- r.inbox :: s.model == r.model)
    && (forall s <- r.inflight :: s.model == r.model)
    && (forall s <- r.pending :: s.model == r.model)
    && (r.slot.Some? ==> r.slot.value.model == r.model)
    && (r.active.Some? ==> r.active.value.model == r.model)
  }

  ghost predicate Quiet(r: Resident) {
    && OfModel(r)
    && (r.tornDown ==> r.life == Dead && r.handle == None && r.booting == None)
    && (r.life == Dead ==> r.inbox == [])
    && (r.life == IdleEvictable ==> r.pc == Parked && r.inbox == [])
    && (r.pc != FanOut ==> r.inflight == [])
    && (r.pc != Cleanup ==> r.pending == [])
  }

  predicate AtPc(r: Resident, done: set<Req>, swept: bool) {
    match r.pc
    case NotStarted =>
      r.life == ReservedLoading && r.inbox != [] && r.slot == None && r.active == None && r.handle == None
          && r.booting == None
    case Gate =>
      r.life == ReservedLoading && r.slot.Some? && r.active == None && r.handle == None && r.booting == None
    case Health =>
      r.life == ReservedLoading && r.slot.Some? && r.active == None && r.handle == None && r.booting.Some?
    case ReapUnhealthy =>
      r.life == ReservedLoading && SettledIn(r.slot, done) && r.active == None && r.handle == None && r.booting == None
    case Serving =>
      r.life == Active && r.slot.Some? && r.active == r.slot && r.handle.Some?
    case FanOut =>
      && r.life == Active && r.slot.Some? && r.active == r.slot && r.handle.Some?
      && (r.slot.value in r.inflight || r.slot.value in done)
      && r.inflight != [] && |r.inflight| <= r.width
      && (forall s <- r.finished :: s in r.inflight && s in done)
    case InGrace =>
      r.life == Active && SettledIn(r.slot, done) && r.active == r.slot && r.handle.Some?
    case MatchServing =>
      r.life == Active && SettledIn(r.slot, done) && r.active.Some? && r.handle.Some?
    case Parked =>
      && SettledIn(r.slot, done) && r.active == None && r.booting == None
      && (r.life == Active || r.life == IdleEvictable || r.life == Dead)
      && (r.life == Active ==> r.inbox != [])
      && (r.handle == None ==> r.tornDown)
    case Cleanup =>
      r.tornDown && r.slot.Some?
    case Done =>
      && r.slot == None && r.handle == None && r.booting == None
      && (r.life == Dead || (r.life == ReservedLoading && r.active == None))
      && (swept ==> r.life == Dead && (r.active.Some? ==> r.active.value in done))
  }

  ghost predicate Shaped(st: State, rid: nat)
    requires rid in st.residents
  {
    var r := st.residents[rid];
    Quiet(r) && AtPc(r, st.done, ReapDead(rid) !in st.bg)
  }

  /** Everybody but `rid` is at a proper suspension point. */
  ghost predicate Others(st: State, rid: nat) {
    forall o <- st.residents.Keys :: o != rid ==> Shaped(st, o)
  }

  ghost predicate Tasks(st: State) {
    && (forall o :: Teardown(o) in st.bg ==> o in st.residents && st.residents[o].life == Dead)
    && (forall o :: ReapDead(o) in st.bg ==> o in st.residents && st.residents[o].pc == Done)
  }

  /** What every critical section keeps, also between the halves of one action. */
  ghost predicate Core(c: Config, st: State, l: Ledger) {
    && Placed(st, l.home, l.hand)
    && Processes(st, l.procs)
    && Registry(c, st)
    && Tasks(st)
    && st.done <= st.accepted
  }

  ghost predicate Inv(c: Config, st: State, l: Ledger) {
    && Core(c, st, l)
    && forall o <- st.residents.Keys :: Shaped(st, o)
  }

  lemma InitInv(c: Config)
    ensures Inv(c, Init, Ledger(map[], map[], {}))
  {
  }

  // ----- moving requests ------------------------------------------------------------------------

  function Move(home: map<Req, Place>, ss: set<Req>, p: Place): (h: map<Req, Place>)
    ensures h.Keys == home.Keys + ss
    ensures forall s, q :: HasAt(h, s, q) <==> if s in ss then q == p else HasAt(home, s, q)
  {
    home + map s <- ss :: p
  }

  predicate Elsewhere(home: map<Req, Place>, ss: set<Req>, p: Place) {
    forall s <- ss :: !HasAt(home, s, p)
  }

  lemma QueueKept(home: map<Req, Place>, q: QueueSpec.Queue, ss: set<Req>, p: Place)
    requires QueueAt(home, q) && Elsewhere(home, ss, Queued) && p != Queued
    ensures QueueAt(Move(home, ss, p), q)
  {
  }

  lemma TasksKept(home: map<Req, Place>, bg: set<Task>, ss: set<Req>, p: Place)
    requires TasksAt(home, bg) && !p.InTask? && forall s <- ss :: s in home ==> !home[s].InTask?
    ensures TasksAt(Move(home, ss, p), bg)
  {
    forall t, s
      ensures t in bg && Carries(t, s) <==> HasAt(Move(home, ss, p), s, InTask(t))
    {
      assert t in bg && Carries(t, s) <==> HasAt(home, s, InTask(t));
    }
  }

  lemma ResidentKept(home: map<Req, Place>, rid: nat, r: Resident, ss: set<Req>, p: Place)
    requires ResidentAt(home, rid, r) && !Owner(p, rid) && forall s <- ss :: s in home ==> !Owner(home[s], rid)
    ensures ResidentAt(Move(home, ss, p), rid, r)
  {
  }

  /** Requests move to one place; only the residents in `who` are involved. */
  lemma PlacedAfter(st: State, st': State, home: map<Req, Place>, hand: set<Req>, who: set<nat>, ss: set<Req>, p: Place)
    requires Placed(st, home, hand)
    requires st'.residents.Keys == st.residents.Keys + who
    requires forall o <- st.residents.Keys :: o !in who ==> st'.residents[o] == st.residents[o]
    requires forall s <- ss, o :: s in home && Owner(home[s], o) ==> o in who
    requires forall o :: Owner(p, o) ==> o in who
    requires var h := Move(home, ss, p);
             && QueueAt(h, st'.queue) && TasksAt(h, st'.bg)
             && forall o <- who :: ResidentAt(h, o, st'.residents[o])
    requires st.done <= st'.done && (p == Released ==> ss <= st'.done)
    requires st'.accepted == st.accepted + ss
    ensures Placed(st', Move(home, ss, p), if p == InHand then hand + ss else hand - ss)
  {
    var h := Move(home, ss, p);
    forall o <- st'.residents.Keys
      ensures ResidentAt(h, o, st'.residents[o])
    {
      if o !in who {
        assert ResidentAt(home, o, st.residents[o]);
        ResidentKept(home, o, st.residents[o], ss, p);
      }
    }
    forall s, o | s in h && Owner(h[s], o)
      ensures o in st'.residents
    {
      if s !in ss {
        assert Owner(home[s], o);
      }
    }
  }

  // ----- the other components -----------------------------------------------------------------

  /** The parts of a resident the registry depends on. */
  predicate SameIdentity(r: Resident, r': Resident) {
    && r'.model == r.model && r'.port == r.port && r'.gpu == r.gpu && r'.split == r.split
    && (r'.life == Dead <==> r.life == Dead)
  }

  lemma LinkedKept(st: State, st': State, rid: nat)
    requires Linked(st) && rid in st.residents && rid in st'.residents
    requires SameIdentity(st.residents[rid], st'.residents[rid])
    requires st'.residents == st.residents[rid := st'.residents[rid]] && st'.registry == st.registry
    ensures Linked(st')
  {
    forall o <- st'.residents.Keys
      ensures st'.residents[o].life != Dead <==> IsRegistered(st', o)
    {
      assert IsRegistered(st', o) <==> IsRegistered(st, o);
    }
  }

  lemma SpreadKept(c: Config, st: State, st': State, rid: nat)
    requires Spread(c, st) && rid in st.residents && rid in st'.residents
    requires SameIdentity(st.residents[rid], st'.residents[rid])
    requires st'.residents == st.residents[rid := st'.residents[rid]] && st'.registry == st.registry
    ensures Spread(c, st')
  {
    forall m <- st'.registry.Keys, n <- st'.registry.Keys | m != n
      ensures Apart(st'.residents[st'.registry[m]], st'.residents[st'.registry[n]])
    {
      assert Apart(st.residents[st.registry[m]], st.residents[st.registry[n]]);
    }
  }

  lemma RegistryKept(c: Config, st: State, st': State, rid: nat)
    requires Registry(c, st) && rid in st.residents && rid in st'.residents
    requires SameIdentity(st.residents[rid], st'.residents[rid])
    requires st'.residents == st.residents[rid := st'.residents[rid]] && st'.registry == st.registry
    ensures Registry(c, st')
  {
    LinkedKept(st, st', rid);
    SpreadKept(c, st, st', rid);
  }

  predicate SameProcess(r: Resident, r': Resident) {
    r'.handle == r.handle && r'.booting == r.booting
  }

  lemma ProcessesKept(st: State, st': State, procs: map<nat, nat>, rid: nat)
    requires Processes(st, procs) && rid in st.residents && rid in st'.residents
    requires SameProcess(st.residents[rid], st'.residents[rid])
    requires st'.residents == st.residents[rid := st'.residents[rid]]
    requires st'.spawned == st.spawned && st'.reaps == st.reaps && st'.exited == st.exited
    ensures Processes(st', procs)
  {
    forall p, o
      ensures (o in st'.residents && Records(st'.residents[o], p)) <==> (p in procs && procs[p] == o)
    {
      assert (o in st.residents && Records(st.residents[o], p)) <==> (p in procs && procs[p] == o);
    }
  }

  lemma RegistrySame(c: Config, st: State, st': State)
    requires Registry(c, st) && st'.residents == st.residents && st'.registry == st.registry
    ensures Registry(c, st')
  {
    forall o <- st'.residents.Keys
      ensures st'.residents[o].life != Dead <==> IsRegistered(st', o)
    {
      assert IsRegistered(st', o) <==> IsRegistered(st, o);
    }
  }

  lemma ProcessesSame(st: State, st': State, procs: map<nat, nat>)
    requires Processes(st, procs) && st'.residents == st.residents
    requires st'.spawned == st.spawned && st'.reaps == st.reaps && st'.exited == st.exited
    ensures Processes(st', procs)
  {
  }

  lemma AtPcGrows(r: Resident, done: set<Req>, done': set<Req>, swept: bool)
    requires AtPc(r, done, swept) && done <= done'
    ensures AtPc(r, done', swept)
  {
  }

  lemma OthersKept(st: State, st': State, rid: nat)
    requires Others(st, rid)
    requires st'.residents.Keys == st.residents.Keys + {rid}
    requires forall o <- st.residents.Keys :: o != rid ==> st'.residents[o] == st.residents[o]
    requires st.done <= st'.done
    requires forall o :: o != rid ==> (ReapDead(o) in st'.bg <==> ReapDead(o) in st.bg)
    ensures Others(st', rid)
  {
    forall o <- st'.residents.Keys | o != rid
      ensures Shaped(st', o)
    {
      assert Shaped(st, o);
      AtPcGrows(st.residents[o], st.done, st'.done, ReapDead(o) !in st.bg);
    }
  }

  /** Rewriting one resident leaves everybody else where they were. */
  lemma OthersAround(st: State, st1: State, rid: nat, r1: Resident)
    requires Others(st, rid)
    requires st1.residents == st.residents[rid := r1] && st.done <= st1.done
    requires forall o :: o != rid ==> (ReapDead(o) in st1.bg <==> ReapDead(o) in st.bg)
    ensures Others(st1, rid) && rid in st1.residents && st1.residents[rid] == r1
  {
    OthersKept(st, st1, rid);
  }

  lemma OthersFrame(st: State, st1: State, rid: nat, r1: Resident)
    requires Others(st, rid)
    requires st1.residents == st.residents[rid := r1] && st1.done == st.done && st1.bg == st.bg
    ensures Others(st1, rid) && rid in st1.residents && st1.residents[rid] == r1
  {
    OthersAround(st, st1, rid, r1);
  }

  lemma Reshape(c: Config, st: State, l: Ledger, rid: nat)
    requires Core(c, st, l) && Others(st, rid) && rid in st.residents && Shaped(st, rid)
    ensures Inv(c, st, l)
  {
  }

  lemma Unshape(c: Config, st: State, l: Ledger, rid: nat)
    requires Inv(c, st, l)
    ensures Core(c, st, l) && Others(st, rid)
    ensures rid in st.residents ==> Shaped(st, rid)
  {
  }
}
