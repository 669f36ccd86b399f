/** Submitting, closing, and the dispatcher's own turn: route, reserve, evict or defer. */
module DispatcherRouting {
  import opened Common
  import opened Dispatcher
  import opened DispatcherInv
  import opened DispatcherMoves
  import opened DispatcherTeardown
  import opened DispatcherFinally
  import opened DispatcherDriver
  import opened DispatcherServe
  import opened DispatcherWindows
  import QueueSpec

  // ----- the queue's two ends ------------------------------------------------------------------

  lemma QueueAdmits(q: QueueSpec.Queue, qc: QueueSpec.Config, s: Req, head: bool)
    requires Distinct(QueueSpec.Contents(q)) && s !in QueueSpec.Contents(q)
    ensures var a := if head then QueueSpec.EnqueueHead(q, s) else QueueSpec.Enqueue(qc, q, s);
            a.Admitted? ==> !a.queue.closed && Distinct(QueueSpec.Contents(a.queue))
                            && forall x :: x in QueueSpec.Contents(a.queue) <==> x == s || x in QueueSpec.Contents(q)
  {
    QueueSpec.ConcatDistinct([s], QueueSpec.Contents(q));
    QueueSpec.ConcatDistinct(QueueSpec.Contents(q), [s]);
    var a := if head then QueueSpec.EnqueueHead(q, s) else QueueSpec.Enqueue(qc, q, s);
    if a.Admitted? {
      if head {
        assert QueueSpec.Contents(a.queue) == [s] + QueueSpec.Contents(q);
      } else if |q.staging| < qc.stagingMax {
        InsertDistinct(q.staging, s, q.buffer);
      } else {
        assert QueueSpec.Contents(a.queue) == QueueSpec.Contents(q) + [s];
      }
    }
  }

  lemma InsertDistinct(a: seq<Req>, s: Req, b: seq<Req>)
    requires Distinct(a + b) && s !in a + b
    ensures Distinct((a + [s]) + b)
    ensures forall x :: x in (a + [s]) + b <==> x == s || x in a + b
  {
    SplitMembers(a + b, |a|);
    assert (a + b)[..|a|] == a && (a + b)[|a|..] == b;
    DistinctWithNew(a, s);
    QueueSpec.ConcatDistinct(a + [s], b);
  }

  lemma SubmitPlaced(st: State, home: map<Req, Place>, hand: set<Req>, s: Req, q': QueueSpec.Queue)
    requires Placed(st, home, hand) && s !in st.accepted
    requires !q'.closed && Distinct(QueueSpec.Contents(q'))
             && forall x :: x in QueueSpec.Contents(q') <==> x == s || x in QueueSpec.Contents(st.queue)
    ensures Placed(st.(queue := q', accepted := st.accepted + {s}), Move(home, {s}, Queued), hand)
  {
    TasksKept(home, st.bg, {s}, Queued);
    PlacedAfter(st, st.(queue := q', accepted := st.accepted + {s}), home, hand, {}, {s}, Queued);
    HandUntouched(st, home, hand, {s});
  }

  lemma NotQueuedYet(st: State, home: map<Req, Place>, hand: set<Req>, s: Req)
    requires Placed(st, home, hand) && s !in st.accepted
    ensures s !in QueueSpec.Contents(st.queue) && Distinct(QueueSpec.Contents(st.queue))
  {
  }

  lemma AdmittedKeeps(c: Config, st: State, l: Ledger, s: Req, q': QueueSpec.Queue) returns (l': Ledger)
    requires Inv(c, st, l) && s !in st.accepted
    requires !q'.closed && Distinct(QueueSpec.Contents(q'))
             && forall x :: x in QueueSpec.Contents(q') <==> x == s || x in QueueSpec.Contents(st.queue)
    ensures Inv(c, st.(queue := q', accepted := st.accepted + {s}), l') && l'.hand == l.hand
  {
    var st' := st.(queue := q', accepted := st.accepted + {s});
    SubmitPlaced(st, l.home, l.hand, s, q');
    ProcessesSame(st, st', l.procs);
    RegistrySame(c, st, st');
    AllKept(st, st');
    l' := Ledger(Move(l.home, {s}, Queued), l.procs, l.hand);
  }

  lemma SubmitKeeps(c: Config, st: State, l: Ledger, s: Req, head: bool) returns (l': Ledger)
    requires Inv(c, st, l) && s !in st.accepted
    ensures Inv(c, DoSubmit(c, st, s, head), l') && l'.hand == l.hand
  {
    NotQueuedYet(st, l.home, l.hand, s);
    QueueAdmits(st.queue, c.queue, s, head);
    var a := if head then QueueSpec.EnqueueHead(st.queue, s) else QueueSpec.Enqueue(c.queue, st.queue, s);
    l' := l;
    if a.Admitted? {
      l' := AdmittedKeeps(c, st, l, s, a.queue);
    }
  }

  lemma ClosePlaced(st: State, home: map<Req, Place>, hand: set<Req>) returns (h: map<Req, Place>)
    requires Placed(st, home, hand)
    ensures Placed(DoClose(st), h, hand)
    ensures Elements(QueueSpec.Contents(st.queue)) <= st.accepted
  {
    var ss := Elements(QueueSpec.Contents(st.queue));
    h := Move(home, ss, Released);
    assert forall s <- ss :: s in QueueSpec.Contents(st.queue) && HasAt(home, s, Queued);
    assert QueueAt(h, DoClose(st).queue);
    TasksKept(home, st.bg, ss, Released);
    PlacedAfter(st, DoClose(st), home, hand, {}, ss, Released);
    HandUntouched(st, home, hand, ss);
  }

  lemma CloseKeeps(c: Config, st: State, l: Ledger) returns (l': Ledger)
    requires Inv(c, st, l)
    ensures Inv(c, DoClose(st), l') && l'.hand == l.hand
  {
    var h := ClosePlaced(st, l.home, l.hand);
    ProcessesSame(st, DoClose(st), l.procs);
    RegistrySame(c, st, DoClose(st));
    AllKept(st, DoClose(st));
    l' := Ledger(h, l.procs, l.hand);
  }

  // ----- what the dispatcher has in its hand ---------------------------------------------------------

  lemma PopPlaced(st: State, home: map<Req, Place>, hand: set<Req>, q': QueueSpec.Queue, i: nat)
    requires Placed(st, home, hand) && i < |QueueSpec.Contents(st.queue)|
    requires QueueSpec.Contents(q') == RemoveAt(QueueSpec.Contents(st.queue), i) && q'.closed == st.queue.closed
    ensures var s := QueueSpec.Contents(st.queue)[i];
            Placed(st.(queue := q'), Move(home, {s}, InHand), hand + {s})
  {
    var s := QueueSpec.Contents(st.queue)[i];
    QueueLoses(home, st.queue, q', i, InHand);
    TasksKept(home, st.bg, {s}, InHand);
    PlacedAfter(st, st.(queue := q'), home, hand, {}, {s}, InHand);
  }

  lemma PopKeeps(c: Config, st: State, l: Ledger, q': QueueSpec.Queue, i: nat) returns (l': Ledger)
    requires Inv(c, st, l) && i < |QueueSpec.Contents(st.queue)|
    requires QueueSpec.Contents(q') == RemoveAt(QueueSpec.Contents(st.queue), i) && q'.closed == st.queue.closed
    ensures Inv(c, st.(queue := q'), l') && l'.hand == l.hand + {QueueSpec.Contents(st.queue)[i]}
  {
    var s := QueueSpec.Contents(st.queue)[i];
    PopPlaced(st, l.home, l.hand, q', i);
    ProcessesSame(st, st.(queue := q'), l.procs);
    RegistrySame(c, st, st.(queue := q'));
    AllKept(st, st.(queue := q'));
    l' := Ledger(Move(l.home, {s}, InHand), l.procs, l.hand + {s});
  }

  lemma HandPlaced(st: State, home: map<Req, Place>, hand: set<Req>, s: Req)
    requires Placed(st, home, hand) && s in hand
    ensures s in st.accepted && HasAt(home, s, InHand)
    ensures Placed(Resolve(st, s), Move(home, {s}, Released), hand - {s})
  {
    QueueKept(home, st.queue, {s}, Released);
    TasksKept(home, st.bg, {s}, Released);
    PlacedAfter(st, Resolve(st, s), home, hand, {}, {s}, Released);
  }

  lemma HandResolved(c: Config, st: State, l: Ledger, s: Req) returns (l': Ledger)
    requires Inv(c, st, l) && s in l.hand
    ensures Inv(c, Resolve(st, s), l') && l'.hand == l.hand - {s}
  {
    HandPlaced(st, l.home, l.hand, s);
    ProcessesSame(st, Resolve(st, s), l.procs);
    RegistrySame(c, st, Resolve(st, s));
    AllKept(st, Resolve(st, s));
    l' := Ledger(Move(l.home, {s}, Released), l.procs, l.hand - {s});
  }

  lemma BackoffTask(home: map<Req, Place>, bg: set<Task>, s: Req)
    requires TasksAt(home, bg) && s in home && !home[s].InTask?
    ensures TasksAt(Move(home, {s}, InTask(Backoff(s))), bg + {Backoff(s)})
  {
    assert Backoff(s) in bg && Carries(Backoff(s), s) <==> HasAt(home, s, InTask(Backoff(s)));
    forall t, x
      ensures t in bg + {Backoff(s)} && Carries(t, x) <==> HasAt(Move(home, {s}, InTask(Backoff(s))), x, InTask(t))
    {
      assert t in bg && Carries(t, x) <==> HasAt(home, x, InTask(t));
    }
  }

  lemma DeferPlaced(st: State, home: map<Req, Place>, hand: set<Req>, s: Req)
    requires Placed(st, home, hand) && s in hand
    ensures Placed(st.(bg := st.bg + {Backoff(s)}), Move(home, {s}, InTask(Backoff(s))), hand - {s})
  {
    assert HasAt(home, s, InHand);
    QueueKept(home, st.queue, {s}, InTask(Backoff(s)));
    BackoffTask(home, st.bg, s);
    PlacedAfter(st, st.(bg := st.bg + {Backoff(s)}), home, hand, {}, {s}, InTask(Backoff(s)));
  }

  lemma BackoffKeeps(c: Config, st: State, l: Ledger, s: Req) returns (l': Ledger)
    requires Inv(c, st, l) && s in l.hand
    ensures Inv(c, st.(bg := st.bg + {Backoff(s)}), l') && l'.hand == l.hand - {s}
  {
    var st' := st.(bg := st.bg + {Backoff(s)});
    DeferPlaced(st, l.home, l.hand, s);
    ProcessesSame(st, st', l.procs);
    RegistrySame(c, st, st');
    AllKept(st, st');
    l' := Ledger(Move(l.home, {s}, InTask(Backoff(s))), l.procs, l.hand - {s});
  }

  lemma CountKeeps(c: Config, st: State, l: Ledger, defers': map<Req, nat>)
    requires Inv(c, st, l)
    ensures Inv(c, st.(defers := defers'), l)
  {
    var st' := st.(defers := defers');
    ProcessesSame(st, st', l.procs);
    RegistrySame(c, st, st');
    AllKept(st, st');
  }

  lemma GiveUpOrBackOffKeeps(c: Config, st: State, l: Ledger, s: Req, giveUp: bool) returns (l': Ledger)
    requires Inv(c, st, l) && s in l.hand
    ensures Inv(c, GiveUpOrBackOff(st, s, giveUp), l') && l'.hand == l.hand - {s}
  {
    if giveUp {
      l' := HandResolved(c, st, l, s);
    } else {
      l' := BackoffKeeps(c, st, l, s);
    }
  }

  lemma CountedKeeps(c: Config, st: State, l: Ledger, s: Req)
    requires Inv(c, st, l)
    ensures Inv(c, Counted(st, s), l)
  {
    CountKeeps(c, st, l, Counted(st, s).defers);
  }

  lemma DeferKeeps(c: Config, st: State, l: Ledger, s: Req) returns (l': Ledger)
    requires Inv(c, st, l) && s in l.hand
    ensures Inv(c, Defer(st, s), l') && l'.hand == l.hand - {s}
  {
    CountedKeeps(c, st, l, s);
    l' := GiveUpOrBackOffKeeps(c, Counted(st, s), l, s, Counted(st, s).defers[s] > MAX_DISPATCH_DEFERS);
  }

  // ----- hit -------------------------------------------------------------------------------------------

  lemma GivenShape(r: Resident, s: Req, now: real, done: set<Req>, swept: bool)
    requires Quiet(r) && AtPc(r, done, swept) && r.life != Dead && s.model == r.model
    ensures Quiet(Given(r, s, now)) && AtPc(Given(r, s, now), done, swept)
  {
  }

  lemma HitKeeps(c: Config, st: State, l: Ledger, rid: nat, s: Req, now: real) returns (l': Ledger)
    requires Inv(c, st, l) && s in l.hand && rid in st.residents
    requires st.residents[rid].life != Dead && s.model == st.residents[rid].model
    ensures Inv(c, With(st, rid, Given(st.residents[rid], s, now)), l') && l'.hand == l.hand - {s}
  {
    Unshape(c, st, l, rid);
    GivenReady(st, rid, s, now);
    l' := HandToInbox(c, st, l, rid, Given(st.residents[rid], s, now), s);
    HitEnds(c, st, l', rid, Given(st.residents[rid], s, now));
  }

  lemma GivenReady(st: State, rid: nat, s: Req, now: real)
    requires rid in st.residents && Shaped(st, rid) && st.residents[rid].life != Dead
    requires s.model == st.residents[rid].model
    ensures var r := Given(st.residents[rid], s, now); Quiet(r) && AtPc(r, st.done, ReapDead(rid) !in st.bg)
  {
    GivenShape(st.residents[rid], s, now, st.done, ReapDead(rid) !in st.bg);
  }

  lemma HitEnds(c: Config, st: State, l: Ledger, rid: nat, r: Resident)
    requires Others(st, rid) && Core(c, With(st, rid, r), l)
    requires Quiet(r) && AtPc(r, st.done, ReapDead(rid) !in st.bg)
    ensures Inv(c, With(st, rid, r), l)
  {
    StepEnds(c, st, With(st, rid, r), l, rid, r);
  }

  // ----- evicting the least recently used idle resident --------------------------------------------------

  lemma IdleEvictedShape(r: Resident, done: set<Req>, swept: bool)
    requires Quiet(r) && AtPc(r, done, swept) && r.life == IdleEvictable
    ensures Quiet(Evicted(r)) && AtPc(Evicted(r), done, swept)
  {
  }

  lemma EvictIdleKeeps(c: Config, st: State, l: Ledger, rid: nat) returns (l': Ledger)
    requires Inv(c, st, l) && Candidate(st, rid)
    ensures Inv(c, BeginEvict(st, rid), l') && l'.hand == l.hand
  {
    Unshape(c, st, l, rid);
    l' := BeginEvictKeeps(c, st, l, rid);
    EvictLeaves(st, rid);
    IdleEvictedShape(st.residents[rid], st.done, ReapDead(rid) !in st.bg);
    StepEnds(c, st, BeginEvict(st, rid), l', rid, Evicted(st.residents[rid]));
  }

  // ----- reserving ------------------------------------------------------------------------------------------

  /** The port scan returns the lowest port of its range that nobody holds. */
  lemma {:induction false} LowestFreeIsLeast(held: set<int>, p: int, n: nat, base: int)
    ensures var q := LowestFree(held, p, n, base);
            (exists x :: p <= x < p + n && x !in held)
              ==> p <= q < p + n && q !in held && forall x :: p <= x < q ==> x in held
    decreases n
  {
    if n > 0 && p in held {
      LowestFreeIsLeast(held, p + 1, n - 1, base);
    }
  }

  function Range(p: int, n: nat): (s: set<int>)
    ensures |s| == n
    ensures forall x :: x in s <==> p <= x < p + n
    decreases n
  {
    if n == 0 then {} else Range(p, n - 1) + {p + n - 1}
  }

  lemma SubsetSmaller<T>(a: set<T>, b: set<T>)
    requires a <= b
    ensures |a| <= |b|
  {
    assert |b - a| == |b| - |a|;
  }

  /** Fewer holders than ports: some port is free. */
  lemma SomePortFree(held: set<int>, p: int, n: nat)
    requires |held| < n
    ensures exists x :: p <= x < p + n && x !in held
  {
    if forall x :: p <= x < p + n ==> x in held {
      SubsetSmaller(Range(p, n), held);
      assert false;
    }
  }

  lemma {:induction false} ImageSmaller(keys: set<string>, f: map<string, int>)
    requires keys <= f.Keys
    ensures |set m | m in keys :: f[m]| <= |keys|
    decreases |keys|
  {
    var image := set m | m in keys :: f[m];
    if keys == {} {
      assert image == {};
    } else {
      var k :| k in keys;
      var rest := set m | m in keys - {k} :: f[m];
      ImageSmaller(keys - {k}, f);
      assert image == rest + {f[k]};
    }
  }

  lemma HeldPortsFew(st: State)
    requires Linked(st)
    ensures |HeldPorts(st)| <= |st.registry|
  {
    var f := map m | m in st.registry :: st.residents[st.registry[m]].port;
    ImageSmaller(st.registry.Keys, f);
    assert HeldPorts(st) == set m | m in st.registry.Keys :: f[m];
  }

  /** While fewer residents than the window are registered, the port handed out lies in the
      window and no registered resident has it. */
  lemma AllocPortFree(c: Config, st: State)
    requires Linked(st) && |st.registry| < PORT_WINDOW
    ensures c.portBase <= AllocPort(c, st) < c.portBase + PORT_WINDOW
    ensures forall m <- st.registry.Keys :: st.residents[st.registry[m]].port != AllocPort(c, st)
  {
    HeldPortsFew(st);
    SomePortFree(HeldPorts(st), c.portBase, PORT_WINDOW);
    LowestFreeIsLeast(HeldPorts(st), c.portBase, PORT_WINDOW, c.portBase);
  }

  lemma LiveAreRegistered(st: State)
    requires Linked(st)
    ensures LiveModels(st) == st.registry.Keys
    ensures forall m :: LiveResident(st, m) == if m in st.registry then Some(st.registry[m]) else None
  {
    forall m <- st.registry.Keys
      ensures st.registry[m] in st.residents && st.residents[st.registry[m]].life != Dead
    {
      assert IsRegistered(st, st.registry[m]);
    }
  }

  lemma {:induction false} NoChargeApart(st: State, models: set<string>, gpu: int)
    requires forall m <- models :: m in LiveModels(st) ==> st.residents[st.registry[m]].gpu != gpu
    ensures BootingCharge(st, models, gpu) == 0
    decreases |models|
  {
    if models != {} {
      var m :| m in models && BootingCharge(st, models, gpu) == BootingCharge(st, models - {m}, gpu);
      NoChargeApart(st, models - {m}, gpu);
    }
  }

  /** The charge for still-booting siblings on the same card never decides anything: a
      candidate that passed the isolation test fits exactly when the probe alone says so. */
  lemma BootingChargeNeverDecides(st: State, f: Footprint, free: int)
    ensures VramAdmits(st, f, Some(free))
            <==> (LiveModels(st) != {} ==>
                    f.split == NoneSplit
                    && forall m <- LiveModels(st) ::
                        st.residents[st.registry[m]].split == NoneSplit && st.residents[st.registry[m]].gpu != f.gpu)
                 && free >= f.need
  {
    if LiveModels(st) == {} || forall m <- LiveModels(st) :: st.residents[st.registry[m]].gpu != f.gpu {
      NoChargeApart(st, LiveModels(st), f.gpu);
    }
  }

  predicate Newcomer(st: State, st': State, rid: nat, r: Resident) {
    && rid !in st.residents && r.model !in st.registry && r.life == ReservedLoading
    && r.handle == None && r.booting == None
    && st'.residents == st.residents[rid := r] && st'.registry == st.registry[r.model := rid]
  }

  lemma ReserveLinked(st: State, st': State, rid: nat, r: Resident)
    requires Linked(st) && Newcomer(st, st', rid, r)
    ensures Linked(st')
  {
    forall o <- st'.residents.Keys
      ensures st'.residents[o].life != Dead <==> IsRegistered(st', o)
    {
      if o != rid {
        assert st.residents[o].life != Dead <==> IsRegistered(st, o);
      }
    }
  }

  lemma ReserveSpread(c: Config, st: State, st': State, rid: nat, r: Resident)
    requires Spread(c, st) && Newcomer(st, st', rid, r)
    requires c.portBase <= r.port < c.portBase + PORT_WINDOW
    requires forall m <- st.registry.Keys :: Apart(st.residents[st.registry[m]], r)
    ensures Spread(c, st')
  {
    forall m <- st'.registry.Keys, n <- st'.registry.Keys | m != n
      ensures Apart(st'.residents[st'.registry[m]], st'.residents[st'.registry[n]])
    {
      if m in st.registry && n in st.registry {
        assert Apart(st.residents[st.registry[m]], st.residents[st.registry[n]]);
      }
    }
  }

  lemma ReserveProcesses(st: State, st': State, procs: map<nat, nat>, rid: nat, r: Resident)
    requires Processes(st, procs) && Newcomer(st, st', rid, r)
    requires st'.spawned == st.spawned && st'.reaps == st.reaps && st'.exited == st.exited
    ensures Processes(st', procs)
  {
    forall p, o
      ensures (o in st'.residents && Records(st'.residents[o], p)) <==> (p in procs && procs[p] == o)
    {
      assert (o in st.residents && Records(st.residents[o], p)) <==> (p in procs && procs[p] == o);
    }
  }

  lemma ReservePlaced(st: State, st': State, home: map<Req, Place>, hand: set<Req>, rid: nat, r: Resident, s: Req)
    requires Placed(st, home, hand) && s in hand && Newcomer(st, st', rid, r)
    requires r.inbox == [s] && r.inflight == [] && r.pending == [] && r.slot == None && r.active == None
    requires st' == st.(residents := st'.residents, registry := st'.registry)
    ensures Placed(st', Move(home, {s}, InInbox(rid)), hand - {s})
  {
    assert HasAt(home, s, InHand);
    var p := InInbox(rid);
    QueueKept(home, st.queue, {s}, p);
    TasksKept(home, st.bg, {s}, p);
    FreshAt(st, home, hand, rid, r, s);
    PlacedAfter(st, st', home, hand, {rid}, {s}, p);
  }

  lemma FreshAt(st: State, home: map<Req, Place>, hand: set<Req>, rid: nat, r: Resident, s: Req)
    requires Placed(st, home, hand) && rid !in st.residents
    requires r.inbox == [s] && r.inflight == [] && r.pending == [] && r.slot == None && r.active == None
    ensures ResidentAt(Move(home, {s}, InInbox(rid)), rid, r)
  {
    forall x
      ensures x in home ==> !Owner(home[x], rid)
    {
    }
  }

  lemma ReserveRegistry(c: Config, st: State, st': State, rid: nat, r: Resident)
    requires Registry(c, st) && |st.registry| < c.cap && Newcomer(st, st', rid, r)
    requires c.portBase <= r.port < c.portBase + PORT_WINDOW
    requires forall m <- st.registry.Keys :: Apart(st.residents[st.registry[m]], r)
    ensures Registry(c, st')
  {
    ReserveLinked(st, st', rid, r);
    ReserveSpread(c, st, st', rid, r);
    OneMoreKey(st.registry, r.model, rid);
  }

  lemma OneMoreKey(registry: map<string, nat>, model: string, rid: nat)
    ensures |registry[model := rid]| <= |registry| + 1
  {
    var after := registry[model := rid];
    assert after.Keys == registry.Keys + {model};
    assert |after| == |after.Keys| && |registry| == |registry.Keys|;
  }

  lemma AdmittedApart(c: Config, st: State, s: Req, f: Footprint, probe: Option<int>, now: real)
    requires Linked(st) && |st.registry| < PORT_WINDOW && VramAdmits(st, f, probe)
    ensures var r := Fresh(s, AllocPort(c, st), f, now);
            forall m <- st.registry.Keys :: Apart(st.residents[st.registry[m]], r)
  {
    AllocPortFree(c, st);
    LiveAreRegistered(st);
    var r := Fresh(s, AllocPort(c, st), f, now);
    forall m <- st.registry.Keys
      ensures Apart(st.residents[st.registry[m]], r)
    {
      assert m in LiveModels(st);
    }
  }

  lemma NewcomerCore(c: Config, st: State, l: Ledger, st': State, s: Req, rid: nat, r: Resident) returns (l': Ledger)
    requires Core(c, st, l) && s in l.hand && |st.registry| < c.cap && Newcomer(st, st', rid, r)
    requires st' == st.(residents := st'.residents, registry := st'.registry)
    requires c.portBase <= r.port < c.portBase + PORT_WINDOW
    requires forall m <- st.registry.Keys :: Apart(st.residents[st.registry[m]], r)
    requires r.inbox == [s] && r.inflight == [] && r.pending == [] && r.slot == None && r.active == None
    ensures Core(c, st', l') && l'.hand == l.hand - {s}
  {
    ReserveRegistry(c, st, st', rid, r);
    ReserveProcesses(st, st', l.procs, rid, r);
    ReservePlaced(st, st', l.home, l.hand, rid, r, s);
    l' := Ledger(Move(l.home, {s}, InInbox(rid)), l.procs, l.hand - {s});
  }

  lemma NewcomerKeeps(c: Config, st: State, l: Ledger, st': State, s: Req, rid: nat, r: Resident) returns (l': Ledger)
    requires Inv(c, st, l) && s in l.hand && |st.registry| < c.cap && Newcomer(st, st', rid, r)
    requires st' == st.(residents := st'.residents, registry := st'.registry)
    requires c.portBase <= r.port < c.portBase + PORT_WINDOW
    requires forall m <- st.registry.Keys :: Apart(st.residents[st.registry[m]], r)
    requires r.inbox == [s] && r.inflight == [] && r.pending == [] && r.slot == None && r.active == None
    requires Quiet(r) && AtPc(r, st.done, true)
    ensures Inv(c, st', l') && l'.hand == l.hand - {s}
  {
    Unshape(c, st, l, rid);
    l' := NewcomerCore(c, st, l, st', s, rid, r);
    NoTasksYet(st, rid);
    StepEnds(c, st, st', l', rid, r);
  }

  lemma NoTasksYet(st: State, rid: nat)
    requires Tasks(st) && rid !in st.residents
    ensures ReapDead(rid) !in st.bg && Teardown(rid) !in st.bg
  {
  }

  lemma FreshShape(s: Req, port: int, f: Footprint, now: real, done: set<Req>)
    ensures var r := Fresh(s, port, f, now); Quiet(r) && AtPc(r, done, true)
  {
  }

  lemma RegistryParts(c: Config, st: State, l: Ledger)
    requires Inv(c, st, l)
    ensures Linked(st) && |st.registry| <= c.cap
  {
  }

  lemma ReserveKeeps(c: Config, st: State, l: Ledger, s: Req, o: Oracle) returns (l': Ledger)
    requires ValidConfig(c) && Inv(c, st, l) && s in l.hand
    requires |st.registry| < c.cap && s.model !in st.registry && o.rid !in st.residents
    ensures Inv(c, Reserve(c, st, s, o), l') && l'.hand == l.hand - {s}
  {
    if o.footprint.None? || !VramAdmits(st, o.footprint.value, o.probe) {
      l' := HandResolved(c, st, l, s);
    } else {
      RegistryParts(c, st, l);
      AllocPortFree(c, st);
      AdmittedApart(c, st, s, o.footprint.value, o.probe, o.now);
      FreshShape(s, AllocPort(c, st), o.footprint.value, o.now, st.done);
      l' := NewcomerKeeps(c, st, l, Reserve(c, st, s, o), s, o.rid,
          Fresh(s, AllocPort(c, st), o.footprint.value, o.now));
    }
  }

  // ----- the dispatcher's turn -------------------------------------------------------------------------------

  lemma HitRoute(c: Config, st: State, l: Ledger, s: Req, o: Oracle) returns (l': Ledger)
    requires Inv(c, st, l) && s in l.hand && s.model in st.registry
    ensures Inv(c, Route(c, st, s, o), l') && l'.hand == l.hand - {s}
  {
    RegistryParts(c, st, l);
    LiveAreRegistered(st);
    assert IsRegistered(st, st.registry[s.model]);
    l' := HitKeeps(c, st, l, st.registry[s.model], s, o.now);
  }

  lemma EvictionMakesRoom(st: State, rid: nat)
    requires Linked(st) && Candidate(st, rid)
    ensures |BeginEvict(st, rid).registry| == |st.registry| - 1
    ensures BeginEvict(st, rid).registry.Keys <= st.registry.Keys
    ensures BeginEvict(st, rid).residents.Keys == st.residents.Keys
  {
    assert BeginEvict(st, rid).registry.Keys == st.registry.Keys - {st.residents[rid].model};
    assert |st.registry.Keys - {st.residents[rid].model}| == |st.registry.Keys| - 1;
  }

  lemma EvictRoute(c: Config, st: State, l: Ledger, s: Req, o: Oracle) returns (l': Ledger)
    requires ValidConfig(c) && Inv(c, st, l) && s in l.hand && s.model !in st.registry && o.rid !in st.residents
    requires Candidate(st, o.victim)
    ensures Inv(c, Reserve(c, BeginEvict(st, o.victim), s, o), l') && l'.hand == l.hand - {s}
  {
    RegistryParts(c, st, l);
    EvictionMakesRoom(st, o.victim);
    l' := EvictIdleKeeps(c, st, l, o.victim);
    l' := ReserveKeeps(c, BeginEvict(st, o.victim), l', s, o);
  }

  lemma RouteKeeps(c: Config, st: State, l: Ledger, s: Req, o: Oracle) returns (l': Ledger)
    requires ValidConfig(c) && Inv(c, st, l) && s in l.hand && o.rid !in st.residents
    ensures Inv(c, Route(c, st, s, o), l') && l'.hand == l.hand - {s}
  {
    RegistryParts(c, st, l);
    LiveAreRegistered(st);
    if s.model in st.registry {
      l' := HitRoute(c, st, l, s, o);
    } else if |st.registry| < c.cap {
      l' := ReserveKeeps(c, st, l, s, o);
    } else if Candidate(st, o.victim) {
      l' := EvictRoute(c, st, l, s, o);
    } else {
      l' := DeferKeeps(c, st, l, s);
    }
  }

  lemma DispatchKeeps(c: Config, st: State, l: Ledger, o: Oracle) returns (l': Ledger)
    requires ValidConfig(c) && Inv(c, st, l) && l.hand == {} && o.rid !in st.residents
    ensures Inv(c, Dispatch(c, st, o), l') && l'.hand == {}
  {
    QueueSpec.PopTakesOne(c.queue, st.queue, o.hint, o.now);
    var (q, got) := QueueSpec.PopNext(c.queue, st.queue, o.hint, o.now);
    if got.None? {
      l' := l;
    } else {
      l' := PopKeeps(c, st, l, q, QueueSpec.PopIndex(c.queue, st.queue, o.hint, o.now));
      if o.gone {
        l' := HandResolved(c, st.(queue := q), l', got.value);
      } else {
        l' := RouteKeeps(c, st.(queue := q), l', got.value, o);
      }
    }
  }
}
