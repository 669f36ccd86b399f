/** The `finally` of a driver: claim the teardown, hand back the inbox, end. */
module DispatcherFinally {
  import opened Common
  import opened Dispatcher
  import opened DispatcherInv
  import opened DispatcherMoves
  import opened DispatcherTeardown
  import QueueSpec

  // ----- ending a driver ----------------------------------------------------------------------

  /** What a driver must have let go of before it may end. */
  ghost predicate CanRetire(r: Resident, done: set<Req>) {
    && OfModel(r)
    && (r.tornDown ==> r.life == Dead)
    && (r.life == Dead ==> r.inbox == [])
    && r.life != IdleEvictable
    && r.inflight == [] && r.pending == []
    && r.handle == None && r.booting == None
    && (r.life == Dead || (r.life == ReservedLoading && r.active == None))
    && Just(Unswept(r)) <= done
  }

  function Ended(r: Resident): Resident {
    r.(pc := Done, slot := None)
  }

  lemma EndedShape(r: Resident, done: set<Req>)
    requires CanRetire(r, done)
    ensures Quiet(Ended(r)) && AtPc(Ended(r), done, false)
    ensures LetsGo(r, Ended(r), Just(Unswept(r)))
  {
  }

  lemma ReapTask(c: Config, st: State, l: Ledger, rid: nat)
    requires Core(c, st, l) && rid in st.residents && st.residents[rid].pc == Done
    ensures Core(c, st.(bg := st.bg + {ReapDead(rid)}), l)
  {
    InertTasksKeep(c, st, l, st.bg + {ReapDead(rid)});
  }

  lemma RetireCore(c: Config, st: State, l: Ledger, rid: nat) returns (l': Ledger)
    requires Core(c, st, l) && rid in st.residents && CanRetire(st.residents[rid], st.done)
    ensures Core(c, Retire(st, rid), l') && l'.hand == l.hand
  {
    var r := st.residents[rid];
    EndedShape(r, st.done);
    l' := DriverReleases(c, st, l, rid, Ended(r), Just(Unswept(r)), st.done);
    assert With(st, rid, Ended(r)).(done := st.done) == With(st, rid, Ended(r));
    ReapTask(c, With(st, rid, Ended(r)), l', rid);
  }

  lemma RetireShape(st: State, rid: nat)
    requires Others(st, rid) && rid in st.residents && CanRetire(st.residents[rid], st.done)
    ensures Others(Retire(st, rid), rid) && Shaped(Retire(st, rid), rid)
  {
    EndedShape(st.residents[rid], st.done);
    OthersKept(st, Retire(st, rid), rid);
  }

  lemma RetireKeeps(c: Config, st: State, l: Ledger, rid: nat) returns (l': Ledger)
    requires Core(c, st, l) && Others(st, rid) && rid in st.residents
    requires CanRetire(st.residents[rid], st.done)
    ensures Inv(c, Retire(st, rid), l') && l'.hand == l.hand
  {
    l' := RetireCore(c, st, l, rid);
    RetireShape(st, rid);
    Reshape(c, Retire(st, rid), l', rid);
  }

  // ----- claiming the teardown ------------------------------------------------------------------

  /** What holds whenever the driver's `finally` is entered. */
  ghost predicate CanFinish(r: Resident, done: set<Req>) {
    && OfModel(r)
    && r.inflight == [] && r.pending == [] && r.slot.Some? && r.pc != Done
    && (r.life == Dead ==> r.inbox == [])
    && (r.tornDown ==> CanRetire(r, done))
  }

  function Claiming(r: Resident): Resident {
    r.(tornDown := true, handle := None, booting := None, pc := Cleanup)
  }

  function Handed(r: Resident): Resident {
    r.(pending := r.inbox, inbox := [])
  }

  lemma InboxPended(home: map<Req, Place>, rid: nat, r: Resident)
    requires ResidentAt(home, rid, r) && r.pending == []
    ensures ResidentAt(Move(home, Elements(r.inbox), InCleanup(rid)), rid, Handed(r))
    ensures forall s <- Elements(r.inbox) :: HasAt(home, s, InInbox(rid))
  {
    assert forall s :: DriverHas(Handed(r), s) <==> DriverHas(r, s);
  }

  lemma InboxToCleanup(c: Config, st: State, l: Ledger, rid: nat) returns (l': Ledger)
    requires Core(c, st, l) && rid in st.residents && st.residents[rid].pending == [] && st.residents[rid].pc == Cleanup
    ensures Core(c, With(st, rid, Handed(st.residents[rid])), l') && l'.hand == l.hand
  {
    var r := st.residents[rid];
    assert ResidentAt(l.home, rid, r);
    InboxPended(l.home, rid, r);
    HandUntouched(st, l.home, l.hand, Elements(r.inbox));
    l' := CoreLocal(c, st, l, rid, Handed(r), st.done, Elements(r.inbox), InCleanup(rid));
  }

  /** The claim up to the point where the resident dies. */
  function Claim(st: State, rid: nat, alive: bool): State
    requires rid in st.residents
  {
    var r := st.residents[rid];
    With(Release(st, r.handle, r.booting, alive), rid, Handed(Claiming(r)))
  }

  lemma ClaimKeeps(c: Config, st: State, l: Ledger, rid: nat, alive: bool) returns (l': Ledger)
    requires Core(c, st, l) && rid in st.residents && st.residents[rid].pc != Done && st.residents[rid].pending == []
    ensures Core(c, Claim(st, rid, alive), l') && l'.hand == l.hand
  {
    var r := st.residents[rid];
    var l1 := ReleaseKeeps(c, st, l, rid, Claiming(r), r.handle, r.booting, alive);
    var st1 := With(Release(st, r.handle, r.booting, alive), rid, Claiming(r));
    l' := InboxToCleanup(c, st1, l1, rid);
    WithTwice(Release(st, r.handle, r.booting, alive), rid, Claiming(r), Handed(Claiming(r)));
  }

  lemma FinallyIs(st: State, rid: nat, alive: bool)
    requires Linked(st) && rid in st.residents && !st.residents[rid].tornDown
    ensures var st1 := Claim(st, rid, alive);
            st1.residents[rid] == Handed(Claiming(st.residents[rid]))
            && EnterFinally(st, rid, alive)
               == if st.residents[rid].life == Dead then st1
                  else With(Unregister(st1, rid), rid, Died(st1.residents[rid]))
  {
    var r := st.residents[rid];
    var st1, r1 := Claim(st, rid, alive), Handed(Claiming(r));
    assert IsRegistered(st, rid) <==> r.life != Dead;
    ClaimFrame(st, rid, alive);
    if r.life != Dead {
      WithTwice(Unregister(Release(st, r.handle, r.booting, alive), rid), rid, r1, Died(r1));
      assert Unregister(st1, rid) == With(Unregister(Release(st, r.handle, r.booting, alive), rid), rid, r1);
    }
  }

  lemma ClaimFrame(st: State, rid: nat, alive: bool)
    requires rid in st.residents
    ensures var r, st1 := st.residents[rid], Claim(st, rid, alive);
            && st1.residents == st.residents[rid := Handed(Claiming(r))] && st1.registry == st.registry
            && (IsRegistered(st1, rid) <==> IsRegistered(st, rid))
  {
  }

  lemma ClaimedShape(r: Resident, done: set<Req>)
    requires CanFinish(r, done)
    ensures var r' := Died(Handed(Claiming(r))); Quiet(r') && forall swept :: AtPc(r', done, swept)
  {
  }

  lemma FinallyCore(c: Config, st: State, l: Ledger, rid: nat, alive: bool) returns (l': Ledger)
    requires Core(c, st, l) && rid in st.residents && !st.residents[rid].tornDown && st.residents[rid].pc != Done
             && st.residents[rid].pending == []
    ensures Core(c, EnterFinally(st, rid, alive), l') && l'.hand == l.hand
  {
    l' := ClaimKeeps(c, st, l, rid, alive);
    FinallyIs(st, rid, alive);
    if st.residents[rid].life != Dead {
      DieKeeps(c, Claim(st, rid, alive), l', rid);
    }
  }

  lemma FinallyLeaves(st: State, rid: nat, alive: bool)
    requires Linked(st) && rid in st.residents && !st.residents[rid].tornDown
    ensures var st' := EnterFinally(st, rid, alive);
            && st'.residents == st.residents[rid := Died(Handed(Claiming(st.residents[rid])))]
            && st'.bg == st.bg && st'.done == st.done
  {
    var r := st.residents[rid];
    var st1 := Release(st, r.handle, r.booting, alive);
    assert IsRegistered(st, rid) <==> r.life != Dead;
    assert Claimed(r, IsRegistered(st, rid)) == Died(Handed(Claiming(r)));
    assert st1.residents == st.residents && st1.bg == st.bg && st1.done == st.done;
    assert Unregister(st1, rid).residents == st.residents;
  }

  lemma FinallyShape(st: State, rid: nat, alive: bool)
    requires Linked(st) && Others(st, rid) && rid in st.residents && CanFinish(st.residents[rid], st.done)
             && !st.residents[rid].tornDown
    ensures Others(EnterFinally(st, rid, alive), rid)
    ensures rid in EnterFinally(st, rid, alive).residents && Shaped(EnterFinally(st, rid, alive), rid)
  {
    FinallyLeaves(st, rid, alive);
    FinallyShapeOf(st, rid, EnterFinally(st, rid, alive));
  }

  lemma FinallyShapeOf(st: State, rid: nat, st': State)
    requires Others(st, rid) && rid in st.residents && CanFinish(st.residents[rid], st.done)
    requires st'.residents == st.residents[rid := Died(Handed(Claiming(st.residents[rid])))]
    requires st'.bg == st.bg && st'.done == st.done
    ensures Others(st', rid) && Shaped(st', rid)
  {
    ClaimedShape(st.residents[rid], st.done);
    OthersKept(st, st', rid);
  }

  lemma EnterFinallyKeeps(c: Config, st: State, l: Ledger, rid: nat, alive: bool) returns (l': Ledger)
    requires Core(c, st, l) && Others(st, rid) && rid in st.residents
    requires CanFinish(st.residents[rid], st.done)
    ensures Inv(c, EnterFinally(st, rid, alive), l') && l'.hand == l.hand
  {
    if st.residents[rid].tornDown {
      l' := RetireKeeps(c, st, l, rid);
    } else {
      l' := FinallyCore(c, st, l, rid, alive);
      FinallyShape(st, rid, alive);
      Reshape(c, EnterFinally(st, rid, alive), l', rid);
    }
  }

  // ----- handing requests back to the queue -----------------------------------------------------

  lemma QueueGains(home: map<Req, Place>, q: QueueSpec.Queue, slots: seq<Req>)
    requires QueueAt(home, q) && !q.closed && Distinct(slots) && Elsewhere(home, Elements(slots), Queued)
    ensures QueueAt(Move(home, Elements(slots), Queued), QueueSpec.PushAll(q, slots))
  {
    forall s <- slots
      ensures s !in QueueSpec.Contents(q)
    {
      assert s in Elements(slots);
    }
    QueueSpec.PushAllReverses(q, slots);
    QueueSpec.PushAllMembers(q, slots);
  }

  lemma PendingAway(home: map<Req, Place>, rid: nat, r: Resident, p: Place)
    requires ResidentAt(home, rid, r) && !Owner(p, rid)
    ensures ResidentAt(Move(home, Elements(r.pending), p), rid, r.(pending := []))
    ensures forall s <- Elements(r.pending) :: HasAt(home, s, InCleanup(rid))
  {
    assert forall s :: DriverHas(r.(pending := []), s) <==> DriverHas(r, s);
  }

  lemma PendingToQueue(st: State, home: map<Req, Place>, hand: set<Req>, rid: nat) returns (h: map<Req, Place>)
    requires Placed(st, home, hand) && rid in st.residents && !st.queue.closed
    ensures var r := st.residents[rid];
            Placed(With(st, rid, r.(pending := [])).(queue := QueueSpec.PushAll(st.queue, r.pending)), h, hand)
  {
    var r := st.residents[rid];
    var ss := Elements(r.pending);
    assert ResidentAt(home, rid, r);
    PendingAway(home, rid, r, Queued);
    QueueGains(home, st.queue, r.pending);
    TasksKept(home, st.bg, ss, Queued);
    PlacedAfter(st, With(st, rid, r.(pending := [])).(queue := QueueSpec.PushAll(st.queue, r.pending)), home, hand,
        {rid}, ss, Queued);
    HandUntouched(st, home, hand, ss);
    h := Move(home, ss, Queued);
  }

  lemma PendingReleased(c: Config, st: State, l: Ledger, rid: nat) returns (l': Ledger)
    requires Core(c, st, l) && rid in st.residents && st.residents[rid].pc == Cleanup
    ensures var r := st.residents[rid];
            Core(c, With(ResolveAll(st, r.pending), rid, r.(pending := [])), l')
    ensures l'.hand == l.hand
  {
    var r := st.residents[rid];
    var ss := Elements(r.pending);
    assert ResidentAt(l.home, rid, r);
    PendingAway(l.home, rid, r, Released);
    HandUntouched(st, l.home, l.hand, ss);
    l' := CoreLocal(c, st, l, rid, r.(pending := []), st.done + ss, ss, Released);
  }

  lemma PendingBack(c: Config, st: State, l: Ledger, rid: nat) returns (l': Ledger)
    requires Core(c, st, l) && rid in st.residents && st.residents[rid].pc == Cleanup
    ensures var r := st.residents[rid];
            Core(c, With(RequeueAll(st, r.pending), rid, r.(pending := [])), l')
    ensures l'.hand == l.hand
  {
    var r := st.residents[rid];
    if st.queue.closed {
      l' := PendingReleased(c, st, l, rid);
    } else {
      var h := PendingToQueue(st, l.home, l.hand, rid);
      var st' := With(RequeueAll(st, r.pending), rid, r.(pending := []));
      RegistryKept(c, st, st', rid);
      ProcessesKept(st, st', l.procs, rid);
      TasksLocal(st, rid, r.(pending := []));
      l' := Ledger(h, l.procs, l.hand);
    }
  }

  lemma UnsweptOwned(st: State, home: map<Req, Place>, hand: set<Req>, rid: nat)
    requires Placed(st, home, hand) && rid in st.residents
    ensures Just(Unswept(st.residents[rid])) <= st.accepted
  {
    var r := st.residents[rid];
    if Unswept(r).Some? {
      DriverOwns(st, home, hand, rid, r.slot.value);
    }
  }

  lemma CleanupShape(r: Resident, done: set<Req>, done': set<Req>, swept: bool)
    requires Quiet(r) && AtPc(r, done, swept) && r.pc == Cleanup
    requires done' >= Just(Unswept(r))
    ensures CanRetire(r.(pending := []), done')
  {
  }

  /** The `finally` up to where its task ends. */
  function Settled(st: State, rid: nat): State
    requires rid in st.residents
  {
    var r := st.residents[rid];
    var st1 := With(RequeueAll(st, r.pending), rid, r.(pending := []));
    st1.(done := st1.done + Just(Unswept(r)))
  }

  lemma SettledCore(c: Config, st: State, l: Ledger, rid: nat) returns (l': Ledger)
    requires Core(c, st, l) && rid in st.residents && st.residents[rid].pc == Cleanup
    ensures Core(c, Settled(st, rid), l') && l'.hand == l.hand
  {
    var r := st.residents[rid];
    l' := PendingBack(c, st, l, rid);
    var st1 := With(RequeueAll(st, r.pending), rid, r.(pending := []));
    UnsweptOwned(st1, l'.home, l'.hand, rid);
    assert Unswept(r.(pending := [])) == Unswept(r);
    ResolveKeepsCore(c, st1, l', Just(Unswept(r)));
  }

  lemma SettledShape(st: State, rid: nat)
    requires Others(st, rid) && rid in st.residents && Shaped(st, rid) && st.residents[rid].pc == Cleanup
    ensures Others(Settled(st, rid), rid) && rid in Settled(st, rid).residents
    ensures CanRetire(Settled(st, rid).residents[rid], Settled(st, rid).done)
  {
    CleanupShape(st.residents[rid], st.done, Settled(st, rid).done, ReapDead(rid) !in st.bg);
    OthersKept(st, Settled(st, rid), rid);
  }

  lemma LeaveIs(st: State, rid: nat)
    requires rid in st.residents
    ensures LeaveFinally(st, rid) == Retire(Settled(st, rid), rid)
  {
    var r := st.residents[rid];
    var st1 := With(RequeueAll(st, r.pending), rid, r.(pending := []));
    assert ResolveOpt(st1, Unswept(r)) == Settled(st, rid);
  }

  lemma LeaveFinallyKeeps(c: Config, st: State, l: Ledger, rid: nat) returns (l': Ledger)
    requires Inv(c, st, l) && At(st, rid, Cleanup)
    ensures Inv(c, LeaveFinally(st, rid), l') && l'.hand == l.hand
  {
    Unshape(c, st, l, rid);
    l' := SettledCore(c, st, l, rid);
    SettledShape(st, rid);
    l' := RetireKeeps(c, Settled(st, rid), l', rid);
    LeaveIs(st, rid);
  }

  // ----- detached requeue tasks --------------------------------------------------------------------

  lemma TasksLose(home: map<Req, Place>, bg: set<Task>, t: Task, slots: seq<Req>, p: Place)
    requires TasksAt(home, bg) && t in bg && !p.InTask? && forall s :: Carries(t, s) <==> s in slots
    ensures TasksAt(Move(home, Elements(slots), p), bg - {t})
    ensures forall s <- slots :: HasAt(home, s, InTask(t))
  {
    forall s <- slots
      ensures HasAt(home, s, InTask(t))
    {
      assert t in bg && Carries(t, s) <==> HasAt(home, s, InTask(t));
    }
    forall u, s
      ensures u in bg - {t} && Carries(u, s) <==> HasAt(Move(home, Elements(slots), p), s, InTask(u))
    {
      assert u in bg && Carries(u, s) <==> HasAt(home, s, InTask(u));
      assert t in bg && Carries(t, s) <==> HasAt(home, s, InTask(t));
    }
  }

  lemma QueueAfterTask(home: map<Req, Place>, q: QueueSpec.Queue, t: Task, slots: seq<Req>, p: Place)
    requires QueueAt(home, q) && Distinct(slots) && ((p == Queued && !q.closed) || p == Released)
             && forall s <- slots :: HasAt(home, s, InTask(t))
    ensures QueueAt(Move(home, Elements(slots), p), if p == Queued then QueueSpec.PushAll(q, slots) else q)
  {
    assert Elsewhere(home, Elements(slots), Queued) by {
      forall s <- Elements(slots)
        ensures !HasAt(home, s, Queued)
      {
        assert s in slots;
      }
    }
    if p == Queued {
      QueueGains(home, q, slots);
    } else {
      QueueKept(home, q, Elements(slots), p);
    }
  }

  /** A task that carried `slots` is over: they are back in the queue, or resolved. */
  function TaskOver(st: State, t: Task, slots: seq<Req>, back: bool): State {
    if back then Finish(st, t).(queue := QueueSpec.PushAll(st.queue, slots)) else ResolveAll(Finish(st, t), slots)
  }

  lemma TaskPlaced(st: State, home: map<Req, Place>, hand: set<Req>, t: Task, slots: seq<Req>, back: bool)
    requires Placed(st, home, hand) && t in st.bg && Distinct(slots) && forall s :: Carries(t, s) <==> s in slots
    requires back ==> !st.queue.closed
    ensures Placed(TaskOver(st, t, slots, back), Move(home, Elements(slots), if back then Queued else Released), hand)
    ensures forall s <- slots :: s in st.accepted
  {
    var ss, p := Elements(slots), if back then Queued else Released;
    TasksLose(home, st.bg, t, slots, p);
    QueueAfterTask(home, st.queue, t, slots, p);
    forall s <- ss
      ensures HasAt(home, s, InTask(t))
    {
      assert s in slots;
    }
    HandUntouched(st, home, hand, ss);
    var st' := TaskOver(st, t, slots, back);
    assert st'.residents == st.residents && st'.accepted == st.accepted == st.accepted + ss;
    PlacedAfter(st, st', home, hand, {}, ss, p);
  }

  lemma TaskEnds(c: Config, st: State, l: Ledger, t: Task, slots: seq<Req>, back: bool) returns (l': Ledger)
    requires Inv(c, st, l) && t in st.bg && Distinct(slots) && !Inert(t) && forall s :: Carries(t, s) <==> s in slots
    requires back ==> !st.queue.closed
    ensures Inv(c, TaskOver(st, t, slots, back), l') && l'.hand == l.hand
  {
    var st' := TaskOver(st, t, slots, back);
    TaskPlaced(st, l.home, l.hand, t, slots, back);
    ProcessesSame(st, st', l.procs);
    RegistrySame(c, st, st');
    AllKept(st, st');
    l' := Ledger(Move(l.home, Elements(slots), if back then Queued else Released), l.procs, l.hand);
  }

  lemma AllKept(st: State, st': State)
    requires forall o <- st.residents.Keys :: Shaped(st, o)
    requires st'.residents == st.residents && st.done <= st'.done
    requires forall o :: ReapDead(o) in st'.bg <==> ReapDead(o) in st.bg
    ensures forall o <- st'.residents.Keys :: Shaped(st', o)
  {
    forall o <- st'.residents.Keys
      ensures Shaped(st', o)
    {
      assert Shaped(st, o);
      AtPcGrows(st.residents[o], st.done, st'.done, ReapDead(o) !in st.bg);
    }
  }

  /** Whatever order a batch comes back in, all of it comes back, or is failed when the
      queue has closed. */
  lemma RequeueKeeps(c: Config, st: State, l: Ledger, t: Task, slots: seq<Req>) returns (l': Ledger)
    requires Inv(c, st, l) && t in st.bg && (t == Requeue(slots) || (t.Backoff? && slots == [t.slot]))
    ensures Inv(c, RequeueAll(Finish(st, t), slots), l') && l'.hand == l.hand
  {
    assert TasksAt(l.home, st.bg);
    l' := TaskEnds(c, st, l, t, slots, !st.queue.closed);
  }

  lemma CancelBackoffKeeps(c: Config, st: State, l: Ledger, s: Req) returns (l': Ledger)
    requires Inv(c, st, l) && Backoff(s) in st.bg
    ensures Inv(c, Resolve(Finish(st, Backoff(s)), s), l') && l'.hand == l.hand
  {
    assert Elements([s]) == {s};
    l' := TaskEnds(c, st, l, Backoff(s), [s], false);
  }
}
