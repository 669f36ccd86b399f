/** Serving: fan-out, matched follow-ups, the end of the grace and idle windows, unwinding. */
module DispatcherServe {
  import opened Common
  import opened Dispatcher
  import opened DispatcherInv
  import opened DispatcherMoves
  import opened DispatcherTeardown
  import opened DispatcherFinally
  import opened DispatcherDriver
  import QueueSpec

  // ----- fan-out --------------------------------------------------------------------------------

  /** Everything `Admit` takes from the inbox, before the abandoned are turned away. */
  function Drawn(r: Resident, k: nat): Resident
    requires k <= |r.inbox|
  {
    r.(inflight := r.inflight + r.inbox[..k], inbox := r.inbox[k..])
  }

  lemma ConcatApart<T>(a: seq<T>, b: seq<T>)
    requires Distinct(a) && Distinct(b) && forall x <- b :: x !in a
    ensures Distinct(a + b)
  {
    forall i, j | 0 <= i < j < |a + b|
      ensures (a + b)[i] != (a + b)[j]
    {
      if i < |a| <= j {
        assert (a + b)[j] in b;
      }
    }
  }

  lemma DrawnTakes(r: Resident, k: nat)
    requires k <= |r.inbox|
    ensures TakesInbox(r, Drawn(r, k), k)
  {
    if Distinct(r.inflight) && Distinct(r.inbox) && forall s :: s in r.inbox ==> s !in r.inflight {
      SplitMembers(r.inbox, k);
      ConcatApart(r.inflight, r.inbox[..k]);
    }
  }

  lemma AdmitLetsGo(r: Resident, gone: set<Req>)
    requires Distinct(r.inflight) && Distinct(r.inbox) && forall s <- r.inbox :: !DriverHas(r, s)
    ensures LetsGo(Drawn(r, Taken(r.inbox, gone, Room(r))), Admit(r, gone), TurnedAway(r, gone))
  {
    var k := Taken(r.inbox, gone, Room(r));
    var drawn := r.inbox[..k];
    SplitMembers(r.inbox, k);
    assert forall s <- drawn :: s in r.inbox;
    WithoutMembers(drawn, gone);
    ConcatApart(r.inflight, Without(drawn, gone));
  }

  lemma AdmitCore(c: Config, st: State, l: Ledger, rid: nat, gone: set<Req>) returns (l': Ledger)
    requires Core(c, st, l) && rid in st.residents && ReapDead(rid) !in st.bg
    ensures var r := st.residents[rid];
            Core(c, With(st, rid, Admit(r, gone)).(done := st.done + TurnedAway(r, gone)), l')
    ensures l'.hand == l.hand
  {
    var r := st.residents[rid];
    var k := Taken(r.inbox, gone, Room(r));
    InboxApart(l.home, rid, r, st.residents);
    DrawnTakes(r, k);
    l' := InboxToDriver(c, st, l, rid, Drawn(r, k), k);
    AdmitLetsGo(r, gone);
    l' := TurnAway(c, With(st, rid, Drawn(r, k)), l', rid, Admit(r, gone), TurnedAway(r, gone));
    WithTwice(st, rid, Drawn(r, k), Admit(r, gone));
  }

  lemma InboxApart(home: map<Req, Place>, rid: nat, r: Resident, residents: map<nat, Resident>)
    requires rid in residents && residents[rid] == r
    requires forall o <- residents.Keys :: ResidentAt(home, o, residents[o])
    ensures Distinct(r.inflight) && Distinct(r.inbox) && forall s <- r.inbox :: !DriverHas(r, s)
  {
    assert ResidentAt(home, rid, r);
    forall s <- r.inbox
      ensures !DriverHas(r, s)
    {
      assert HasAt(home, s, InInbox(rid));
    }
  }

  lemma TurnAway(c: Config, st: State, l: Ledger, rid: nat, r': Resident, ss: set<Req>) returns (l': Ledger)
    requires Core(c, st, l) && rid in st.residents && ReapDead(rid) !in st.bg
    requires var r := st.residents[rid]; SameIdentity(r, r') && SameProcess(r, r') && LetsGo(r, r', ss)
    ensures Core(c, With(st, rid, r').(done := st.done + ss), l') && l'.hand == l.hand
  {
    forall s <- ss
      ensures s in st.accepted
    {
      DriverOwns(st, l.home, l.hand, rid, s);
    }
    l' := DriverReleases(c, st, l, rid, r', ss, st.done + ss);
  }

  lemma OpenedShape(r: Resident, done: set<Req>, swept: bool, gone: set<Req>)
    requires Quiet(r) && AtPc(r, done, swept) && r.pc == Serving && r.width > 1
    ensures r.slot.Some? && LetsGo(r, Opened(r), {})
    ensures SameIdentity(r, Opened(r)) && SameProcess(r, Opened(r))
    ensures var r' := Admit(Opened(r), gone); Quiet(r') && forall done' :: AtPc(r', done', swept)
  {
    var k := Taken(r.inbox, gone, Room(Opened(r)));
    TakenFits(r.inbox, gone, Room(Opened(r)));
    WithoutMembers(r.inbox[..k], gone);
    assert forall s <- r.inbox[..k] :: s in r.inbox;
    assert forall s <- r.inbox[k..] :: s in r.inbox;
    assert r.slot.value in Admit(Opened(r), gone).inflight;
  }

  lemma OpenedCore(c: Config, st: State, l: Ledger, rid: nat) returns (l': Ledger)
    requires Core(c, st, l) && rid in st.residents && ReapDead(rid) !in st.bg
    requires var r := st.residents[rid];
             r.slot.Some? && LetsGo(r, Opened(r), {}) && SameIdentity(r, Opened(r)) && SameProcess(r, Opened(r))
    ensures Core(c, With(st, rid, Opened(st.residents[rid])), l') && l'.hand == l.hand
  {
    l' := DriverReleases(c, st, l, rid, Opened(st.residents[rid]), {}, st.done);
  }

  lemma LaunchKeeps(c: Config, st: State, l: Ledger, rid: nat, gone: set<Req>) returns (l': Ledger)
    requires Inv(c, st, l) && At(st, rid, Serving) && st.residents[rid].width > 1
    ensures Inv(c, DoLaunch(st, rid, gone), l') && l'.hand == l.hand
  {
    Unshape(c, st, l, rid);
    var r := st.residents[rid];
    NoReapYet(st, rid);
    OpenedShape(r, st.done, ReapDead(rid) !in st.bg, gone);
    l' := OpenedCore(c, st, l, rid);
    l' := AdmitCore(c, With(st, rid, Opened(r)), l', rid, gone);
    WithTwice(st, rid, Opened(r), Admit(Opened(r), gone));
    StepEnds(c, st, DoLaunch(st, rid, gone), l', rid, Admit(Opened(r), gone));
  }

  function Finishing(r: Resident, s: Req): Resident {
    r.(finished := r.finished + {s})
  }

  lemma FinishingShape(r: Resident, done: set<Req>, swept: bool, s: Req)
    requires Quiet(r) && AtPc(r, done, swept) && r.pc == FanOut && s in r.inflight
    ensures Quiet(Finishing(r, s)) && AtPc(Finishing(r, s), done + {s}, swept) && LetsGo(r, Finishing(r, s), {})
  {
  }

  lemma RiderDoneKeeps(c: Config, st: State, l: Ledger, rid: nat, s: Req) returns (l': Ledger)
    requires Inv(c, st, l) && At(st, rid, FanOut) && s in st.residents[rid].inflight
    ensures Inv(c, With(Resolve(st, s), rid, Finishing(st.residents[rid], s)), l') && l'.hand == l.hand
  {
    Unshape(c, st, l, rid);
    var r := st.residents[rid];
    DriverAccepted(c, st, l, rid);
    FinishingShape(r, st.done, ReapDead(rid) !in st.bg, s);
    l' := DriverReleases(c, st, l, rid, Finishing(r, s), {}, st.done + {s});
    StepEnds(c, st, With(Resolve(st, s), rid, Finishing(r, s)), l', rid, Finishing(r, s));
  }

  lemma LandedLetsGo(r: Resident)
    requires forall s <- r.finished :: s in r.inflight
    ensures LetsGo(r, Landed(r), r.finished - Just(r.slot) - Just(r.active))
  {
    WithoutMembers(r.inflight, r.finished);
  }

  lemma WakeShape(r: Resident, done: set<Req>, swept: bool, gone: set<Req>)
    requires Quiet(r) && AtPc(r, done, swept) && r.pc == FanOut
    ensures var r' := Admit(Landed(r), gone);
            Quiet(Settle(r')) && AtPc(Settle(r'), done + TurnedAway(Landed(r), gone), swept)
  {
    var r1 := Landed(r);
    var k := Taken(r1.inbox, gone, Room(r1));
    TakenFits(r1.inbox, gone, Room(r1));
    WithoutMembers(r1.inbox[..k], gone);
    WithoutMembers(r.inflight, r.finished);
    assert forall s <- r1.inbox[..k] :: s in r1.inbox;
    assert forall s <- r1.inbox[k..] :: s in r1.inbox;
    assert r.slot.value in r1.inflight || r.slot.value in done;
  }

  lemma LandedCore(c: Config, st: State, l: Ledger, rid: nat) returns (l': Ledger)
    requires Core(c, st, l) && rid in st.residents && ReapDead(rid) !in st.bg
    requires var r := st.residents[rid]; forall s <- r.finished :: s in r.inflight && s in st.done
    ensures Core(c, With(st, rid, Landed(st.residents[rid])), l') && l'.hand == l.hand
  {
    var r := st.residents[rid];
    LandedLetsGo(r);
    l' := DriverReleases(c, st, l, rid, Landed(r), r.finished - Just(r.slot) - Just(r.active), st.done);
  }

  lemma SettleCore(c: Config, st: State, l: Ledger, rid: nat, r: Resident) returns (l': Ledger)
    requires rid in st.residents && ReapDead(rid) !in st.bg && Core(c, With(st, rid, r), l)
    ensures Core(c, With(st, rid, Settle(r)), l') && l'.hand == l.hand
  {
    l' := DriverReleases(c, With(st, rid, r), l, rid, Settle(r), {}, st.done);
    WithTwice(st, rid, r, Settle(r));
  }

  lemma RefillCore(c: Config, st: State, l: Ledger, rid: nat, gone: set<Req>) returns (l': Ledger)
    requires Core(c, st, l) && rid in st.residents && ReapDead(rid) !in st.bg
    requires var r := st.residents[rid]; forall s <- r.finished :: s in r.inflight && s in st.done
    ensures var r1 := Landed(st.residents[rid]);
            Core(c, With(st.(done := st.done + TurnedAway(r1, gone)), rid, Admit(r1, gone)), l')
    ensures l'.hand == l.hand
  {
    var r1 := Landed(st.residents[rid]);
    l' := LandedCore(c, st, l, rid);
    l' := AdmitCore(c, With(st, rid, r1), l', rid, gone);
    WithTwice(st, rid, r1, Admit(r1, gone));
  }

  lemma WakeCore(c: Config, st: State, l: Ledger, rid: nat, gone: set<Req>) returns (l': Ledger)
    requires Core(c, st, l) && rid in st.residents && ReapDead(rid) !in st.bg
    requires var r := st.residents[rid]; forall s <- r.finished :: s in r.inflight && s in st.done
    ensures Core(c, DoWake(st, rid, gone), l') && l'.hand == l.hand
  {
    var r1 := Landed(st.residents[rid]);
    l' := RefillCore(c, st, l, rid, gone);
    l' := SettleCore(c, st.(done := st.done + TurnedAway(r1, gone)), l', rid, Admit(r1, gone));
  }

  lemma WakeFrame(st: State, rid: nat, gone: set<Req>)
    requires rid in st.residents
    ensures var st', r := DoWake(st, rid, gone), Landed(st.residents[rid]);
            && st'.residents == st.residents[rid := Settle(Admit(r, gone))]
            && st'.done == st.done + TurnedAway(r, gone) && st'.bg == st.bg
  {
  }

  lemma WakeKeeps(c: Config, st: State, l: Ledger, rid: nat, gone: set<Req>) returns (l': Ledger)
    requires Inv(c, st, l) && At(st, rid, FanOut)
    ensures Inv(c, DoWake(st, rid, gone), l') && l'.hand == l.hand
  {
    Unshape(c, st, l, rid);
    var r := st.residents[rid];
    NoReapYet(st, rid);
    l' := WakeCore(c, st, l, rid, gone);
    WakeFrame(st, rid, gone);
    WakeShape(r, st.done, ReapDead(rid) !in st.bg, gone);
    StepEnds(c, st, DoWake(st, rid, gone), l', rid, Settle(Admit(Landed(r), gone)));
  }

  // ----- matched follow-ups -----------------------------------------------------------------------

  lemma QueueLoses(home: map<Req, Place>, q: QueueSpec.Queue, q': QueueSpec.Queue, i: nat, p: Place)
    requires QueueAt(home, q) && i < |QueueSpec.Contents(q)| && p != Queued
    requires QueueSpec.Contents(q') == RemoveAt(QueueSpec.Contents(q), i) && q'.closed == q.closed
    ensures QueueAt(Move(home, {QueueSpec.Contents(q)[i]}, p), q')
    ensures HasAt(home, QueueSpec.Contents(q)[i], Queued)
  {
    RemoveAtMembers(QueueSpec.Contents(q), i);
  }

  lemma MatchTakes(q: QueueSpec.Queue, thread: string, model: string) returns (i: nat)
    requires QueueSpec.PopMatchedThread(q, thread, model).1.Some?
    ensures var (q', got) := QueueSpec.PopMatchedThread(q, thread, model);
            && i < |QueueSpec.Contents(q)| && QueueSpec.Contents(q') == RemoveAt(QueueSpec.Contents(q), i)
            && q'.closed == q.closed && got.value == QueueSpec.Contents(q)[i] && got.value.model == model
  {
    i := QueueSpec.FirstMatch(q.staging, thread, model).value;
  }

  lemma MatchedAt(home: map<Req, Place>, rid: nat, r: Resident, r': Resident, s: Req)
    requires ResidentAt(home, rid, r) && HasAt(home, s, Queued)
    requires r.active == r.slot && r' == r.(active := Some(s), pc := r'.pc)
    ensures ResidentAt(Move(home, {s}, WithDriver(rid)), rid, r')
  {
    assert forall x :: DriverHas(r', x) <==> DriverHas(r, x) || x == s;
  }

  lemma MatchPlaced(st: State, home: map<Req, Place>, hand: set<Req>, rid: nat, q': QueueSpec.Queue, i: nat,
                    r': Resident)
    returns (h: map<Req, Place>)
    requires Placed(st, home, hand) && rid in st.residents
    requires i < |QueueSpec.Contents(st.queue)| && QueueSpec.Contents(q') == RemoveAt(QueueSpec.Contents(st.queue), i)
             && q'.closed == st.queue.closed
    requires var r := st.residents[rid];
             r.active == r.slot && r' == r.(active := Some(QueueSpec.Contents(st.queue)[i]), pc := r'.pc)
    ensures Placed(With(st, rid, r').(queue := q'), h, hand)
  {
    var s := QueueSpec.Contents(st.queue)[i];
    var r := st.residents[rid];
    QueueLoses(home, st.queue, q', i, WithDriver(rid));
    TasksKept(home, st.bg, {s}, WithDriver(rid));
    h := Move(home, {s}, WithDriver(rid));
    assert ResidentAt(home, rid, r);
    MatchedAt(home, rid, r, r', s);
    PlacedAfter(st, With(st, rid, r').(queue := q'), home, hand, {rid}, {s}, WithDriver(rid));
    HandUntouched(st, home, hand, {s});
  }

  lemma MatchShape(r: Resident, done: set<Req>, swept: bool, s: Req)
    requires Quiet(r) && AtPc(r, done, swept) && r.pc == InGrace && s.model == r.model
    ensures var r' := r.(active := Some(s), pc := MatchServing); Quiet(r') && AtPc(r', done, swept)
    ensures r.slot.Some? && r.slot.value.model == r.model
  {
  }

  lemma MatchCore(c: Config, st: State, l: Ledger, rid: nat, q': QueueSpec.Queue, i: nat, r': Resident)
    returns (l': Ledger)
    requires Core(c, st, l) && rid in st.residents && st.residents[rid].pc != Done
    requires i < |QueueSpec.Contents(st.queue)| && QueueSpec.Contents(q') == RemoveAt(QueueSpec.Contents(st.queue), i)
             && q'.closed == st.queue.closed
    requires var r := st.residents[rid];
             r.active == r.slot && r' == r.(active := Some(QueueSpec.Contents(st.queue)[i]), pc := r'.pc)
    ensures Core(c, With(st, rid, r').(queue := q'), l') && l'.hand == l.hand
  {
    var st' := With(st, rid, r').(queue := q');
    var h := MatchPlaced(st, l.home, l.hand, rid, q', i, r');
    RegistryKept(c, st, st', rid);
    ProcessesKept(st, st', l.procs, rid);
    TasksLocal(st, rid, r');
    l' := Ledger(h, l.procs, l.hand);
  }

  lemma MatchReady(st: State, rid: nat, s: Req)
    requires At(st, rid, InGrace) && Shaped(st, rid) && s.model == st.residents[rid].model
    ensures st.residents[rid].active == st.residents[rid].slot
    ensures var r' := st.residents[rid].(active := Some(s), pc := MatchServing);
            Quiet(r') && AtPc(r', st.done, ReapDead(rid) !in st.bg)
  {
    MatchShape(st.residents[rid], st.done, ReapDead(rid) !in st.bg, s);
  }

  lemma MatchedEnds(c: Config, st: State, l: Ledger, rid: nat, q': QueueSpec.Queue, r': Resident)
    requires Others(st, rid) && Core(c, With(st, rid, r').(queue := q'), l)
    requires Quiet(r') && AtPc(r', st.done, ReapDead(rid) !in st.bg)
    ensures Inv(c, With(st, rid, r').(queue := q'), l)
  {
    StepEnds(c, st, With(st, rid, r').(queue := q'), l, rid, r');
  }

  lemma MatchedKeeps(c: Config, st: State, l: Ledger, rid: nat, q': QueueSpec.Queue, i: nat, r': Resident)
    returns (l': Ledger)
    requires Inv(c, st, l) && At(st, rid, InGrace)
    requires i < |QueueSpec.Contents(st.queue)| && QueueSpec.Contents(q') == RemoveAt(QueueSpec.Contents(st.queue), i)
             && q'.closed == st.queue.closed
    requires var r, s := st.residents[rid], QueueSpec.Contents(st.queue)[i];
             r' == r.(active := Some(s), pc := MatchServing) && s.model == r.model
    ensures Inv(c, With(st, rid, r').(queue := q'), l') && l'.hand == l.hand
  {
    Unshape(c, st, l, rid);
    MatchReady(st, rid, QueueSpec.Contents(st.queue)[i]);
    l' := MatchCore(c, st, l, rid, q', i, r');
    MatchedEnds(c, st, l', rid, q', r');
  }

  lemma SlotOfModel(c: Config, st: State, l: Ledger, rid: nat)
    requires Inv(c, st, l) && rid in st.residents
    ensures st.residents[rid].slot.Some? ==> st.residents[rid].slot.value.model == st.residents[rid].model
  {
    assert Shaped(st, rid);
  }

  lemma MatchKeeps(c: Config, st: State, l: Ledger, rid: nat) returns (l': Ledger)
    requires Inv(c, st, l) && At(st, rid, InGrace)
    ensures Inv(c, TakeMatch(st, rid), l') && l'.hand == l.hand
  {
    var r := st.residents[rid];
    l' := l;
    if r.slot.Some? && QueueSpec.PopMatchedThread(st.queue, r.slot.value.thread, r.slot.value.model).1.Some? {
      var (q', got) := QueueSpec.PopMatchedThread(st.queue, r.slot.value.thread, r.slot.value.model);
      var i := MatchTakes(st.queue, r.slot.value.thread, r.slot.value.model);
      SlotOfModel(c, st, l, rid);
      l' := MatchedKeeps(c, st, l, rid, q', i, r.(active := got, pc := MatchServing));
    }
  }

  lemma UnmatchedShape(r: Resident, done: set<Req>, swept: bool)
    requires Quiet(r) && AtPc(r, done, swept) && r.pc == MatchServing
    ensures Quiet(Unmatched(r)) && AtPc(Unmatched(r), done + Just(r.active), swept)
    ensures LetsGo(r, Unmatched(r), Just(r.active) - Just(r.slot))
  {
  }

  lemma MatchDoneKeeps(c: Config, st: State, l: Ledger, rid: nat) returns (l': Ledger)
    requires Inv(c, st, l) && At(st, rid, MatchServing)
    ensures Inv(c, With(ResolveOpt(st, st.residents[rid].active), rid, Unmatched(st.residents[rid])), l')
            && l'.hand == l.hand
  {
    Unshape(c, st, l, rid);
    var r := st.residents[rid];
    DriverAccepted(c, st, l, rid);
    UnmatchedShape(r, st.done, ReapDead(rid) !in st.bg);
    l' := DriverReleases(c, st, l, rid, Unmatched(r), Just(r.active) - Just(r.slot), st.done + Just(r.active));
    StepEnds(c, st, With(ResolveOpt(st, r.active), rid, Unmatched(r)), l', rid, Unmatched(r));
  }

  // ----- unwinding --------------------------------------------------------------------------------

  function Unwound(r: Resident): Resident {
    r.(inflight := [], finished := {})
  }

  lemma UnwoundShape(r: Resident, done: set<Req>, swept: bool)
    requires Quiet(r) && AtPc(r, done, swept) && Abortable(r.pc)
    ensures CanFinish(Unwound(r), done + Elements(r.inflight))
    ensures LetsGo(r, Unwound(r), Elements(r.inflight) - Just(r.slot) - Just(r.active))
  {
  }

  lemma UnwindKeeps(c: Config, st: State, l: Ledger, rid: nat, alive: bool) returns (l': Ledger)
    requires Inv(c, st, l) && rid in st.residents && Abortable(st.residents[rid].pc)
    ensures Inv(c, Unwind(st, rid, alive), l') && l'.hand == l.hand
  {
    Unshape(c, st, l, rid);
    var r := st.residents[rid];
    DriverAccepted(c, st, l, rid);
    NoReapYet(st, rid);
    UnwoundShape(r, st.done, ReapDead(rid) !in st.bg);
    l' := DriverReleases(c, st, l, rid, Unwound(r), Elements(r.inflight) - Just(r.slot) - Just(r.active),
        st.done + Elements(r.inflight));
    l' := StepFinishes(c, st, With(ResolveAll(st, r.inflight), rid, Unwound(r)), l', rid, Unwound(r), alive);
  }
}
