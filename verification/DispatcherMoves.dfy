/** How requests pass between inbox, driver, hand and done, one resident at a time. */
module DispatcherMoves {
  import opened Common
  import opened Dispatcher
  import opened DispatcherInv

  lemma KeptElsewhere(st: State, home: map<Req, Place>, hand: set<Req>, rid: nat, ss: set<Req>, p: Place)
    requires QueueAt(home, st.queue) && TasksAt(home, st.bg)
    requires forall s <- ss :: s in home && (Owner(home[s], rid) || home[s] == InHand)
    requires Owner(p, rid) || p == Released || p == InHand
    ensures QueueAt(Move(home, ss, p), st.queue) && TasksAt(Move(home, ss, p), st.bg)
    ensures forall s <- ss, o :: s in home && Owner(home[s], o) ==> o in {rid}
  {
    QueueKept(home, st.queue, ss, p);
    TasksKept(home, st.bg, ss, p);
  }

  lemma PlacedLocal(st: State, home: map<Req, Place>, hand: set<Req>, rid: nat, r': Resident, done': set<Req>,
                    ss: set<Req>, p: Place)
    requires Placed(st, home, hand) && rid in st.residents
    requires st.done <= done'
    requires forall s <- ss :: s in home && (Owner(home[s], rid) || home[s] == InHand)
    requires Owner(p, rid) || (p == Released && ss <= done') || p == InHand
    requires ResidentAt(Move(home, ss, p), rid, r')
    ensures Placed(With(st, rid, r').(done := done'), Move(home, ss, p), if p == InHand then hand + ss else hand - ss)
  {
    KeptElsewhere(st, home, hand, rid, ss, p);
    PlacedAfter(st, With(st, rid, r').(done := done'), home, hand, {rid}, ss, p);
  }

  lemma TasksLocal(st: State, rid: nat, r': Resident)
    requires Tasks(st) && rid in st.residents
    requires st.residents[rid].life == Dead ==> r'.life == Dead
    requires ReapDead(rid) in st.bg ==> r'.pc == Done
    ensures Tasks(With(st, rid, r'))
  {
  }

  /** One resident's own step, requests moving among its places, the hand and release. */
  lemma CoreLocal(c: Config, st: State, l: Ledger, rid: nat, r': Resident, done': set<Req>, ss: set<Req>, p: Place)
    returns (l': Ledger)
    requires Core(c, st, l) && rid in st.residents
    requires SameIdentity(st.residents[rid], r') && SameProcess(st.residents[rid], r')
    requires ReapDead(rid) in st.bg ==> r'.pc == Done
    requires st.done <= done' <= st.accepted
    requires forall s <- ss :: s in l.home && (Owner(l.home[s], rid) || l.home[s] == InHand)
    requires Owner(p, rid) || (p == Released && ss <= done') || p == InHand
    requires ResidentAt(Move(l.home, ss, p), rid, r')
    ensures Core(c, With(st, rid, r').(done := done'), l')
    ensures l' == Ledger(Move(l.home, ss, p), l.procs, if p == InHand then l.hand + ss else l.hand - ss)
  {
    var st' := With(st, rid, r').(done := done');
    PlacedLocal(st, l.home, l.hand, rid, r', done', ss, p);
    RegistryKept(c, st, st', rid);
    ProcessesKept(st, st', l.procs, rid);
    TasksLocal(st, rid, r');
    l' := Ledger(Move(l.home, ss, p), l.procs, if p == InHand then l.hand + ss else l.hand - ss);
  }

  lemma ResolveKeepsCore(c: Config, st: State, l: Ledger, ss: set<Req>)
    requires Core(c, st, l) && ss <= st.accepted
    ensures Core(c, st.(done := st.done + ss), l)
  {
    var st' := st.(done := st.done + ss);
    ProcessesSame(st, st', l.procs);
    RegistrySame(c, st, st');
  }

  lemma ResolveKeeps(c: Config, st: State, l: Ledger, ss: set<Req>)
    requires Inv(c, st, l) && ss <= st.accepted
    ensures Inv(c, st.(done := st.done + ss), l)
  {
    ResolveKeepsCore(c, st, l, ss);
    var st' := st.(done := st.done + ss);
    forall o <- st'.residents.Keys
      ensures Shaped(st', o)
    {
      assert Shaped(st, o);
      AtPcGrows(st.residents[o], st.done, st'.done, ReapDead(o) !in st.bg);
    }
  }

  lemma DriverOwns(st: State, home: map<Req, Place>, hand: set<Req>, rid: nat, s: Req)
    requires Placed(st, home, hand) && rid in st.residents && DriverHas(st.residents[rid], s)
    ensures s in st.accepted && HasAt(home, s, WithDriver(rid))
  {
    assert ResidentAt(home, rid, st.residents[rid]);
  }

  /** What a driver holds has been accepted. */
  lemma DriverAccepted(c: Config, st: State, l: Ledger, rid: nat)
    requires Core(c, st, l) && rid in st.residents
    ensures var r := st.residents[rid];
            Just(r.slot) <= st.accepted && Just(r.active) <= st.accepted && Elements(r.inflight) <= st.accepted
    ensures var r := st.residents[rid];
            var done' := st.done + Just(r.slot);
            st.done <= done' <= st.accepted
  {
    HeldAccepted(st, l.home, l.hand, rid);
  }

  lemma HeldAccepted(st: State, home: map<Req, Place>, hand: set<Req>, rid: nat)
    requires Placed(st, home, hand) && rid in st.residents
    ensures var r := st.residents[rid];
            Just(r.slot) <= st.accepted && Just(r.active) <= st.accepted && Elements(r.inflight) <= st.accepted
  {
    var r := st.residents[rid];
    forall s | DriverHas(r, s)
      ensures s in st.accepted
    {
      DriverOwns(st, home, hand, rid, s);
    }
  }

  lemma HandUntouched(st: State, home: map<Req, Place>, hand: set<Req>, ss: set<Req>)
    requires Placed(st, home, hand) && forall s <- ss :: !HasAt(home, s, InHand)
    ensures hand - ss == hand
  {
  }

  /** The first `k` of the inbox go to the driver. */
  ghost predicate TakesInbox(r: Resident, r': Resident, k: nat) {
    && k <= |r.inbox| && r'.inbox == r.inbox[k..] && r'.pending == r.pending
    && ((Distinct(r.inflight) && Distinct(r.inbox) && forall s :: s in r.inbox ==> s !in r.inflight) ==>
          Distinct(r'.inflight))
    && forall s :: DriverHas(r', s) <==> DriverHas(r, s) || s in r.inbox[..k]
  }

  lemma SplitMembers<T>(s: seq<T>, k: nat)
    requires k <= |s| && Distinct(s)
    ensures Distinct(s[k..]) && Distinct(s[..k])
    ensures forall x :: x in s <==> x in s[..k] || x in s[k..]
    ensures forall x :: !(x in s[..k] && x in s[k..])
  {
    assert s == s[..k] + s[k..];
  }

  lemma InboxPlaced(home: map<Req, Place>, rid: nat, r: Resident, r': Resident, k: nat)
    requires ResidentAt(home, rid, r) && TakesInbox(r, r', k)
    ensures ResidentAt(Move(home, Elements(r.inbox[..k]), WithDriver(rid)), rid, r')
    ensures forall s <- r.inbox :: HasAt(home, s, InInbox(rid))
  {
    SplitMembers(r.inbox, k);
    forall s <- r.inbox
      ensures s !in r.inflight
    {
      assert DriverHas(r, s) <==> HasAt(home, s, WithDriver(rid));
    }
  }

  lemma InboxToDriver(c: Config, st: State, l: Ledger, rid: nat, r': Resident, k: nat) returns (l': Ledger)
    requires Core(c, st, l) && rid in st.residents
    requires var r := st.residents[rid]; SameIdentity(r, r') && SameProcess(r, r') && TakesInbox(r, r', k)
    requires ReapDead(rid) in st.bg ==> r'.pc == Done
    ensures Core(c, With(st, rid, r'), l') && l'.hand == l.hand
  {
    var r := st.residents[rid];
    assert ResidentAt(l.home, rid, r);
    InboxPlaced(l.home, rid, r, r', k);
    var ss := Elements(r.inbox[..k]);
    forall s <- ss
      ensures HasAt(l.home, s, InInbox(rid))
    {
      assert s in r.inbox;
    }
    HandUntouched(st, l.home, l.hand, ss);
    l' := CoreLocal(c, st, l, rid, r', st.done, ss, WithDriver(rid));
  }

  /** The driver lets go of `ss`, all resolved. */
  ghost predicate LetsGo(r: Resident, r': Resident, ss: set<Req>) {
    && r'.inbox == r.inbox && r'.pending == r.pending
    && (Distinct(r.inflight) ==> Distinct(r'.inflight))
    && (forall s <- ss :: DriverHas(r, s))
    && forall s :: DriverHas(r', s) <==> DriverHas(r, s) && s !in ss
  }

  lemma ReleasePlaced(home: map<Req, Place>, rid: nat, r: Resident, r': Resident, ss: set<Req>)
    requires ResidentAt(home, rid, r) && LetsGo(r, r', ss)
    ensures ResidentAt(Move(home, ss, Released), rid, r')
    ensures forall s <- ss :: HasAt(home, s, WithDriver(rid))
  {
  }

  lemma DriverReleases(c: Config, st: State, l: Ledger, rid: nat, r': Resident, ss: set<Req>, done': set<Req>)
    returns (l': Ledger)
    requires Core(c, st, l) && rid in st.residents
    requires var r := st.residents[rid]; SameIdentity(r, r') && SameProcess(r, r') && LetsGo(r, r', ss)
    requires ReapDead(rid) in st.bg ==> r'.pc == Done
    requires st.done <= done' <= st.accepted && ss <= done'
    ensures Core(c, With(st, rid, r').(done := done'), l') && l'.hand == l.hand
  {
    assert ResidentAt(l.home, rid, st.residents[rid]);
    ReleasePlaced(l.home, rid, st.residents[rid], r', ss);
    HandUntouched(st, l.home, l.hand, ss);
    l' := CoreLocal(c, st, l, rid, r', done', ss, Released);
  }

  /** The request in hand joins an inbox. */
  lemma HandToInbox(c: Config, st: State, l: Ledger, rid: nat, r': Resident, s: Req) returns (l': Ledger)
    requires Core(c, st, l) && rid in st.residents && s in l.hand
    requires var r := st.residents[rid];
             && SameIdentity(r, r') && SameProcess(r, r') && r'.pc == r.pc
             && r'.inbox == r.inbox + [s] && r'.pending == r.pending && r'.inflight == r.inflight && r'.slot == r.slot
                 && r'.active == r.active
    ensures Core(c, With(st, rid, r'), l') && l'.hand == l.hand - {s}
  {
    var r := st.residents[rid];
    assert ResidentAt(l.home, rid, r);
    assert HasAt(l.home, s, InHand);
    assert s !in r.inbox by {
      assert s in r.inbox <==> HasAt(l.home, s, InInbox(rid));
    }
    DistinctWithNew(r.inbox, s);
    var h := Move(l.home, {s}, InInbox(rid));
    assert ResidentAt(h, rid, r') by {
      assert forall x :: DriverHas(r', x) <==> DriverHas(r, x);
    }
    l' := CoreLocal(c, st, l, rid, r', st.done, {s}, InInbox(rid));
  }

  /** The same requests in the same places of a resident. */
  predicate SameHoldings(r: Resident, r': Resident) {
    && r'.inbox == r.inbox && r'.pending == r.pending && r'.inflight == r.inflight
    && r'.slot == r.slot && r'.active == r.active
  }

  lemma PlacedSame(st: State, st': State, home: map<Req, Place>, hand: set<Req>, rid: nat)
    requires Placed(st, home, hand) && rid in st.residents && rid in st'.residents
    requires SameHoldings(st.residents[rid], st'.residents[rid])
    requires st'.residents == st.residents[rid := st'.residents[rid]]
    requires st'.queue == st.queue && st'.bg == st.bg && st'.accepted == st.accepted && st.done <= st'.done
    ensures Placed(st', home, hand)
  {
    forall o <- st'.residents.Keys
      ensures ResidentAt(home, o, st'.residents[o])
    {
      assert ResidentAt(home, o, st.residents[o]);
      assert forall s :: DriverHas(st'.residents[o], s) <==> DriverHas(st.residents[o], s);
    }
  }
}
