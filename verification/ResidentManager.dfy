/** The critical sections of the multi-resident manager as the program runs them: resident
    objects and a registry updated in place.  Each method leaves exactly the state its
    specification in `Dispatcher` says; those that are a whole action keep the invariant. */
module ResidentManagers {
  import opened Common
  import opened Dispatcher
  import opened DispatcherRouting
  import opened DispatcherTeardown
  import opened DispatcherFinally
  import opened DispatcherDriver
  import DispatcherSteps
  import QueueSpec

  /** A `Resident`; `rid` names the object. */
  class ResidentCell {
    const rid: nat
    const model: string
    const port: int
    const need: int
    const gpu: int
    const split: Split
    var life: Life
    var inbox: seq<Req>
    var inflight: seq<Req>
    var finished: set<Req>
    var active: Option<Req>
    var handle: Option<nat>
    var booting: Option<nat>
    var tornDown: bool
    var lastActive: real
    var pc: Pc
    var slot: Option<Req>
    var pending: seq<Req>
    var width: nat

    ghost function Value(): Resident
      reads this
    {
      Resident(model, port, need, gpu, split, life, inbox, inflight, finished, active, handle, booting, tornDown,
               lastActive, pc, slot, pending, width)
    }

    /** The placeholder of `_reserve_and_start_locked`. */
    constructor Reserve(rid: nat, s: Req, port: int, f: Footprint, now: real)
      ensures Value() == Fresh(s, port, f, now) && this.rid == rid
    {
      this.rid, this.model, this.port, this.need, this.gpu, this.split := rid, s.model, port, f.need, f.gpu, f.split;
      life, inbox, inflight, finished, active := ReservedLoading, [s], [], {}, None;
      handle, booting, tornDown, lastActive := None, None, false, now;
      pc, slot, pending, width := NotStarted, None, [], 1;
    }

    /** The exactly-once claim: whoever makes it owns what the resident recorded. */
    method ClaimTeardown() returns (handle: Option<nat>, booting: Option<nat>)
      modifies `tornDown, `handle, `booting
      ensures handle == old(this.handle) && booting == old(this.booting)
      ensures Value() == TornDown(old(Value()))
    {
      handle, booting := this.handle, this.booting;
      tornDown, this.handle, this.booting := true, None, None;
    }

    /** The drain loop of `_begin_evict_locked`. */
    method DrainInbox() returns (drained: seq<Req>)
      modifies `inbox
      ensures Value() == old(Value()).(inbox := [])
      ensures drained == old(inbox)
    {
      drained := [];
      while inbox != []
        invariant drained + inbox == old(inbox)
        decreases |inbox|
      {
        drained := drained + [inbox[0]];
        inbox := inbox[1..];
      }
    }

    /** Finished riders are removed from the rider list one by one. */
    method LandFinished()
      modifies `inflight, `finished
      ensures Value() == Landed(old(Value()))
    {
      var kept := [];
      for i := 0 to |inflight|
        invariant inflight == old(inflight) && finished == old(finished)
        invariant kept == Without(inflight[..i], finished)
      {
        WithoutGrows(inflight, i, finished);
        if inflight[i] !in finished {
          kept := kept + [inflight[i]];
        }
      }
      assert inflight[..|inflight|] == inflight;
      inflight, finished := kept, {};
    }

    /** `_admit_from_inbox`: `gone` are the riders whose client has disconnected. */
    method AdmitFromInbox(gone: set<Req>) returns (failed: set<Req>)
      modifies `inbox, `inflight
      ensures Value() == Admit(old(Value()), gone)
      ensures failed == TurnedAway(old(Value()), gone)
    {
      failed := {};
      ghost var k := 0;
      while |inflight| < width && inbox != []
        invariant Admitting(old(inbox), old(inflight), gone, width, k, inbox, inflight, failed)
        decreases |inbox|
      {
        AdmitOne(old(inbox), old(inflight), gone, width, k, inbox, inflight, failed);
        var extra := inbox[0];
        inbox := inbox[1..];
        if extra in gone {
          failed := failed + {extra};
        } else {
          inflight := inflight + [extra];
        }
        k := k + 1;
      }
      AdmitEnds(old(Value()), gone, k, inbox, inflight, failed);
    }
  }

  /** After `k` entries of the inbox `was` have been taken. */
  ghost predicate Admitting(was: seq<Req>, riders: seq<Req>, gone: set<Req>, width: nat, k: nat,
                            inbox: seq<Req>, inflight: seq<Req>, failed: set<Req>) {
    && k <= |was| && inbox == was[k..]
    && inflight == riders + Without(was[..k], gone)
    && failed == Elements(was[..k]) * gone
    && Taken(was, gone, Left(width, riders)) == k + Taken(inbox, gone, Left(width, inflight))
  }

  lemma TakeOne(inbox: seq<Req>, gone: set<Req>, room: nat)
    requires inbox != [] && room > 0
    ensures Taken(inbox, gone, room) == 1 + Taken(inbox[1..], gone, if inbox[0] in gone then room else room - 1)
  {
  }

  lemma AdmitOne(was: seq<Req>, riders: seq<Req>, gone: set<Req>, width: nat, k: nat,
                 inbox: seq<Req>, inflight: seq<Req>, failed: set<Req>)
    requires Admitting(was, riders, gone, width, k, inbox, inflight, failed) && inbox != [] && |inflight| < width
    ensures var extra := inbox[0];
            Admitting(was, riders, gone, width, k + 1, inbox[1..],
                      if extra in gone then inflight else inflight + [extra],
                      if extra in gone then failed + {extra} else failed)
  {
    var extra := inbox[0];
    var without, drawn := Without(was[..k], gone), Elements(was[..k]);
    TakeOne(inbox, gone, Left(width, inflight));
    assert Left(width, inflight + [extra]) == Left(width, inflight) - 1;
    WithoutGrows(was, k, gone);
    assert was[k] == extra && was[k..][1..] == was[k + 1..];
    assert (drawn + {extra}) * gone == drawn * gone + {extra} * gone;
    assert riders + (without + [extra]) == riders + without + [extra];
  }

  lemma AdmitEnds(r: Resident, gone: set<Req>, k: nat, inbox: seq<Req>, inflight: seq<Req>, failed: set<Req>)
    requires Admitting(r.inbox, r.inflight, gone, r.width, k, inbox, inflight, failed)
             && (inbox == [] || |inflight| >= r.width)
    ensures r.(inbox := inbox, inflight := inflight) == Admit(r, gone) && failed == TurnedAway(r, gone)
  {
    assert Taken(inbox, gone, Left(r.width, inflight)) == 0;
  }

  /** Taking one more entry into account. */
  lemma {:induction false} WithoutGrows(ss: seq<Req>, k: nat, gone: set<Req>)
    requires k < |ss|
    ensures Without(ss[..k + 1], gone) == Without(ss[..k], gone) + if ss[k] in gone then [] else [ss[k]]
    ensures Elements(ss[..k + 1]) == Elements(ss[..k]) + {ss[k]}
    decreases k
  {
    assert ss[..k + 1] == ss[..k] + [ss[k]];
    if k > 0 {
      WithoutGrows(ss[1..], k - 1, gone);
      assert ss[..k][1..] == ss[1..][..k - 1];
      assert ss[..k + 1][1..] == ss[1..][..k];
    }
  }

  class Manager {
    const c: Config
    var residents: map<string, ResidentCell>
    var queue: QueueSpec.Queue
    var bg: set<Task>
    var accepted: set<Req>
    var done: set<Req>
    var defers: map<Req, nat>
    var spawned: set<nat>
    var reaps: multiset<nat>
    var exited: set<nat>
    var stopped: bool
    // every resident some task still refers to, registered or not
    ghost var cells: map<nat, ResidentCell>

    ghost predicate Valid()
      reads this
    {
      && (forall rid <- cells.Keys :: cells[rid].rid == rid)
      && (forall m <- residents.Keys :: Known(residents[m]) && residents[m].model == m)
    }

    /** Between actions the object also keeps the dispatcher's invariant. */
    ghost predicate Safe()
      reads this, cells.Values
    {
      Valid() && ValidConfig(c) && DispatcherSteps.Sound(c, Model())
    }

    ghost predicate Known(r: ResidentCell)
      reads this
    {
      r.rid in cells && cells[r.rid] == r
    }

    ghost function Model(): State
      requires Valid()
      reads this, cells.Values
    {
      State(queue, map m <- residents.Keys :: residents[m].rid, map rid <- cells.Keys :: cells[rid].Value(),
            bg, accepted, done, defers, spawned, reaps, exited, stopped)
    }

    constructor (c: Config)
      ensures Valid() && this.c == c && Model() == Init
      ensures ValidConfig(c) ==> Safe()
    {
      this.c := c;
      residents, queue, bg, accepted, done, defers := map[], QueueSpec.EmptyQueue, {}, {}, {}, map[];
      spawned, reaps, exited, stopped := {}, multiset{}, {}, false;
      cells := map[];
      new;
      DispatcherSteps.InitSound(c);
    }

    lemma PortsHeld()
      requires Valid()
      ensures HeldPorts(Model()) == set m <- residents.Keys :: residents[m].port
    {
      var st := Model();
      assert forall m <- residents.Keys :: Known(residents[m]);
      assert forall m <- residents.Keys ::
             st.registry[m] in st.residents && st.residents[st.registry[m]].port == residents[m].port;
    }

    /** `_alloc_port`: scan the window for a port no registered resident holds. */
    method AllocPort() returns (port: int)
      requires Valid()
      ensures port == Dispatcher.AllocPort(c, Model())
    {
      var held := set m <- residents.Keys :: residents[m].port;
      PortsHeld();
      port := c.portBase;
      while port < c.portBase + PORT_WINDOW
        invariant c.portBase <= port <= c.portBase + PORT_WINDOW
        invariant LowestFree(held, port, c.portBase + PORT_WINDOW - port, c.portBase)
                  == Dispatcher.AllocPort(c, Model())
      {
        if port !in held {
          return;
        }
        port := port + 1;
      }
      port := c.portBase;
    }

    // ----- reading the registry -----------------------------------------------------------------

    lemma ModelLooksUp()
      requires Valid()
      ensures var st := Model();
              && st.registry.Keys == residents.Keys
              && (forall m <- residents.Keys :: st.registry[m] == residents[m].rid && st.registry[m] in st.residents
                                                && st.residents[st.registry[m]] == residents[m].Value())
              && LiveModels(st) == set m <- residents.Keys | residents[m].life != Dead
    {
      assert forall m <- residents.Keys :: Known(residents[m]);
    }

    /** `_lru_idle_evictable`. */
    method LruIdleEvictable() returns (victim: ResidentCell?)
      requires Valid()
      ensures victim == null ==> forall m <- residents.Keys :: !Candidate(Model(), residents[m].rid)
      ensures victim != null ==> Known(victim) && LeastRecent(Model(), victim.rid)
    {
      ModelLooksUp();
      victim := null;
      var rest := residents.Keys;
      while rest != {}
        invariant rest <= residents.Keys
        invariant victim != null ==> Known(victim) && Candidate(Model(), victim.rid)
        invariant forall m <- residents.Keys - rest :: Candidate(Model(), residents[m].rid) ==>
                    victim != null && victim.lastActive <= residents[m].lastActive
        decreases |rest|
      {
        var m :| m in rest;
        var r := residents[m];
        assert Known(r) && Model().residents[r.rid] == r.Value();
        if r.life == IdleEvictable && r.active == None && r.inflight == []
            && (victim == null || r.lastActive < victim.lastActive) {
          victim := r;
        }
        rest := rest - {m};
      }
    }

    /** The budget of still-booting siblings on the card. */
    method BootingReserve(siblings: set<string>, gpu: int) returns (reserve: int)
      requires siblings <= residents.Keys
      ensures (forall m <- siblings :: residents[m].gpu != gpu) ==> reserve == 0
    {
      reserve := 0;
      var rest := siblings;
      while rest != {}
        invariant rest <= siblings
        invariant (forall m <- siblings :: residents[m].gpu != gpu) ==> reserve == 0
        decreases |rest|
      {
        var m :| m in rest;
        if residents[m].life == ReservedLoading && residents[m].gpu == gpu {
          reserve := reserve + residents[m].need;
        }
        rest := rest - {m};
      }
    }

    /** Every sibling is pinned to another card. */
    method AllIsolated(siblings: set<string>, gpu: int) returns (ok: bool)
      requires siblings <= residents.Keys
      ensures ok <==> forall m <- siblings :: residents[m].split == NoneSplit && residents[m].gpu != gpu
    {
      var rest := siblings;
      while rest != {}
        invariant rest <= siblings
        invariant forall m <- siblings - rest :: residents[m].split == NoneSplit && residents[m].gpu != gpu
        decreases |rest|
      {
        var m :| m in rest;
        if residents[m].split != NoneSplit || residents[m].gpu == gpu {
          return false;
        }
        rest := rest - {m};
      }
      assert siblings - rest == siblings;
      ok := true;
    }

    /** The candidate and its siblings are all unsplit and no sibling is on its card. */
    method Apart(siblings: set<string>, f: Footprint) returns (ok: bool)
      requires siblings <= residents.Keys
      ensures ok <==> (siblings != {} ==>
              f.split == NoneSplit && forall m <- siblings ::
                  residents[m].split == NoneSplit && residents[m].gpu != f.gpu)
    {
      if siblings == {} {
        return true;
      }
      if f.split != NoneSplit {
        return false;
      }
      ok := AllIsolated(siblings, f.gpu);
    }

    ghost predicate IsolatedSpec(f: Footprint)
      requires Valid()
      reads this, cells.Values
    {
      var st := Model();
      LiveModels(st) != {} ==>
        f.split == NoneSplit
        && forall m <- LiveModels(st) ::
            st.residents[st.registry[m]].split == NoneSplit && st.residents[st.registry[m]].gpu != f.gpu
    }

    lemma IsolatedLooksUp(f: Footprint)
      requires Valid()
      ensures var siblings := set m <- residents.Keys | residents[m].life != Dead;
              && siblings == LiveModels(Model())
              && (IsolatedSpec(f) <==>
                    (siblings != {} ==>
                       f.split == NoneSplit
                       && forall m <- siblings :: residents[m].split == NoneSplit && residents[m].gpu != f.gpu))
    {
      ModelLooksUp();
    }

    /** `_vram_admits_locked`. */
    method VramAdmits(f: Footprint, probe: Option<int>) returns (ok: bool)
      requires Valid()
      ensures ok == Dispatcher.VramAdmits(Model(), f, probe)
    {
      ghost var st := Model();
      IsolatedLooksUp(f);
      var siblings := set m <- residents.Keys | residents[m].life != Dead;
      var apart := Apart(siblings, f);
      assert Model() == st;
      if !apart {
        return false;
      }
      if probe == None {
        return siblings == {};
      }
      var reserve := BootingReserve(siblings, f.gpu);
      ok := probe.value - reserve >= f.need;
      assert Model() == st;
      BootingChargeNeverDecides(st, f, probe.value);
    }

    // ----- updating the registry ----------------------------------------------------------------

    /** A method that wrote to one resident object only. */
    twostate lemma OneChanged(r: ResidentCell)
      requires old(Valid()) && Valid() && cells == old(cells) && Known(r)
      requires forall rid <- cells.Keys :: rid != r.rid ==> unchanged(cells[rid])
      ensures Model().residents == old(Model()).residents[r.rid := r.Value()]
    {
      forall rid <- cells.Keys | rid != r.rid
        ensures cells[rid].Value() == old(cells[rid].Value())
      {
        assert unchanged(cells[rid]);
      }
    }

    /** The drain of `_begin_evict_locked`, which every call does. */
    method SurrenderInbox(r: ResidentCell)
      requires Valid() && Known(r)
      modifies this`bg, r`inbox
      ensures Valid() && Model() == Drained(old(Model()), r.rid)
      ensures Known(r) && r.life == old(r.life) && r.inbox == []
    {
      var drained := r.DrainInbox();
      if drained != [] {
        bg := bg + {Requeue(drained)};
      }
      OneChanged(r);
    }

    lemma RegisteredHere(r: ResidentCell)
      requires Valid() && Known(r)
      ensures IsRegistered(Model(), r.rid) <==> r.model in residents && residents[r.model] == r
    {
      ModelLooksUp();
      if r.model in residents {
        assert Known(residents[r.model]);
      }
    }

    /** Leave the registry, if it still names this object. */
    method Forget(r: ResidentCell)
      requires Valid() && Known(r)
      modifies this`residents
      ensures Valid() && Known(r) && Model() == Unregister(old(Model()), r.rid)
    {
      RegisteredHere(r);
      if r.model in residents && residents[r.model] == r {
        residents := residents - {r.model};
        Delisted(r.model);
      }
    }

    /** The part of `_begin_evict_locked` that happens once: die and leave the registry. */
    method MarkDead(r: ResidentCell)
      requires Valid() && Known(r)
      modifies this`residents, this`bg, r`life
      ensures Valid() && Known(r)
      ensures var st := old(Model());
              Model() == With(Unregister(st, r.rid), r.rid, Died(st.residents[r.rid])).(bg := st.bg + {Teardown(r.rid)})
    {
      Forget(r);
      label Forgotten:
      r.life := Dead;
      bg := bg + {Teardown(r.rid)};
      OneChanged@Forgotten(r);
    }

    /** `_begin_evict_locked`. */
    method BeginEvict(r: ResidentCell)
      requires Valid() && Known(r)
      modifies this`residents, this`bg, r`inbox, r`life
      ensures Valid() && Known(r)
      ensures Model() == Dispatcher.BeginEvict(old(Model()), r.rid)
    {
      ghost var st := Model();
      SurrenderInbox(r);
      EvictIs(st, r.rid);
      if r.life == Dead {
        return;
      }
      MarkDead(r);
    }

    /** Claim the teardown of `r` and let go of what it recorded. */
    method ClaimAndLetGo(r: ResidentCell, alive: bool)
      requires Valid() && Known(r)
      modifies this`reaps, this`exited, r`tornDown, r`handle, r`booting
      ensures Valid() && Known(r)
      ensures var st := old(Model());
              Model() == With(Release(st, old(r.handle), old(r.booting), alive), r.rid, TornDown(old(r.Value())))
    {
      LetGo(r.handle, r.booting, alive);
      label Gone:
      var _, _ := r.ClaimTeardown();
      OneChanged@Gone(r);
    }

    /** The critical section of `_evict_teardown`; what it lets go of is reaped afterwards. */
    method EvictTeardown(r: ResidentCell, alive: bool)
      requires Safe() && Known(r) && Teardown(r.rid) in bg
      modifies this`bg, this`reaps, this`exited, r`tornDown, r`handle, r`booting
      ensures Safe() && Known(r) && Model() == Apply(c, old(Model()), RunTeardown(r.rid, alive))
    {
      DispatcherSteps.StepSound(c, Model(), RunTeardown(r.rid, alive));
      TakeDown(r, alive);
    }

    method TakeDown(r: ResidentCell, alive: bool)
      requires Valid() && Known(r)
      modifies this`bg, this`reaps, this`exited, r`tornDown, r`handle, r`booting
      ensures Valid() && Known(r) && Model() == DoTeardown(old(Model()), r.rid, alive)
    {
      bg := bg - {Teardown(r.rid)};
      assert Model() == Finish(old(Model()), Teardown(r.rid));
      if !r.tornDown {
        ClaimAndLetGo(r, alive);
      }
    }

    /** A live handle or a booting pid goes to a reap. */
    method LetGo(handle: Option<nat>, booting: Option<nat>, alive: bool)
      requires Valid()
      modifies this`reaps, this`exited
      ensures Valid() && Model() == Release(old(Model()), handle, booting, alive)
    {
      if handle.Some? && alive {
        reaps := reaps + multiset{handle.value};
      } else if booting.Some? {
        reaps := reaps + multiset{booting.value};
      } else if handle.Some? {
        exited := exited + {handle.value};
      }
    }

    /** A new object was added under its tag. */
    twostate lemma Joined(new r: ResidentCell)
      requires old(Valid()) && Valid() && r.rid !in old(cells) && cells == old(cells)[r.rid := r]
      requires forall rid <- old(cells).Keys :: unchanged(old(cells)[rid])
      ensures Model().residents == old(Model()).residents[r.rid := r.Value()]
    {
      forall rid <- old(cells).Keys
        ensures cells[rid].Value() == old(cells[rid].Value())
      {
        assert unchanged(old(cells)[rid]);
      }
    }

    twostate lemma Listed(new r: ResidentCell)
      requires old(Valid()) && Valid() && residents == old(residents)[r.model := r]
      ensures Model().registry == old(Model()).registry[r.model := r.rid]
    {
    }

    twostate lemma Delisted(m: string)
      requires old(Valid()) && Valid() && residents == old(residents) - {m}
      ensures Model().registry == old(Model()).registry - {m}
    {
    }

    /** `_fail_completion_future`. */
    method Fail(s: Req)
      requires Valid()
      modifies this`done
      ensures Valid() && Model() == Resolve(old(Model()), s)
    {
      done := done + {s};
    }

    /** The placeholder enters the registry. */
    method Place(s: Req, port: int, f: Footprint, now: real, rid: nat)
      requires Valid() && rid !in cells
      modifies this`residents, this`cells
      ensures Valid()
      ensures var st := old(Model());
              Model() == With(st, rid, Fresh(s, port, f, now)).(registry := st.registry[s.model := rid])
    {
      var r := new ResidentCell.Reserve(rid, s, port, f, now);
      residents := residents[s.model := r];
      cells := cells[rid := r];
      Joined(r);
      Listed(r);
    }

    /** `_reserve_and_start_locked`; `rid` names the new object. */
    method ReserveAndStart(s: Req, f: Option<Footprint>, probe: Option<int>, now: real, ghost o: Oracle, rid: nat)
      requires Valid() && o.footprint == f && o.probe == probe && o.now == now && o.rid == rid && rid !in cells
      modifies this`residents, this`done, this`cells
      ensures Valid() && Model() == Reserve(c, old(Model()), s, o)
    {
      if f == None {
        Fail(s);
        return;
      }
      ghost var st := Model();
      var admitted := VramAdmits(f.value, probe);
      assert Model() == st;
      if !admitted {
        Fail(s);
        return;
      }
      var port := AllocPort();
      assert Model() == st;
      Place(s, port, f.value, now, rid);
    }

    /** `_defer_unroutable`. */
    method DeferUnroutable(s: Req)
      requires Valid()
      modifies this`defers, this`done, this`bg
      ensures Valid() && Model() == Defer(old(Model()), s)
    {
      var n := Count(s);
      if n > MAX_DISPATCH_DEFERS {
        Fail(s);
      } else {
        bg := bg + {Backoff(s)};
      }
    }

    /** One more deferral. */
    method Count(s: Req) returns (n: nat)
      requires Valid()
      modifies this`defers
      ensures Valid() && Model() == Counted(old(Model()), s) && s in defers && n == defers[s]
    {
      n := (if s in defers then defers[s] else 0) + 1;
      defers := defers[s := n];
    }

    /** `_requeue_slots_or_fail`: head inserts one after another. */
    method RequeueSlotsOrFail(slots: seq<Req>)
      requires Valid()
      modifies this`queue, this`done
      ensures Valid() && Model() == RequeueAll(old(Model()), slots)
    {
      var i := 0;
      while i < |slots|
        invariant i <= |slots|
        invariant queue.closed == old(queue).closed
        invariant queue.closed ==> queue == old(queue) && done == old(done) + Elements(slots[..i])
        invariant !queue.closed ==>
                  done == old(done) && QueueSpec.PushAll(queue, slots[i..]) == QueueSpec.PushAll(old(queue), slots)
      {
        var a := QueueSpec.EnqueueHead(queue, slots[i]);
        if a.Admitted? {
          queue := a.queue;
        } else {
          done := done + {slots[i]};
        }
        assert slots[..i + 1] == slots[..i] + [slots[i]];
        assert slots[i..][1..] == slots[i + 1..];
        i := i + 1;
      }
      assert slots[..i] == slots;
    }

    /** The hit of `_route_or_reserve`: reclaim from idle and hand over. */
    method Give(r: ResidentCell, s: Req, now: real)
      requires Valid() && Known(r)
      modifies r`life, r`lastActive, r`inbox
      ensures Valid() && Known(r)
      ensures var st := old(Model()); Model() == With(st, r.rid, Given(st.residents[r.rid], s, now))
    {
      if r.life == IdleEvictable {
        r.life := Active;
      }
      r.lastActive := now;
      r.inbox := r.inbox + [s];
      OneChanged(r);
    }

    /** A miss of `_route_or_reserve`; `least` is the idle resident to give up, if any. */
    method RouteMiss(s: Req, ghost o: Oracle, f: Option<Footprint>, probe: Option<int>, now: real, rid: nat, live: nat,
                     least: ResidentCell?)
      requires Valid() && o.footprint == f && o.probe == probe && o.now == now && o.rid == rid && rid !in cells
      requires LiveResident(Model(), s.model) == None && live == |LiveModels(Model())|
      requires least == null ==> !Candidate(Model(), o.victim)
      requires least != null ==> Known(least) && o.victim == least.rid && Candidate(Model(), o.victim)
      modifies this, cells.Values
      ensures Valid()
      ensures Model() == Route(c, old(Model()), s, o)
    {
      if live >= c.cap {
        if least == null {
          DeferUnroutable(s);
          return;
        }
        BeginEvict(least);
      }
      ReserveAndStart(s, f, probe, now, o, rid);
    }

    lemma LiveLooksUp(model: string)
      requires Valid()
      ensures var live := set m <- residents.Keys | residents[m].life != Dead;
              && |live| == |LiveModels(Model())|
              && (model in live ==>
                  Known(residents[model]) && LiveResident(Model(), model) == Some(residents[model].rid))
              && (model !in live ==> LiveResident(Model(), model) == None)
    {
      ModelLooksUp();
    }

    lemma CandidatesLookUp(victim: nat)
      requires Valid()
      requires forall m <- residents.Keys :: Candidate(Model(), residents[m].rid) ==> LeastRecent(Model(), victim)
      ensures BestVictim(Model(), victim)
    {
      ModelLooksUp();
    }

    /** The resident a full registry would give up, and its name for the specification. */
    method ChooseVictim(rid: nat) returns (least: ResidentCell?, ghost victim: nat)
      requires Valid() && rid !in cells
      ensures Model() == old(Model())
      ensures least == null ==> !Candidate(Model(), victim)
      ensures least != null ==> Known(least) && victim == least.rid && Candidate(Model(), victim)
      ensures BestVictim(Model(), victim)
    {
      least := LruIdleEvictable();
      victim := if least != null then least.rid else rid;
      CandidatesLookUp(victim);
    }

    /** The lookup `_route_or_reserve` starts with. */
    method LookUp(model: string) returns (hit: ResidentCell?, live: nat)
      requires Valid()
      ensures Model() == old(Model())
      ensures live == |LiveModels(Model())|
      ensures hit == null ==> LiveResident(Model(), model) == None
      ensures hit != null ==> Known(hit) && LiveResident(Model(), model) == Some(hit.rid)
    {
      LiveLooksUp(model);
      var siblings := set m <- residents.Keys | residents[m].life != Dead;
      live := |siblings|;
      hit := if model in siblings then residents[model] else null;
    }

    /** A hit of `_route_or_reserve`. */
    method RouteHit(hit: ResidentCell, s: Req, now: real, ghost o: Oracle)
      requires Valid() && Known(hit) && o.now == now && LiveResident(Model(), s.model) == Some(hit.rid)
      modifies hit`life, hit`lastActive, hit`inbox
      ensures Valid() && Model() == Route(c, old(Model()), s, o)
    {
      Give(hit, s, now);
    }

    /** `_route_or_reserve` after its lookups. */
    method RouteFound(hit: ResidentCell?, s: Req, ghost o: Oracle, f: Option<Footprint>, probe: Option<int>, now: real,
                      rid: nat,
                      live: nat, least: ResidentCell?)
      requires Valid() && o.footprint == f && o.probe == probe && o.now == now && o.rid == rid && rid !in cells
      requires live == |LiveModels(Model())|
      requires hit == null ==> LiveResident(Model(), s.model) == None
      requires hit != null ==> Known(hit) && LiveResident(Model(), s.model) == Some(hit.rid)
      requires least == null ==> !Candidate(Model(), o.victim)
      requires least != null ==> Known(least) && o.victim == least.rid && Candidate(Model(), o.victim)
      modifies this, cells.Values
      ensures Valid() && Model() == Route(c, old(Model()), s, o)
    {
      if hit != null {
        RouteHit(hit, s, now, o);
      } else {
        RouteMiss(s, o, f, probe, now, rid, live, least);
      }
    }

    /** `_route_or_reserve`: hit, reserve, evict and reserve, or defer.  `victim` tells which
        idle resident was evicted, if any: the least recently used. */
    method RouteOrReserve(s: Req, ghost o: Oracle, f: Option<Footprint>, probe: Option<int>, now: real, rid: nat)
      returns (ghost victim: nat)
      requires Valid() && o.footprint == f && o.probe == probe && o.now == now && o.rid == rid && rid !in cells
      modifies this, cells.Values
      ensures Valid()
      ensures Model() == Route(c, old(Model()), s, o.(victim := victim))
      ensures BestVictim(old(Model()), victim)
    {
      var hit, live := LookUp(s.model);
      var least;
      least, victim := ChooseVictim(rid);
      RouteFound(hit, s, o.(victim := victim), f, probe, now, rid, live, least);
    }

    /** One turn of `_dispatch_loop`: pop, drop a request whose client has gone, else route. */
    method DispatchTurn(hint: Option<string>, now: real, gone: bool, f: Option<Footprint>, probe: Option<int>, rid: nat)
      returns (ghost victim: nat)
      requires Safe() && !stopped && rid !in cells
      modifies this, cells.Values
      ensures Safe()
      ensures Enabled(c, old(Model()), DispatchOne(Oracle(hint, now, gone, f, probe, victim, rid)))
      ensures Model() == Apply(c, old(Model()), DispatchOne(Oracle(hint, now, gone, f, probe, victim, rid)))
    {
      ghost var st := Model();
      victim := TakeAndRoute(hint, now, gone, f, probe, rid);
      DispatcherSteps.StepSound(c, st, DispatchOne(Oracle(hint, now, gone, f, probe, victim, rid)));
    }

    method TakeAndRoute(hint: Option<string>, now: real, gone: bool, f: Option<Footprint>, probe: Option<int>, rid: nat)
      returns (ghost victim: nat)
      requires Valid() && rid !in cells
      modifies this, cells.Values
      ensures Valid() && BestVictim(old(Model()), victim)
      ensures Model() == Dispatch(c, old(Model()), Oracle(hint, now, gone, f, probe, victim, rid))
    {
      ghost var st := Model();
      victim := BestKnown(rid);
      var got := PopQueue(hint, now);
      if got.Some? {
        ghost var popped := Model();
        if gone {
          Fail(got.value);
        } else {
          victim := RouteOrReserve(got.value, Oracle(hint, now, gone, f, probe, rid, rid), f, probe, now, rid);
          BestWhateverQueue(st, popped, victim);
        }
        DispatchIs(c, st, popped, Oracle(hint, now, gone, f, probe, victim, rid), got.value);
      }
    }

    /** The dispatcher's pop. */
    method PopQueue(hint: Option<string>, now: real) returns (got: Option<Req>)
      requires Valid()
      modifies this`queue
      ensures Valid()
      ensures var (q, s) := QueueSpec.PopNext(c.queue, old(queue), hint, now);
              got == s && Model() == old(Model()).(queue := q)
    {
      var (q, s) := QueueSpec.PopNext(c.queue, queue, hint, now);
      queue, got := q, s;
    }

    /** Some resident a full registry could give up, or none. */
    ghost method BestKnown(rid: nat) returns (victim: nat)
      requires Valid() && rid !in cells
      ensures BestVictim(Model(), victim)
    {
      BestExists(Model());
      victim :| BestVictim(Model(), victim);
    }

    // ----- the driver's finally -----------------------------------------------------------------

    /** The inbox is drained for the driver to hand back. */
    method TakePending(r: ResidentCell)
      requires Valid() && Known(r)
      modifies r`inbox, r`pending, r`pc
      ensures Valid() && Known(r)
      ensures var st := old(Model()); Model() == With(st, r.rid, Handed(st.residents[r.rid]).(pc := Cleanup))
    {
      var drained := r.DrainInbox();
      r.pending, r.pc := drained, Cleanup;
      OneChanged(r);
    }

    /** Die and leave the registry, if it still names this object. */
    method Deregister(r: ResidentCell)
      requires Valid() && Known(r)
      modifies this`residents, r`life
      ensures Valid() && Known(r)
      ensures var st := old(Model());
              Model() == if !IsRegistered(st, r.rid) then st
                         else With(Unregister(st, r.rid), r.rid, Died(st.residents[r.rid]))
    {
      RegisteredHere(r);
      if r.model in residents && residents[r.model] == r {
        Forget(r);
        label Forgotten:
        r.life := Dead;
        OneChanged@Forgotten(r);
      }
    }

    /** The critical section of the `finally` in `_drive_resident`, when the claim succeeds. */
    method DriverClaims(r: ResidentCell, alive: bool)
      requires Valid() && Known(r) && !r.tornDown
      modifies this`residents, this`reaps, this`exited, r
      ensures Valid() && Known(r)
      ensures Model() == EnterFinally(old(Model()), r.rid, alive)
    {
      ghost var st := Model();
      ClaimAndLetGo(r, alive);
      TakePending(r);
      Deregister(r);
      ClaimPieces(st, r.rid, alive);
    }

    /** The driver task ends; its done callback schedules the death reaper. */
    method DriverExits(r: ResidentCell)
      requires Valid() && Known(r)
      modifies this`bg, r`pc, r`slot
      ensures Valid() && Known(r) && Model() == Retire(old(Model()), r.rid)
    {
      r.pc, r.slot := Done, None;
      bg := bg + {ReapDead(r.rid)};
      OneChanged(r);
    }

    /** The `finally` of `_drive_resident` up to its first suspension. */
    method RunFinally(r: ResidentCell, alive: bool)
      requires Valid() && Known(r)
      modifies this`residents, this`bg, this`reaps, this`exited, r
      ensures Valid() && Known(r) && Model() == EnterFinally(old(Model()), r.rid, alive)
    {
      if r.tornDown {
        DriverExits(r);
      } else {
        DriverClaims(r, alive);
      }
    }

    /** Hand back what the cleanup drained. */
    method HandBack(r: ResidentCell)
      requires Valid() && Known(r)
      modifies this`queue, this`done, r`pending
      ensures Valid() && Known(r)
      ensures var st, v := old(Model()), old(r.Value());
              Model() == With(RequeueAll(st, v.pending), r.rid, v.(pending := []))
    {
      RequeueSlotsOrFail(r.pending);
      label Requeued:
      r.pending := [];
      OneChanged@Requeued(r);
    }

    /** The rest of the `finally`: hand the drained inbox back, fail an anchor that the death
        reaper would not see, and end. */
    method EndFinally(r: ResidentCell)
      requires Safe() && Known(r) && At(Model(), r.rid, Cleanup)
      modifies this`queue, this`done, this`bg, r`pending, r`pc, r`slot
      ensures Safe() && Known(r) && Model() == Apply(c, old(Model()), CleanupOver(r.rid))
    {
      DispatcherSteps.StepSound(c, Model(), CleanupOver(r.rid));
      FinishCleanup(r);
    }

    method FinishCleanup(r: ResidentCell)
      requires Valid() && Known(r)
      modifies this`queue, this`done, this`bg, r`pending, r`pc, r`slot
      ensures Valid() && Known(r) && Model() == LeaveFinally(old(Model()), r.rid)
    {
      HandBack(r);
      if r.slot.Some? && r.active != r.slot && r.slot.value !in r.inflight {
        Fail(r.slot.value);
      }
      DriverExits(r);
    }

    // ----- the driver's loop --------------------------------------------------------------------

    /** A write to the resident's slot alone. */
    method SetSlot(r: ResidentCell, s: Req)
      requires Valid() && Known(r)
      modifies r`slot
      ensures Valid() && Known(r) && r.life == old(r.life)
      ensures Model() == With(old(Model()), r.rid, old(r.Value()).(slot := Some(s)))
    {
      r.slot := Some(s);
      OneChanged(r);
    }

    /** The resident serves `s`. */
    method Anchor(r: ResidentCell, s: Req, now: real)
      requires Valid() && Known(r)
      modifies r`slot, r`life, r`active, r`lastActive, r`pc
      ensures Valid() && Known(r) && Model() == With(old(Model()), r.rid, Anchored(old(r.Value()), s, now))
    {
      r.slot, r.life, r.active, r.lastActive, r.pc := Some(s), Active, Some(s), now, Serving;
      OneChanged(r);
    }

    /** The head of the loop, with `s` as the driver's slot. */
    method LoopTop(r: ResidentCell, s: Req, now: real, alive: bool)
      requires Valid() && Known(r)
      modifies this`residents, this`bg, this`reaps, this`exited, r
      ensures Valid() && Known(r) && Model() == LoopHead(old(Model()), r.rid, s, now, alive)
    {
      if stopped || r.life == Dead {
        SetSlot(r, s);
        RunFinally(r, alive);
      } else {
        Anchor(r, s, now);
      }
    }

    /** `inbox.get` on a non-empty inbox. */
    method PopInbox(r: ResidentCell) returns (s: Req)
      requires Valid() && Known(r) && r.inbox != []
      modifies r`inbox, r`slot
      ensures Valid() && Known(r) && s == old(r.inbox)[0]
      ensures var v := old(r.Value());
              Model() == With(old(Model()), r.rid, v.(slot := Some(v.inbox[0]), inbox := v.inbox[1..]))
    {
      s := r.inbox[0];
      r.slot, r.inbox := Some(s), r.inbox[1..];
      OneChanged(r);
    }

    method TakeFromInbox(r: ResidentCell, now: real, alive: bool)
      requires Valid() && Known(r) && r.inbox != []
      modifies this`residents, this`bg, this`reaps, this`exited, r
      ensures Valid() && Known(r) && Model() == TakeInbox(old(Model()), r.rid, now, alive)
    {
      var s := PopInbox(r);
      LoopTop(r, s, now, alive);
    }

    /** A parked resident wakes to a request in its inbox. */
    method TakeParked(r: ResidentCell, now: real, alive: bool)
      requires Safe() && Known(r) && At(Model(), r.rid, Parked) && r.inbox != []
      modifies this`residents, this`bg, this`reaps, this`exited, r
      ensures Safe() && Known(r) && Model() == Apply(c, old(Model()), Unpark(r.rid, now, alive))
    {
      DispatcherSteps.StepSound(c, Model(), Unpark(r.rid, now, alive));
      TakeFromInbox(r, now, alive);
    }

    /** The health check passed: publish the handle, then the loop. */
    method PublishHandle(r: ResidentCell, now: real, alive: bool)
      requires Safe() && Known(r) && At(Model(), r.rid, Health)
      modifies this`residents, this`bg, this`reaps, this`exited, r
      ensures Safe() && Known(r) && Model() == Apply(c, old(Model()), Healthy(r.rid, now, alive))
    {
      DispatcherSteps.StepSound(c, Model(), Healthy(r.rid, now, alive));
      MoveHandle(r);
      LoopTop(r, r.slot.value, now, alive);
    }

    method MoveHandle(r: ResidentCell)
      requires Valid() && Known(r)
      modifies r`handle, r`booting, r`life
      ensures Valid() && Known(r)
      ensures var st := old(Model()); Model() == With(st, r.rid, Published(st.residents[r.rid]))
    {
      r.handle := r.booting;
      r.booting, r.life := None, Active;
      OneChanged(r);
    }

    /** The grace window is over. */
    method GraceEnds(r: ResidentCell, keepWarm: bool, now: real, alive: bool)
      requires Safe() && Known(r) && At(Model(), r.rid, InGrace)
      modifies this`residents, this`bg, this`reaps, this`exited, r
      ensures Safe() && Known(r) && Model() == Apply(c, old(Model()), GraceOver(r.rid, keepWarm, now, alive))
    {
      DispatcherSteps.StepSound(c, Model(), GraceOver(r.rid, keepWarm, now, alive));
      if r.life == Dead {
        RunFinally(r, alive);
      } else if !keepWarm {
        Unload(r, now);
        BeginEvict(r);
        RunFinally(r, alive);
      } else {
        GoIdle(r, now);
        if r.inbox != [] {
          TakeFromInbox(r, now, alive);
        }
      }
    }

    method Unload(r: ResidentCell, now: real)
      requires Valid() && Known(r)
      modifies r`active, r`lastActive
      ensures Valid() && Known(r)
              && Model() == With(old(Model()), r.rid, old(r.Value()).(active := None, lastActive := now))
    {
      r.active, r.lastActive := None, now;
      OneChanged(r);
    }

    method GoIdle(r: ResidentCell, now: real)
      requires Valid() && Known(r)
      modifies r`active, r`lastActive, r`life, r`pc
      ensures Valid() && Known(r) && r.inbox == old(r.inbox)
      ensures Model() == With(old(Model()), r.rid, Idled(old(r.Value()), now))
    {
      r.active, r.lastActive, r.life, r.pc := None, now, IdleEvictable, Parked;
      OneChanged(r);
    }

    /** The idle window is over: the checks under the lock. */
    method ParkEnds(r: ResidentCell, now: real, alive: bool)
      requires Safe() && Known(r) && At(Model(), r.rid, Parked)
      modifies this`residents, this`bg, this`reaps, this`exited, r
      ensures Safe() && Known(r) && Model() == Apply(c, old(Model()), ParkTimeout(r.rid, now, alive))
    {
      DispatcherSteps.StepSound(c, Model(), ParkTimeout(r.rid, now, alive));
      DispatcherSteps.HasSlot(c, Model(), r.rid);
      if r.life == IdleEvictable && r.inbox == [] {
        BeginEvict(r);
        RunFinally(r, alive);
      } else if r.inbox != [] {
        TakeFromInbox(r, now, alive);
      } else {
        LoopTop(r, r.slot.value, now, alive);
      }
    }

    // ----- fan-out ------------------------------------------------------------------------------

    /** The refill, with the failures it reports. */
    method AdmitRiders(r: ResidentCell, gone: set<Req>)
      requires Valid() && Known(r)
      modifies this`done, r`inflight, r`inbox
      ensures Valid() && Known(r) && Model() == Refilled(old(Model()), r.rid, gone)
    {
      var failed := AdmitInto(r, gone);
      FailAlso(failed);
    }

    method AdmitInto(r: ResidentCell, gone: set<Req>) returns (failed: set<Req>)
      requires Valid() && Known(r)
      modifies r`inflight, r`inbox
      ensures Valid() && Known(r)
      ensures var st := old(Model()); Model() == With(st, r.rid, Admit(st.residents[r.rid], gone))
      ensures failed == TurnedAway(old(Model()).residents[r.rid], gone)
    {
      failed := r.AdmitFromInbox(gone);
      OneChanged(r);
    }

    method FailAlso(failed: set<Req>)
      requires Valid()
      modifies this`done
      ensures Valid() && Model() == old(Model()).(done := old(Model()).done + failed)
    {
      done := done + failed;
    }

    method StartFanOut(r: ResidentCell)
      requires Valid() && Known(r) && r.slot.Some?
      modifies r`inflight, r`finished, r`pc
      ensures Valid() && Known(r) && Model() == With(old(Model()), r.rid, Opened(old(r.Value())))
    {
      r.inflight, r.finished, r.pc := [r.slot.value], {}, FanOut;
      OneChanged(r);
    }

    /** The anchor opens a fan-out and the inbox fills it. */
    method OpenFanOut(r: ResidentCell, gone: set<Req>)
      requires Safe() && Known(r) && At(Model(), r.rid, Serving) && r.width > 1
      modifies this`done, r`inflight, r`finished, r`pc, r`inbox
      ensures Safe() && Known(r) && Model() == Apply(c, old(Model()), Launch(r.rid, gone))
    {
      DispatcherSteps.StepSound(c, Model(), Launch(r.rid, gone));
      DispatcherSteps.HasSlot(c, Model(), r.rid);
      LaunchPieces(Model(), r.rid, gone);
      StartFanOut(r);
      AdmitRiders(r, gone);
    }

    method LandRiders(r: ResidentCell)
      requires Valid() && Known(r)
      modifies r`inflight, r`finished
      ensures Valid() && Known(r) && Model() == With(old(Model()), r.rid, Landed(old(r.Value())))
    {
      r.LandFinished();
      OneChanged(r);
    }

    method SettleFanOut(r: ResidentCell)
      requires Valid() && Known(r)
      modifies r`pc
      ensures Valid() && Known(r) && Model() == Over(old(Model()), r.rid)
    {
      if r.inflight == [] {
        r.pc := InGrace;
      }
      OneChanged(r);
    }

    /** Riders whose tasks are done leave; then the inbox refills. */
    method WakeFanOut(r: ResidentCell, gone: set<Req>)
      requires Safe() && Known(r) && At(Model(), r.rid, FanOut) && r.finished != {}
      modifies this`done, r`inflight, r`finished, r`pc, r`inbox
      ensures Safe() && Known(r) && Model() == Apply(c, old(Model()), Wake(r.rid, gone))
    {
      DispatcherSteps.StepSound(c, Model(), Wake(r.rid, gone));
      WakePieces(Model(), r.rid, gone);
      LandRiders(r);
      AdmitRiders(r, gone);
      SettleFanOut(r);
    }

    /** The fan-out's own `finally`, then the driver's. */
    method UnwindDriver(r: ResidentCell, alive: bool)
      requires Safe() && Known(r) && Abortable(r.pc)
      modifies this`residents, this`bg, this`reaps, this`exited, this`done, r
      ensures Safe() && Known(r) && Model() == Apply(c, old(Model()), Abort(r.rid, alive))
    {
      DispatcherSteps.StepSound(c, Model(), Abort(r.rid, alive));
      FailRiders(r);
      RunFinally(r, alive);
    }

    /** Every listed future is failed, unless it is resolved already. */
    method FailAll(slots: seq<Req>)
      requires Valid()
      modifies this`done
      ensures Valid() && Model() == ResolveAll(old(Model()), slots)
    {
      var i := 0;
      while i < |slots|
        invariant i <= |slots| && done == old(done) + Elements(slots[..i])
      {
        assert slots[..i + 1] == slots[..i] + [slots[i]];
        done := done + {slots[i]};
        i := i + 1;
      }
      assert slots[..i] == slots;
    }

    method FailRiders(r: ResidentCell)
      requires Valid() && Known(r)
      modifies this`done, r`inflight, r`finished
      ensures Valid() && Known(r)
      ensures var st, v := old(Model()), old(r.Value());
              Model() == With(ResolveAll(st, v.inflight), r.rid, v.(inflight := [], finished := {}))
    {
      FailAll(r.inflight);
      label Failed:
      r.inflight, r.finished := [], {};
      OneChanged@Failed(r);
    }

    /** `_reap_dead_resident`. */
    method ReapDeadResident(r: ResidentCell)
      requires Safe() && Known(r) && ReapDead(r.rid) in bg
      modifies this`residents, this`bg, this`done, r`inbox, r`life
      ensures Safe() && Known(r) && Model() == Apply(c, old(Model()), RunReapDead(r.rid))
    {
      DispatcherSteps.StepSound(c, Model(), RunReapDead(r.rid));
      SweepDead(r);
    }

    method SweepDead(r: ResidentCell)
      requires Valid() && Known(r)
      modifies this`residents, this`bg, this`done, r`inbox, r`life
      ensures Valid() && Known(r) && Model() == DoReapDead(old(Model()), r.rid)
    {
      ghost var st := Model();
      bg := bg - {ReapDead(r.rid)};
      if r.active.Some? {
        Fail(r.active.value);
      }
      assert Model() == ResolveOpt(Finish(st, ReapDead(r.rid)), r.active);
      FailAll(r.inflight);
      BeginEvict(r);
    }
  }

  /** Among finitely many candidates one is least recently active. */
  lemma {:induction false} LeastOf(st: State, models: set<string>) returns (victim: nat)
    requires models <= st.registry.Keys
    ensures forall m <- models :: Candidate(st, st.registry[m]) ==>
              Candidate(st, victim) && st.residents[victim].lastActive <= st.residents[st.registry[m]].lastActive
    decreases |models|
  {
    if models == {} {
      victim := 0;
    } else {
      var m :| m in models;
      victim := LeastOf(st, models - {m});
      var rid := st.registry[m];
      if Candidate(st, rid)
          && (!Candidate(st, victim) || st.residents[rid].lastActive < st.residents[victim].lastActive) {
        victim := rid;
      }
    }
  }

  lemma BestWhateverQueue(st: State, st': State, victim: nat)
    requires st' == st.(queue := st'.queue) && BestVictim(st', victim)
    ensures BestVictim(st, victim)
  {
    forall m <- st.registry.Keys | Candidate(st, st.registry[m])
      ensures LeastRecent(st, victim)
    {
      assert Candidate(st', st'.registry[m]) && LeastRecent(st', victim);
      assert forall n <- st.registry.Keys :: Candidate(st, st.registry[n]) ==> Candidate(st', st'.registry[n]);
    }
  }

  /** A turn of the dispatcher that popped `s`. */
  lemma DispatchIs(c: Config, st: State, popped: State, o: Oracle, s: Req)
    requires var (q, got) := QueueSpec.PopNext(c.queue, st.queue, o.hint, o.now);
             popped == st.(queue := q) && got == Some(s)
    ensures Dispatch(c, st, o) == if o.gone then Resolve(popped, s) else Route(c, popped, s, o)
  {
  }

  lemma BestExists(st: State)
    ensures exists victim :: BestVictim(st, victim)
  {
    var victim := LeastOf(st, st.registry.Keys);
    assert BestVictim(st, victim);
  }

  /** The refill of a fan-out, in the manager's state. */
  function Refilled(st: State, rid: nat, gone: set<Req>): State
    requires rid in st.residents
  {
    var r := st.residents[rid];
    With(st, rid, Admit(r, gone)).(done := st.done + TurnedAway(r, gone))
  }

  function Over(st: State, rid: nat): State
    requires rid in st.residents
  {
    With(st, rid, Settle(st.residents[rid]))
  }

  lemma RefillAfter(st: State, rid: nat, r: Resident, gone: set<Req>)
    requires rid in st.residents
    ensures Refilled(With(st, rid, r), rid, gone)
            == With(st, rid, Admit(r, gone)).(done := st.done + TurnedAway(r, gone))
  {
    WithTwice(st, rid, r, Admit(r, gone));
  }

  /** The stages of opening a fan-out put together. */
  lemma LaunchPieces(st: State, rid: nat, gone: set<Req>)
    requires rid in st.residents && st.residents[rid].slot.Some?
    ensures Refilled(With(st, rid, Opened(st.residents[rid])), rid, gone) == DoLaunch(st, rid, gone)
  {
    RefillAfter(st, rid, Opened(st.residents[rid]), gone);
  }

  /** The stages of a wake-up put together. */
  lemma WakePieces(st: State, rid: nat, gone: set<Req>)
    requires rid in st.residents
    ensures Over(Refilled(With(st, rid, Landed(st.residents[rid])), rid, gone), rid) == DoWake(st, rid, gone)
  {
    var r := Landed(st.residents[rid]);
    RefillAfter(st, rid, r, gone);
    var st1 := st.(done := st.done + TurnedAway(r, gone));
    WithTwice(st1, rid, Admit(r, gone), Settle(Admit(r, gone)));
  }

  /** The three stages of the claim put together. */
  lemma ClaimPieces(st: State, rid: nat, alive: bool)
    requires rid in st.residents && !st.residents[rid].tornDown
    ensures var r := st.residents[rid];
            var st1 := With(Release(st, r.handle, r.booting, alive), rid, TornDown(r));
            var st2 := With(st1, rid, Handed(TornDown(r)).(pc := Cleanup));
            EnterFinally(st, rid, alive)
            == if IsRegistered(st2, rid) then With(Unregister(st2, rid), rid, Died(st2.residents[rid])) else st2
  {
    var r := st.residents[rid];
    var st0 := Release(st, r.handle, r.booting, alive);
    var r2 := Handed(TornDown(r)).(pc := Cleanup);
    WithTwice(st0, rid, TornDown(r), r2);
    WithTwice(st0, rid, r2, Died(r2));
    assert IsRegistered(With(st0, rid, r2), rid) <==> IsRegistered(st, rid);
    assert Claimed(r, IsRegistered(st, rid)) == if IsRegistered(st, rid) then Died(r2) else r2;
  }
}
