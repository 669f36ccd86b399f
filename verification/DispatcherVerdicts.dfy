/** What routing a request comes to, told from the state before it. */
module DispatcherVerdicts {
  import opened Common
  import opened Dispatcher
  import opened DispatcherInv
  import opened DispatcherRouting
  import opened DispatcherSteps
  import QueueSpec

  /** A live resident serves the model. */
  predicate HasResident(st: State, model: string) {
    model in st.registry && st.registry[model] in st.residents && st.residents[st.registry[model]].life != Dead
  }

  predicate Full(c: Config, st: State) {
    |LiveModels(st)| >= c.cap
  }

  ghost predicate SomeCandidate(st: State) {
    exists m <- st.registry.Keys :: Candidate(st, st.registry[m])
  }

  /** The models that stay resident when a request that misses is let in: all but the victim's
      when the registry is full. */
  function Siblings(c: Config, st: State, victim: nat): set<string> {
    if Full(c, st) && victim in st.residents then LiveModels(st) - {st.residents[victim].model} else LiveModels(st)
  }

  /** A readable footprint, unsplit and alone on its card unless nobody else is resident, and
      within the free memory; without a reading only nobody else's company admits it. */
  predicate Fits(st: State, others: set<string>, footprint: Option<Footprint>, probe: Option<int>)
    requires others <= LiveModels(st)
  {
    && footprint.Some?
    && (others != {} ==>
          && footprint.value.split == NoneSplit
          && forall m <- others ::
               && st.residents[st.registry[m]].split == NoneSplit
               && st.residents[st.registry[m]].gpu != footprint.value.gpu)
    && (if probe.Some? then footprint.value.need <= probe.value else others == {})
  }

  /** How a request that missed is let in, turned down or put off. */
  predicate MakesRoom(c: Config, st: State, o: Oracle) {
    !Full(c, st) || Candidate(st, o.victim)
  }

  lemma VramAdmitsIs(st: State, f: Footprint, probe: Option<int>)
    ensures VramAdmits(st, f, probe) <==> Fits(st, LiveModels(st), Some(f), probe)
  {
    if probe.Some? {
      BootingChargeNeverDecides(st, f, probe.value);
    }
  }

  // ----- a hit ---------------------------------------------------------------------------------

  /** A hit hands the request to the model's own live resident, behind what its inbox holds,
      and takes that out of idle; nothing else in the state changes. */
  lemma HitHandsOver(c: Config, st: State, s: Req, o: Oracle)
    requires HasResident(st, s.model)
    ensures var st', rid := Route(c, st, s, o), st.registry[s.model];
            && st' == st.(residents := st'.residents) && st'.residents.Keys == st.residents.Keys
            && (forall x <- st.residents.Keys :: x != rid ==> st'.residents[x] == st.residents[x])
            && var r, r' := st.residents[rid], st'.residents[rid];
            && r' == r.(inbox := r'.inbox, life := r'.life, lastActive := o.now)
            && r'.inbox == r.inbox + [s]
            && r'.life == if r.life == IdleEvictable then Active else r.life
  {
    assert s.model in LiveModels(st);
  }

  // ----- a miss --------------------------------------------------------------------------------

  lemma MissIs(c: Config, st: State, s: Req, o: Oracle)
    requires !HasResident(st, s.model)
    ensures Route(c, st, s, o) == if !MakesRoom(c, st, o) then Defer(st, s)
                                  else Reserve(c, if Full(c, st) then BeginEvict(st, o.victim) else st, s, o)
  {
  }

  lemma VictimBest(st: State, victim: nat)
    requires BestVictim(st, victim)
    ensures Candidate(st, victim) <==> SomeCandidate(st)
  {
    if Candidate(st, victim) {
      assert Candidate(st, st.registry[st.residents[victim].model]);
    }
  }

  /** After the victim has gone the others are as they were. */
  lemma OthersStay(c: Config, st: State, victim: nat)
    requires Linked(st) && Full(c, st) && Candidate(st, victim)
    ensures var st' := BeginEvict(st, victim);
            && LiveModels(st') == Siblings(c, st, victim)
            && (forall m <- LiveModels(st') :: st'.registry[m] == st.registry[m]
                                               && st'.residents[st'.registry[m]] == st.residents[st.registry[m]])
            && st'.residents.Keys == st.residents.Keys
            && st'.registry.Keys == st.registry.Keys - {st.residents[victim].model}
            && st'.defers == st.defers && st'.done == st.done
  {
    var st' := BeginEvict(st, victim);
    forall m <- st.registry.Keys
      ensures m != st.residents[victim].model ==> st.registry[m] != victim
    {
    }
    assert LiveModels(st') == Siblings(c, st, victim);
  }

  lemma FitsElsewhere(st: State, st': State, others: set<string>, footprint: Option<Footprint>, probe: Option<int>)
    requires others <= LiveModels(st) && others <= LiveModels(st')
    requires forall m <- others :: st'.registry[m] == st.registry[m]
                                   && st'.residents[st'.registry[m]] == st.residents[st.registry[m]]
    ensures Fits(st', others, footprint, probe) <==> Fits(st, others, footprint, probe)
  {
  }

  /** A request is put off exactly when no live resident serves its model, the registry is full
      and no registered resident is idle.  Its deferrals are counted up by one; up to the cap
      it goes to a backoff, beyond it is resolved; residents and registry stay as they are. */
  lemma DefersExactly(c: Config, st: State, s: Req, o: Oracle)
    requires !HasResident(st, s.model) && BestVictim(st, o.victim)
    ensures var st' := Route(c, st, s, o);
            && (st'.defers != st.defers <==> Full(c, st) && !SomeCandidate(st))
            && (st'.defers != st.defers ==>
                  var n := (if s in st.defers then st.defers[s] else 0) + 1;
                  && st' == st.(defers := st.defers[s := n], done := st'.done, bg := st'.bg)
                  && (if n <= MAX_DISPATCH_DEFERS then st'.done == st.done && st'.bg == st.bg + {Backoff(s)}
                      else st'.done == st.done + {s} && st'.bg == st.bg))
  {
    VictimBest(st, o.victim);
    MissIs(c, st, s, o);
    if MakesRoom(c, st, o) {
      ReserveDefers(c, if Full(c, st) then BeginEvict(st, o.victim) else st, s, o);
    } else {
      assert Defer(st, s).defers[s] != if s in st.defers then st.defers[s] else 0;
    }
  }

  lemma ReserveDefers(c: Config, st: State, s: Req, o: Oracle)
    ensures Reserve(c, st, s, o).defers == st.defers
  {
  }

  /** The registry once the victim, if one is needed, has left it. */
  function Remaining(c: Config, st: State, victim: nat): map<string, nat> {
    if Full(c, st) && victim in st.residents then st.registry - {st.residents[victim].model} else st.registry
  }

  /** A resident just registered for `s`, its driver not started. */
  predicate Reserved(r: Resident, s: Req, f: Footprint) {
    && r.model == s.model && r.inbox == [s] && r.life == ReservedLoading && r.pc == NotStarted
    && r.need == f.need && r.gpu == f.gpu && r.split == f.split
    && r.handle == None && r.booting == None && r.slot == None && r.active == None && r.inflight == []
    && r.pending == [] && !r.tornDown
  }

  lemma ReserveIs(c: Config, st: State, s: Req, o: Oracle)
    requires o.rid !in st.residents
    ensures var st' := Reserve(c, st, s, o);
            if Fits(st, LiveModels(st), o.footprint, o.probe)
            then
              && o.rid in st'.residents && Reserved(st'.residents[o.rid], s, o.footprint.value)
              && st'.residents[o.rid].port == AllocPort(c, st)
              && st' == st.(residents := st.residents[o.rid := st'.residents[o.rid]],
                            registry := st.registry[s.model := o.rid])
            else st' == st.(done := st.done + {s})
  {
    if o.footprint.Some? {
      VramAdmitsIs(st, o.footprint.value, o.probe);
    }
  }

  /** `s` has a resident of its own, on a port of the window that none of `others` has. */
  ghost predicate LetIn(c: Config, st: State, others: map<string, nat>, st': State, s: Req, o: Oracle)
    requires o.footprint.Some? && forall m <- others.Keys :: others[m] in st.residents
  {
    && st'.residents.Keys == st.residents.Keys + {o.rid}
    && st'.registry == others[s.model := o.rid] && st'.done == st.done
    && Reserved(st'.residents[o.rid], s, o.footprint.value)
    && c.portBase <= st'.residents[o.rid].port < c.portBase + PORT_WINDOW
    && forall m <- others.Keys :: st.residents[others[m]].port != st'.residents[o.rid].port
  }

  ghost predicate TurnedDown(st: State, others: map<string, nat>, st': State, s: Req) {
    st'.residents.Keys == st.residents.Keys && st'.registry == others && st'.done == st.done + {s}
  }

  /** Of the residents there were, the victim of a full registry died, and that is all. */
  ghost predicate OnlyVictimDied(c: Config, st: State, st': State, victim: nat) {
    forall rid <- st.residents.Keys ::
      rid in st'.residents
      && if Full(c, st) && rid == victim
         then st'.residents[rid] == st.residents[rid].(life := Dead, inbox := []) && Teardown(rid) in st'.bg
         else st'.residents[rid] == st.residents[rid]
  }

  predicate SameRest(st: State, st': State) {
    && st'.queue == st.queue && st'.defers == st.defers && st'.accepted == st.accepted && st'.stopped == st.stopped
    && st'.spawned == st.spawned && st'.reaps == st.reaps && st'.exited == st.exited
  }

  /** `s` has entered `base`, the state without the victim: what that means for the state with
      it. */
  lemma Entered(c: Config, st: State, base: State, st': State, s: Req, o: Oracle)
    requires Linked(base) && |base.registry| < PORT_WINDOW && o.rid !in base.residents && o.footprint.Some?
    requires OnlyVictimDied(c, st, base, o.victim) && base.residents.Keys == st.residents.Keys && base.done == st.done
    requires o.rid in st'.residents && Reserved(st'.residents[o.rid], s, o.footprint.value)
    requires st'.residents[o.rid].port == AllocPort(c, base)
    requires st' == base.(residents := base.residents[o.rid := st'.residents[o.rid]],
                          registry := base.registry[s.model := o.rid])
    ensures LetIn(c, st, base.registry, st', s, o) && OnlyVictimDied(c, st, st', o.victim)
  {
    AllocPortFree(c, base);
    forall m <- base.registry.Keys
      ensures base.registry[m] in st.residents
              && st.residents[base.registry[m]].port == base.residents[base.registry[m]].port
    {
    }
  }

  lemma RoomReserve(c: Config, st: State, s: Req, o: Oracle)
    requires Linked(st) && |st.registry| < PORT_WINDOW && o.rid !in st.residents && !Full(c, st)
    ensures var st' := Reserve(c, st, s, o);
            && (if Fits(st, LiveModels(st), o.footprint, o.probe) then LetIn(c, st, st.registry, st', s, o)
                else TurnedDown(st, st.registry, st', s))
            && OnlyVictimDied(c, st, st', o.victim) && SameRest(st, st')
  {
    ReserveIs(c, st, s, o);
    if Fits(st, LiveModels(st), o.footprint, o.probe) {
      Entered(c, st, st, Reserve(c, st, s, o), s, o);
    }
  }

  lemma VictimGone(c: Config, st: State, victim: nat)
    requires Linked(st) && Full(c, st) && Candidate(st, victim)
    ensures var st' := BeginEvict(st, victim);
            && OnlyVictimDied(c, st, st', victim) && SameRest(st, st') && st'.done == st.done
            && st'.residents.Keys == st.residents.Keys && st'.registry == Remaining(c, st, victim)
  {
  }

  lemma FullReserve(c: Config, st: State, s: Req, o: Oracle)
    requires Linked(st) && |st.registry| < PORT_WINDOW && o.rid !in st.residents
    requires Full(c, st) && Candidate(st, o.victim)
    ensures var st' := Reserve(c, BeginEvict(st, o.victim), s, o);
            && (if Fits(st, Siblings(c, st, o.victim), o.footprint, o.probe)
                then LetIn(c, st, Remaining(c, st, o.victim), st', s, o)
                else TurnedDown(st, Remaining(c, st, o.victim), st', s))
            && OnlyVictimDied(c, st, st', o.victim) && SameRest(st, st')
  {
    var st1 := BeginEvict(st, o.victim);
    VictimGone(c, st, o.victim);
    OthersStay(c, st, o.victim);
    FitsElsewhere(st, st1, LiveModels(st1), o.footprint, o.probe);
    ReserveIs(c, st1, s, o);
    EvictedLinked(st, o.victim);
    EvictionMakesRoom(st, o.victim);
    if Fits(st1, LiveModels(st1), o.footprint, o.probe) {
      Entered(c, st, st1, Reserve(c, st1, s, o), s, o);
    }
  }

  /** A request that missed with room to be made is let in exactly when it fits beside those
      that stay: it then has a resident of its own, registered for its model with the request
      in its inbox, on a free port of the window.  Otherwise it is resolved.  Either way the
      victim of a full registry dies and leaves it, with its teardown scheduled, and all others
      stay as they were. */
  lemma ReservesExactly(c: Config, st: State, s: Req, o: Oracle)
    requires Linked(st) && |st.registry| < PORT_WINDOW && o.rid !in st.residents
    requires !HasResident(st, s.model) && MakesRoom(c, st, o)
    ensures var st' := Route(c, st, s, o);
            && (if Fits(st, Siblings(c, st, o.victim), o.footprint, o.probe)
                then LetIn(c, st, Remaining(c, st, o.victim), st', s, o)
                else TurnedDown(st, Remaining(c, st, o.victim), st', s))
            && OnlyVictimDied(c, st, st', o.victim) && SameRest(st, st')
  {
    MissIs(c, st, s, o);
    if Full(c, st) {
      FullReserve(c, st, s, o);
    } else {
      RoomReserve(c, st, s, o);
    }
  }

  lemma EvictedLinked(st: State, victim: nat)
    requires Linked(st) && Candidate(st, victim)
    ensures Linked(BeginEvict(st, victim))
  {
    var st' := BeginEvict(st, victim);
    forall o <- st'.residents.Keys
      ensures st'.residents[o].life != Dead <==> IsRegistered(st', o)
    {
      assert st.residents[o].life != Dead <==> IsRegistered(st, o);
    }
  }
}
