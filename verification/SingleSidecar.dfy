/** The single-sidecar worker of manager.py (max_parallel_sidecars <= 1): one warm process
    handed between the active and the idle holder across suspensions.  Everything the code
    asks of its surroundings — clocks, gates, health, completions, whether an await resumes,
    is cancelled or raises, and when detached expiry tasks get to run — is read off an
    arbitrary script, so a result about every script is a result about every run. */
module SingleSidecars {
  import opened Common

  datatype Outcome = Resumed | Raised | Cancelled

  /** What another coroutine can see while the worker is suspended. */
  datatype Snapshot = Snapshot(active: Option<nat>, idle: Option<nat>, spawned: set<nat>, signalled: set<nat>)

  /** Spawned and not yet handed to the sigterm helper. */
  function Live(s: Snapshot): set<nat> {
    s.spawned - s.signalled
  }

  /** Every live process is referenced by the active or the idle holder, and the two never
      hold different ones. */
  predicate Held(s: Snapshot) {
    && Live(s) <= Just(s.active) + Just(s.idle)
    && (s.active.Some? && s.idle.Some? ==> s.active == s.idle)
  }

  lemma CardinalityShrinks<T>(a: set<T>, b: set<T>)
    requires a <= b
    ensures |a| <= |b|
  {
    assert |b - a| == |b| - |a|;
  }

  lemma HeldIsSingle(s: Snapshot)
    requires Held(s)
    ensures |Live(s)| <= 1
  {
    var refs := Just(s.active) + Just(s.idle);
    assert |refs| <= 1 by {
      if s.active.Some? {
        assert refs == {s.active.value};
      } else if s.idle.Some? {
        assert refs == {s.idle.value};
      }
    }
    CardinalityShrinks(Live(s), refs);
  }

  // ----- _force_cold ------------------------------------------------------------------------

  datatype PidSource = Own | FanoutShared | AnchorShared | Elsewhere

  /** The branch `_force_cold` takes for a slot; only `Own` signals the active process. */
  function ForceColdBranch(active: Option<nat>, activeSlot: Option<nat>, riders: nat, slot: nat,
                           pid: Option<nat>): PidSource {
    if active.Some? && pid == active && riders > 1 then FanoutShared
    else if activeSlot.Some? && slot != activeSlot.value && active.Some? && pid == active then AnchorShared
    else if active.Some? && pid == active then Own
    else Elsewhere
  }

  /** A slot is its own holder, so that forcing it cold signals the active process, exactly when
      it has that process's pid, at most one rider shares it, and no other slot is the active
      one. */
  lemma OwnExactly(active: Option<nat>, activeSlot: Option<nat>, riders: nat, slot: nat, pid: Option<nat>)
    ensures ForceColdBranch(active, activeSlot, riders, slot, pid) == Own
            <==> active.Some? && pid == active && riders <= 1 && (activeSlot == None || activeSlot == Some(slot))
  {
  }

  /** A slot that shares the active process without being its only user is spared exactly
      when several riders share the process or the active slot is recorded as another one. */
  lemma SharedSparedExactly(active: nat, activeSlot: Option<nat>, riders: nat, slot: nat)
    ensures ForceColdBranch(Some(active), activeSlot, riders, slot, Some(active)) != Own
            <==> riders > 1 || (activeSlot.Some? && activeSlot.value != slot)
  {
  }

  /** A guard that would not guard.  The grace window records a matched slot as the active one
      before it promotes it, so a refused promotion would signal the anchor's warm process: the
      sharing test meant to spare it compares the slot with itself.  It is never put to the
      proof, for the promotion is never refused (`TurbohaulQueues.PopAndPromoteMatch`). */
  lemma DriftedMatchNotSpared(active: nat, matched: nat)
    ensures ForceColdBranch(Some(active), Some(matched), 0, matched, Some(active)) == Own
  {
    SharedSparedExactly(active, Some(matched), 0, matched);
  }

  /** A parked rider, whose pid has been cleared, never signals anything. */
  lemma ClearedPidNeverSignals(active: Option<nat>, activeSlot: Option<nat>, riders: nat, slot: nat)
    ensures ForceColdBranch(active, activeSlot, riders, slot, None) == Elsewhere
  {
  }

  // ----- serving on the right process -----------------------------------------------------------

  /** What a slot's service is judged by. */
  datatype View = View(holder: Holder, pending: nat, served: seq<Service>, spawned: set<nat>, signalled: set<nat>,
                       drifts: nat)

  /** The holder is taken over exactly when it is, as read, a live holder for the slot's own
      model before its expiry; it is the one there was, unless an expiry was pending. */
  predicate ReadRight(b: View, model: string, how: Origin) {
    how.Inherited? || how.Started? ==>
      && (how.was == b.holder || (how.was.pid == None && b.pending > 0))
      && (how.Inherited? <==>
          how.was.pid.Some? && how.was.tag == model && how.was.expires.Some? && how.at < how.was.expires.value)
  }

  /** What a slot for `model` has been served on, by the way it came to a process: the holder
      it took over, or else none that was there before, the holder being given up. */
  predicate ServedRight(b: View, a: View, model: string, how: Origin) {
    && b.served <= a.served && b.drifts <= a.drifts
    && ReadRight(b, model, how)
    && (how.NoProcess? || how.Spared? ==> a.served == b.served && a.spawned == b.spawned)
    && (how.Inherited? ==>
          a.spawned == b.spawned && Extends(b.served, a.served, Service(model, how.was.pid.value)))
    && (how.Started? ==> Just(how.was.pid) <= a.signalled && ExtendsAnew(b.served, a.served, model, b.spawned))
  }

  /** What becomes of the process that served: with an idle window it is held for its model,
      unless a follow-up's promotion was refused or an expiry was pending; without one it is
      given up. */
  predicate KeptWarm(b: View, a: View, model: string, keep: int, o: Outcome) {
    o == Resumed && |a.served| > |b.served| ==>
      && (keep <= 0 ==> a.holder.pid == None)
      && (keep > 0 && a.drifts == b.drifts && b.pending == 0 ==>
            && a.holder.pid == Some(a.served[|a.served| - 1].pid)
            && a.holder.tag == model && a.holder.expires.Some?)
  }

  /** Serving on the process acquired. */
  lemma ServedOnAcquired(b: View, m: View, a: View, model: string, keep: int, how: Origin, pid: nat, o: Outcome)
    requires ReadRight(b, model, how) && m.served == b.served && m.drifts == b.drifts && m.pending <= b.pending
    requires how.Inherited? ==> how.was.pid == Some(pid) && m.spawned == b.spawned
    requires how.Started? ==> Just(how.was.pid) <= m.signalled && pid !in b.spawned
    requires how.Inherited? || how.Started?
    requires Extends(m.served, a.served, Service(model, pid)) && m.drifts <= a.drifts && a.spawned == m.spawned
    requires m.signalled <= a.signalled && KeptWarm(m, a, model, keep, o)
    ensures ServedRight(b, a, model, how) && KeptWarm(b, a, model, keep, o)
  {
  }

  /** An unwinding leaves the record alone, and the holder too unless an expiry was pending. */
  predicate Unwound(m: View, a: View) {
    && a == m.(holder := a.holder, pending := a.pending, signalled := a.signalled)
    && m.signalled <= a.signalled
    && (m.pending == 0 ==> a.holder == m.holder) && (m.holder.pid == None ==> a.holder.pid == None)
  }

  lemma UnwoundRight(b: View, m: View, a: View, model: string, keep: int, how: Origin, ended: Outcome, o: Outcome)
    requires ServedRight(b, m, model, how) && KeptWarm(b, m, model, keep, ended) && m.pending <= b.pending
    requires Unwound(m, a) && (o == ended || o != Resumed)
    ensures ServedRight(b, a, model, how) && KeptWarm(b, a, model, keep, o)
  {
  }

  // ----- the worker ---------------------------------------------------------------------------

  predicate AllHeld(log: seq<Snapshot>) {
    forall s <- log :: Held(s)
  }

  /** Every request was served on a process spawned for its model. */
  predicate AllRight(served: seq<Service>, made: map<nat, string>) {
    forall i :: 0 <= i < |served| ==> served[i].pid in made && made[served[i].pid] == served[i].model
  }

  /** The idle holder stayed as it was, or an expiry handed it to sigterm. */
  predicate Passed(h: Holder, signalled: set<nat>, h': Holder, signalled': set<nat>, expiry: bool) {
    || (h' == h && signalled' == signalled)
    || (expiry && h'.pid == None && signalled' == if h.pid.Some? then signalled + {h.pid.value} else signalled)
  }

  /** Nothing but `e`, any number of times, was added to the record. */
  predicate Extends(before: seq<Service>, after: seq<Service>, e: Service) {
    before <= after && forall i :: |before| <= i < |after| ==> after[i] == e
  }

  /** Everything added to the record is for `model` and on a process not in `known`. */
  predicate ExtendsAnew(before: seq<Service>, after: seq<Service>, model: string, known: set<nat>) {
    before <= after && forall i :: |before| <= i < |after| ==> after[i].model == model && after[i].pid !in known
  }

  /** A request served: its model, and the process it was served on. */
  datatype Service = Service(model: string, pid: nat)

  /** The idle holder as the worker reads it. */
  datatype Holder = Holder(pid: Option<nat>, tag: string, expires: Option<int>)

  /** How a slot came to a process: not at all, not at all so as to leave another model's warm
      process alone, by taking over the holder read at a time, or by a cold start instead. */
  datatype Origin = NoProcess | Spared | Inherited(was: Holder, at: int) | Started(was: Holder, at: int)

  class Worker {
    var active: Option<nat>          // _active_handle
    var idle: Option<nat>            // _idle_handle
    var idleTag: string
    var idleExpires: Option<int>
    var activeSlot: Option<nat>
    var pending: nat                 // expiry tasks created and not yet started
    var script: seq<int>
    var spawned: set<nat>            // processes are numbered in the order they are spawned
    var signalled: set<nat>
    var next: nat
    var made: map<nat, string>       // the model each process was spawned for
    var served: seq<Service>         // every completion or stream begun
    var drifts: nat                  // promotions of follow-ups that were refused
    var log: seq<Snapshot>           // one entry per suspension

    constructor (script: seq<int>)
      ensures Valid() && active == None && log == [] && served == [] && this.script == script
    {
      active, idle, idleTag, idleExpires, activeSlot, pending := None, None, "", None, None, 0;
      this.script := script;
      spawned, signalled, next, log := {}, {}, 0, [];
      made, served, drifts := map[], [], 0;
    }

    function Now(): Snapshot
      reads this
    {
      Snapshot(active, idle, spawned, signalled)
    }

    /** What holds at every suspension and between calls. */
    ghost predicate Valid()
      reads this
    {
      && Held(Now())
      && (idle.Some? ==> idle.value in Live(Now()))
      && (active.Some? ==> active.value in spawned)
      && signalled <= spawned
      && (forall p <- spawned :: p < next)
      && AllHeld(log)
      && made.Keys == spawned
      && (idle.Some? ==> made[idle.value] == idleTag)
      && AllRight(served, made)
    }

    function Seen(): View
      reads this
    {
      View(IdleHolder(), pending, served, spawned, signalled, drifts)
    }

    function IdleHolder(): Holder
      reads this
    {
      Holder(idle, idleTag, idleExpires)
    }

    /** The environment's next answer. */
    method Ask() returns (answer: int)
      modifies `script
      ensures answer == NextAnswer(old(script)) && script == Later(old(script))
    {
      if script == [] {
        answer := 0;
      } else {
        answer := script[0];
        script := script[1..];
      }
    }

    /** The first segment of `_teardown_idle_holder`, up to its sigterm. */
    method GiveUpIdle()
      requires Valid()
      modifies `idle, `idleTag, `idleExpires, `signalled
      ensures Valid() && idle == None
      ensures signalled == if old(idle).Some? then old(signalled) + {old(idle).value} else old(signalled)
    {
      if idle.Some? {
        ghost var before := Now();
        signalled := signalled + {idle.value};
        idle, idleTag, idleExpires := None, "", None;
        assert Live(Now()) <= Live(before) - Just(before.idle);
      }
    }

    /** Either nothing happened to the idle holder, or an expiry task handed it to sigterm. */
    twostate predicate Waited()
      reads this
    {
      pending <= old(pending) && Passed(old(IdleHolder()), old(signalled), IdleHolder(), signalled, old(pending) > 0)
    }

    /** Some of the pending expiry tasks get to run. */
    method RunExpiries()
      requires Valid()
      modifies `idle, `idleTag, `idleExpires, `signalled, `pending, `script
      ensures Valid() && Waited() && |script| <= |old(script)|
    {
      var more := Ask();
      while more > 0 && pending > 0
        invariant Valid() && Waited() && |script| <= |old(script)|
        decreases pending
      {
        Expire();
        more := Ask();
      }
    }

    /** One pending expiry task runs up to its sigterm. */
    method Expire()
      requires Valid() && pending > 0
      modifies `idle, `idleTag, `idleExpires, `signalled, `pending
      ensures Valid() && pending < old(pending) && Waited()
      ensures idle == None
    {
      pending := pending - 1;
      GiveUpIdle();
    }

    /** An await: the state is visible, pending expiry tasks may start, and then the worker
        resumes, is cancelled, or sees an exception. */
    method Suspend() returns (o: Outcome)
      requires Valid()
      modifies `idle, `idleTag, `idleExpires, `signalled, `pending, `script, `log
      ensures Valid() && Waited() && |script| <= |old(script)|
      ensures log == old(log) + [old(Now())]
    {
      log := log + [Now()];
      RunExpiries();
      var answer := Ask();
      o := if answer == 1 then Raised else if answer == 2 then Cancelled else Resumed;
    }

    /** Awaiting the sigterm helper, which returns but may be interrupted by a cancellation. */
    method AwaitSigterm() returns (o: Outcome)
      requires Valid()
      modifies `idle, `idleTag, `idleExpires, `signalled, `pending, `script, `log
      ensures Valid() && Waited() && o != Raised && |script| <= |old(script)|
    {
      o := Suspend();
      if o == Raised {
        o := Resumed;
      }
    }

    /** Hand the active process to sigterm; the reference stays until sigterm returns. */
    method SignalActive()
      requires Valid() && active.Some? && idle == None
      modifies `signalled
      ensures Valid() && Live(Now()) == {} && signalled == old(signalled) + {active.value}
    {
      signalled := signalled + {active.value};
      assert Live(Now()) == {};
    }

    /** `_teardown`: sigterm, verify the memory drop, audit, forget. */
    method Teardown() returns (o: Outcome)
      requires Valid() && idle == None
      modifies `idle, `idleTag, `idleExpires, `signalled, `pending, `script, `log, `active
      ensures Valid() && idle == None && Live(Now()) == {} && old(signalled) <= signalled
      ensures o == Resumed ==> active == None
      ensures active == None || active == old(active)
      ensures |script| <= |old(script)| && pending <= old(pending)
    {
      o := Resumed;
      if active.Some? {
        SignalActive();
        o := AwaitSigterm();
        if o != Resumed {
          return;
        }
        o := Suspend();
        if o != Resumed {
          return;
        }
        o := Suspend();
        if o != Resumed {
          return;
        }
        active := None;
      }
    }

    /** `_teardown_idle_holder`, awaited by the worker. */
    method TeardownIdleHolder() returns (o: Outcome)
      requires Valid() && active == None
      modifies `idle, `idleTag, `idleExpires, `signalled, `pending, `script, `log
      ensures Valid() && idle == None && |script| <= |old(script)| && pending <= old(pending)
      ensures old(signalled) + Just(old(idle)) <= signalled
    {
      GiveUpIdle();
      o := AwaitSigterm();
      if o != Resumed {
        return;
      }
      o := Suspend();
      if o != Resumed {
        return;
      }
      o := Suspend();
    }

    /** The active process, if any, has not been handed to sigterm. */
    predicate InUse()
      reads this
    {
      active.Some? ==> active.value !in signalled
    }

    /** The signalling part of `_force_cold` for a slot with this id and pid. */
    method ForceCold(slot: nat, pid: Option<nat>, riders: nat) returns (o: Outcome)
      requires Valid() && idle == None
      modifies `idle, `idleTag, `idleExpires, `signalled, `pending, `script, `log, `active
      ensures Valid() && idle == None && |script| <= |old(script)| && pending <= old(pending)
      ensures ForceColdBranch(old(active), activeSlot, riders, slot, pid) != Own ==>
              signalled == old(signalled) && active == old(active)
      ensures ForceColdBranch(old(active), activeSlot, riders, slot, pid) == Own ==>
              old(active).value in signalled && Live(Now()) == {}
      ensures (active == None || active == old(active)) && old(signalled) <= signalled
      ensures o == Resumed && old(InUse()) ==> InUse()
    {
      if ForceColdBranch(active, activeSlot, riders, slot, pid) == Own {
        SignalActive();
        o := AwaitSigterm();
        if o != Resumed {
          return;
        }
        active := None;
      }
      o := Suspend();
    }

    /** Any number of awaits in a row. */
    method Awaits() returns (o: Outcome)
      requires Valid()
      modifies `idle, `idleTag, `idleExpires, `signalled, `pending, `script, `log
      ensures Valid() && Waited() && |script| <= |old(script)|
    {
      o := Suspend();
      var more := Ask();
      while more > 0 && o == Resumed
        invariant Valid() && Waited() && |script| <= |old(script)|
        decreases more
      {
        more := more - 1;
        o := Suspend();
      }
    }

    /** A completion or stream begins. */
    method Record(model: string, pid: nat)
      requires Valid() && pid in made && made[pid] == model
      modifies `served
      ensures Valid() && served == old(served) + [Service(model, pid)]
    {
      served := served + [Service(model, pid)];
    }

    /** A matched follow-up, served on the warm process; one whose state has drifted is forced
        cold while it is recorded as the active slot. */
    method ServeMatch(matched: nat, model: string, pid: nat) returns (o: Outcome)
      requires Valid() && idle == None && InUse() && pid in made && made[pid] == model
      modifies `idle, `idleTag, `idleExpires, `signalled, `pending, `script, `log
      modifies `active, `activeSlot, `served, `drifts
      ensures Valid() && idle == None && |script| <= |old(script)| && pending <= old(pending)
      ensures (active == None || active == old(active)) && old(signalled) <= signalled
      ensures o == Resumed ==> InUse()
      ensures Extends(old(served), served, Service(model, pid))
      ensures old(drifts) <= drifts && (drifts == old(drifts) ==> active == old(active))
    {
      var drifted;
      o, drifted := Promote(matched);
      if o != Resumed {
        return;
      }
      if drifted == 1 {
        o := Drift(matched, pid);
      } else {
        o := Complete(model, pid);
      }
    }

    /** The promotion of a follow-up, recorded as the active slot before. */
    method Promote(matched: nat) returns (o: Outcome, drifted: int)
      requires Valid() && idle == None
      modifies `idle, `idleTag, `idleExpires, `signalled, `pending, `script, `log, `activeSlot
      ensures Valid() && Waited() && |script| <= |old(script)|
    {
      activeSlot := Some(matched);
      o := Suspend();
      drifted := Ask();
    }

    /** A refused promotion. */
    method Drift(matched: nat, pid: nat) returns (o: Outcome)
      requires Valid() && idle == None && InUse()
      modifies `idle, `idleTag, `idleExpires, `signalled, `pending, `script, `log, `active, `drifts
      ensures Valid() && idle == None && |script| <= |old(script)| && pending <= old(pending)
      ensures (active == None || active == old(active)) && old(signalled) <= signalled
      ensures drifts == old(drifts) + 1 && (o == Resumed ==> InUse())
    {
      drifts := drifts + 1;
      o := ForceCold(matched, Some(pid), 0);
    }

    /** A follow-up's completion; one that raises is recorded as failed. */
    method Complete(model: string, pid: nat) returns (o: Outcome)
      requires Valid() && idle == None && pid in made && made[pid] == model
      modifies `idle, `idleTag, `idleExpires, `signalled, `pending, `script, `log, `served
      ensures Valid() && Waited() && |script| <= |old(script)|
      ensures served == old(served) + [Service(model, pid)]
    {
      Record(model, pid);
      o := Awaits();
      if o == Raised {
        o := Suspend();
      }
    }

    /** The grace window. */
    method Grace(slot: nat, model: string, pid: nat) returns (o: Outcome)
      requires Valid() && idle == None && InUse() && pid in made && made[pid] == model
      modifies `idle, `idleTag, `idleExpires, `signalled, `pending, `script, `log
      modifies `active, `activeSlot, `served, `drifts
      ensures Valid() && idle == None && |script| <= |old(script)| && pending <= old(pending)
      ensures (active == None || active == old(active)) && old(signalled) <= signalled
      ensures o == Resumed ==> InUse()
      ensures Extends(old(served), served, Service(model, pid))
      ensures old(drifts) <= drifts && (drifts == old(drifts) ==> active == old(active))
    {
      o := Suspend();
      var turns := Ask();
      while turns > 0 && o == Resumed
        invariant Valid() && idle == None && |script| <= |old(script)| && pending <= old(pending)
        invariant (active == None || active == old(active)) && old(signalled) <= signalled
        invariant o == Resumed ==> InUse()
        invariant Extends(old(served), served, Service(model, pid))
        invariant old(drifts) <= drifts && (drifts == old(drifts) ==> active == old(active))
        decreases turns
      {
        turns := turns - 1;
        o := GraceTurn(slot, model, pid);
      }
    }

    /** One turn of the window: a follow-up, or a short sleep. */
    method GraceTurn(slot: nat, model: string, pid: nat) returns (o: Outcome)
      requires Valid() && idle == None && InUse() && pid in made && made[pid] == model
      modifies `idle, `idleTag, `idleExpires, `signalled, `pending, `script, `log
      modifies `active, `activeSlot, `served, `drifts
      ensures Valid() && idle == None && |script| <= |old(script)| && pending <= old(pending)
      ensures (active == None || active == old(active)) && old(signalled) <= signalled
      ensures o == Resumed ==> InUse()
      ensures Extends(old(served), served, Service(model, pid))
      ensures old(drifts) <= drifts && (drifts == old(drifts) ==> active == old(active))
    {
      var matched := Ask();
      if matched > 0 {
        o := ServeMatch(matched, model, pid);
        if o == Resumed {
          activeSlot := Some(slot);
        }
      } else {
        o := Suspend();
      }
    }

    /** The idle holder is still warm for `model` at time `now`. */
    predicate Warm(model: string, now: int)
      reads this
    {
      idle.Some? && idleTag == model && idleExpires.Some? && now < idleExpires.value
    }

    /** A warm holder becomes the active process. */
    method Inherit() returns (o: Outcome)
      requires Valid() && active == None && idle.Some?
      modifies `active, `idle, `idleTag, `idleExpires, `signalled, `pending, `script, `log
      ensures Valid() && idle == None && active == old(idle) && signalled == old(signalled)
      ensures |script| <= |old(script)| && pending <= old(pending)
    {
      active := idle;
      idle, idleTag, idleExpires := None, "", None;
      o := Suspend();
    }

    /** A new process becomes the active one. */
    method Spawn(model: string)
      requires Valid() && active == None && idle == None
      modifies `active, `spawned, `next, `made
      ensures Valid() && active == Some(old(next)) && active.value !in old(spawned)
      ensures spawned == old(spawned) + {old(next)} && made == old(made)[old(next) := model]
    {
      active := Some(next);
      spawned, made := spawned + {next}, made[next := model];
      next := next + 1;
    }

    /** At most one process was spawned, and only after everything that was live had been
        handed to sigterm. */
    twostate predicate SpawnedAlone()
      reads this
    {
      && old(signalled) <= signalled
      && (spawned == old(spawned) || (spawned == old(spawned) + {old(next)} && old(Live(Now())) <= signalled))
    }

    /** Gate, spawn and health of a cold start. */
    method ColdStart(model: string) returns (o: Outcome, up: bool)
      requires Valid() && active == None
      modifies `active, `idle, `idleTag, `idleExpires, `signalled, `pending, `script, `log, `spawned, `next, `made
      ensures Valid() && idle == None && |script| <= |old(script)| && pending <= old(pending)
      ensures up ==> o == Resumed && active.Some? && InUse()
                     && active.value !in old(spawned) && made[active.value] == model
      ensures SpawnedAlone()
      ensures old(signalled) + Just(old(idle)) <= signalled
    {
      o, up := Resumed, false;
      if idle.Some? {
        o := TeardownIdleHolder();
        if o != Resumed {
          return;
        }
      }
      o := Suspend();
      var refused := Ask();
      if o != Resumed || refused == 1 {
        return;
      }
      var failed := Ask();
      if failed == 1 {
        o := Raised;
        return;
      }
      o, up := SpawnAndCheck(model);
    }

    /** The spawn and its health check. */
    method SpawnAndCheck(model: string) returns (o: Outcome, up: bool)
      requires Valid() && active == None && idle == None
      modifies `active, `idle, `idleTag, `idleExpires, `signalled, `pending, `script, `log, `spawned, `next, `made
      ensures Valid() && idle == None && |script| <= |old(script)| && pending <= old(pending)
      ensures up ==> o == Resumed && active.Some? && InUse()
                     && active.value !in old(spawned) && made[active.value] == model
      ensures SpawnedAlone()
    {
      up := false;
      Spawn(model);
      o := Suspend();
      if o != Resumed {
        return;
      }
      var healthy := Ask();
      if healthy == 1 {
        o := Suspend();
        if o == Resumed {
          o := Teardown();
        }
        return;
      }
      up := true;
    }

    /** The `try` of `_process_slot`; `keep` is the idle window.  The first answer says whether
        the model has a manifest: one without costs no other model its warm process. */
    method Body(slot: nat, model: string, keep: int) returns (o: Outcome, how: Origin)
      requires Valid() && active == None
      modifies this
      ensures Valid() && |script| <= |old(script)| && pending <= old(pending) && SpawnedAlone()
      ensures ServedRight(old(Seen()), Seen(), model, how) && KeptWarm(old(Seen()), Seen(), model, keep, o)
      ensures how.Spared? <==> NextAnswer(old(script)) == 1 && old(idle).Some? && old(idleTag) != model
      ensures how.Spared? && old(pending) == 0 ==> IdleHolder() == old(IdleHolder())
      ensures o == Resumed && how.Inherited? ==> |served| > |old(served)|
    {
      var manifest := Ask();
      if manifest == 1 && idle.Some? && idleTag != model {
        how := Spared;
        o := Awaits();
      } else {
        o, how := AcquireAndServe(slot, model, keep);
      }
    }

    /** Come to a process and serve on it. */
    method AcquireAndServe(slot: nat, model: string, keep: int) returns (o: Outcome, how: Origin)
      requires Valid() && active == None
      modifies this
      ensures Valid() && |script| <= |old(script)| && pending <= old(pending) && SpawnedAlone()
      ensures ServedRight(old(Seen()), Seen(), model, how) && KeptWarm(old(Seen()), Seen(), model, keep, o)
      ensures !how.Spared? && (o == Resumed && how.Inherited? ==> |served| > |old(served)|)
    {
      ghost var before := Seen();
      var up;
      o, up, how := Acquire(model);
      if up {
        ghost var middle, pid := Seen(), active.value;
        o := Serve(slot, model, keep);
        ServedOnAcquired(before, middle, Seen(), model, keep, how, pid, o);
      }
    }

    /** A process for the slot: the warm holder's, or a new one. */
    method Acquire(model: string) returns (o: Outcome, up: bool, how: Origin)
      requires Valid() && active == None
      modifies `active, `idle, `idleTag, `idleExpires, `signalled, `pending, `script, `log, `spawned, `next, `made
      ensures Valid() && |script| <= |old(script)| && pending <= old(pending) && SpawnedAlone()
      ensures ReadRight(old(Seen()), model, how) && !how.Spared? && (up ==> !how.NoProcess?)
      ensures how.NoProcess? ==> !up && spawned == old(spawned)
      ensures how.Inherited? ==> spawned == old(spawned) && up == (o == Resumed)
      ensures how.Started? ==> Just(how.was.pid) <= signalled
      ensures up ==> o == Resumed && idle == None && active.Some? && InUse() && made[active.value] == model
      ensures up ==> if how.Inherited? then active == how.was.pid else active.value !in old(spawned)
    {
      up, how := false, NoProcess;
      o := Suspend();
      if o != Resumed {
        return;
      }
      var now := Ask();
      if Warm(model, now) {
        how := Inherited(IdleHolder(), now);
        o := Inherit();
        up := o == Resumed;
      } else {
        how := Started(IdleHolder(), now);
        o, up := ColdStart(model);
      }
    }

    /** From ACTIVE to the idle hand-over. */
    method Serve(slot: nat, model: string, keep: int) returns (o: Outcome)
      requires Valid() && active.Some? && idle == None && InUse() && made[active.value] == model
      modifies `idle, `idleTag, `idleExpires, `signalled, `pending, `script, `log
      modifies `active, `activeSlot, `served, `drifts
      ensures Valid() && |script| <= |old(script)| && old(signalled) <= signalled && pending <= old(pending)
      ensures Extends(old(served), served, Service(model, old(active).value)) && old(drifts) <= drifts
      ensures KeptWarm(old(Seen()), Seen(), model, keep, o)
      ensures o == Resumed ==> |served| > |old(served)|
    {
      o := Attend(model);
      if o != Resumed {
        return;
      }
      o := Grace(slot, model, active.value);
      if o != Resumed {
        return;
      }
      o := HandOver(model, keep);
    }

    /** The slot's own completion or stream. */
    method Attend(model: string) returns (o: Outcome)
      requires Valid() && active.Some? && idle == None && made[active.value] == model
      modifies `idle, `idleTag, `idleExpires, `signalled, `pending, `script, `log, `served
      ensures Valid() && Waited() && |script| <= |old(script)|
      ensures served == old(served) || served == old(served) + [Service(model, active.value)]
      ensures o == Resumed ==> served != old(served)
    {
      o := Suspend();
      if o != Resumed {
        return;
      }
      Record(model, active.value);
      o := Awaits();
    }

    /** The end of the grace window: hold the process for its model, or tear it down. */
    method HandOver(model: string, keep: int) returns (o: Outcome)
      requires Valid() && idle == None && InUse() && (active.Some? ==> made[active.value] == model)
      modifies `active, `idle, `idleTag, `idleExpires, `signalled, `pending, `script, `log
      ensures Valid() && |script| <= |old(script)| && old(signalled) <= signalled && pending <= old(pending)
      ensures o == Resumed && keep <= 0 ==> idle == None
      ensures o == Resumed && keep > 0 && old(active).Some? && old(pending) == 0 ==>
              idle == old(active) && idleTag == model && idleExpires == Some(NextAnswer(old(script)) + keep)
    {
      if keep > 0 && active.Some? {
        var now := Ask();
        idle, idleTag, idleExpires := active, model, Some(now + keep);
        o := Suspend();
      } else {
        o := Teardown();
        if o == Resumed {
          o := Suspend();
        }
      }
    }

    /** `_process_slot`: whatever happens in the body, its `finally` hands the active process
        to sigterm unless it has become the idle holder. */
    method ProcessSlot(slot: nat, model: string, keep: int) returns (o: Outcome, how: Origin)
      requires Valid() && active == None
      modifies this
      ensures Valid() && |script| <= |old(script)| && SpawnedAlone()
      ensures Live(Now()) <= Just(idle)
      ensures o != Cancelled ==> active == None
      ensures ServedRight(old(Seen()), Seen(), model, how) && KeptWarm(old(Seen()), Seen(), model, keep, o)
      ensures how.Spared? <==> NextAnswer(old(script)) == 1 && old(idle).Some? && old(idleTag) != model
      ensures how.Spared? && old(pending) == 0 ==> IdleHolder() == old(IdleHolder())
      ensures o == Resumed && how.Inherited? ==> |served| > |old(served)|
    {
      activeSlot := Some(slot);
      ghost var before := Seen();
      o, how := Body(slot, model, keep);
      activeSlot := None;
      ghost var middle, ended := Seen(), o;
      o := Unwind(o);
      UnwoundRight(before, middle, Seen(), model, keep, how, ended, o);
    }

    /** The `finally` of `_process_slot`. */
    method Unwind(ended: Outcome) returns (o: Outcome)
      requires Valid()
      modifies `active, `idle, `idleTag, `idleExpires, `signalled, `pending, `script, `log
      ensures Valid() && |script| <= |old(script)| && old(signalled) <= signalled && pending <= old(pending)
      ensures Live(Now()) <= Just(idle) && (o != Cancelled ==> active == None)
      ensures o == ended || o != Resumed
      ensures Unwound(old(Seen()), Seen())
    {
      o := ended;
      if active.Some? && active != idle {
        SignalActive();
        o := AwaitSigterm();
        if o != Resumed {
          return;
        }
        o := ended;
      }
      active := None;
    }

    /** The idle tick of the loop: an expired holder gets a detached expiry task, once. */
    method IdleTick(now: int)
      requires Valid()
      modifies `idleExpires, `pending
      ensures Valid()
      ensures if old(idle).Some? && old(idleExpires).Some? && now >= old(idleExpires).value
              then idleExpires == None && pending == old(pending) + 1
              else idleExpires == old(idleExpires) && pending == old(pending)
    {
      if idle.Some? && idleExpires.Some? && now >= idleExpires.value {
        idleExpires, pending := None, pending + 1;
      }
    }

    /** `worker_loop`. */
    method Loop(models: int -> string)
      requires Valid() && active == None
      modifies this
      ensures Valid() && Live(Now()) <= Just(idle)
    {
      var running := true;
      while script != [] && running
        invariant Valid() && Live(Now()) <= Just(idle) && (running ==> active == None)
        decreases |script|
      {
        running := Turn(models);
      }
    }

    /** One turn of the loop: an idle tick, or a slot. */
    method Turn(models: int -> string) returns (running: bool)
      requires Valid() && active == None && script != []
      modifies this
      ensures Valid() && Live(Now()) <= Just(idle) && |script| < |old(script)|
      ensures running ==> active == None
    {
      var slot := Ask();
      var now := Ask();
      var o;
      if slot <= 0 {
        IdleTick(now);
        o := Suspend();
      } else {
        o := TakeSlot(slot, models(slot));
      }
      running := o == Resumed;
    }

    /** A slot, and what an exception in it leads to. */
    method TakeSlot(slot: nat, model: string) returns (o: Outcome)
      requires Valid() && active == None
      modifies this
      ensures Valid() && Live(Now()) <= Just(idle) && |script| <= |old(script)|
      ensures o == Resumed ==> active == None
    {
      var keep := Ask();
      var how;
      o, how := ProcessSlot(slot, model, keep);
      if o == Raised {
        o := ForceColdIdle(slot);
      }
    }

    /** After an uncaught exception nothing is active any more, so forcing the slot cold
        signals nothing. */
    method ForceColdIdle(slot: nat) returns (o: Outcome)
      requires Valid() && active == None
      modifies `idle, `idleTag, `idleExpires, `signalled, `pending, `script, `log
      ensures Valid() && |script| <= |old(script)|
    {
      assert forall pid :: ForceColdBranch(active, activeSlot, 0, slot, pid) == Elsewhere;
      o := Suspend();
    }
  }

  /** In every run of the worker, at every suspension, everything spawned and not yet handed
      to sigterm is referenced by the active or the idle holder, and at most one process is
      live; when the worker exits, only the idle holder's can be.  And every request was served
      on a process spawned for its own model. */
  method RunWorker(script: seq<int>, models: int -> string)
    returns (log: seq<Snapshot>, end: Snapshot, served: seq<Service>, made: map<nat, string>)
    ensures forall s <- log + [end] :: Live(s) <= Just(s.active) + Just(s.idle) && |Live(s)| <= 1
    ensures Live(end) <= Just(end.idle)
    ensures made.Keys == end.spawned
    ensures forall e <- served :: e.pid in made && made[e.pid] == e.model
  {
    var w := new Worker(script);
    w.Loop(models);
    log, end, served, made := w.log, w.Now(), w.served, w.made;
    forall s <- log + [end]
      ensures |Live(s)| <= 1
    {
      HeldIsSingle(s);
    }
  }
}
