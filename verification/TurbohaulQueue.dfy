/** The queue object of queue.py, its deques and counters updated in place, each method
    proved against the value-level queue of QueueSpec. */
module TurbohaulQueues {
  import opened Common
  import opened Fsm
  import opened QueueSpec

  function Reqs(slots: seq<Slot>): (r: seq<Req>)
    ensures |r| == |slots|
    ensures forall i :: 0 <= i < |slots| ==> r[i] == slots[i].req
  {
    seq(|slots|, i requires 0 <= i < |slots| => slots[i].req)
  }

  lemma ReqsConcat(a: seq<Slot>, b: seq<Slot>)
    ensures Reqs(a + b) == Reqs(a) + Reqs(b)
  {
  }

  lemma ReqsRemoveAt(a: seq<Slot>, i: nat)
    requires i < |a|
    ensures Reqs(RemoveAt(a, i)) == RemoveAt(Reqs(a), i)
  {
  }

  /** How a request left `enqueue` or `enqueue_head`. */
  datatype Outcome = Queued | RefusedClosed | RefusedFull | InvalidTransition

  class TurbohaulQueue {
    const config: Config
    var staging: seq<Slot>
    var acceptBuf: seq<Slot>
    var closed: bool
    var consecutive: nat
    var lastPopped: Option<string>

    /** Staging holds STAGED slots only, the buffer ACCEPT_BUFFER slots only and no more
        than its cap; no slot is in either twice, and the states keep the tiers apart. */
    ghost predicate Valid()
      reads this, staging, acceptBuf
    {
      && Distinct(staging) && Distinct(acceptBuf)
      && (forall s <- staging :: s.state == Staged)
      && (forall s <- acceptBuf :: s.state == AcceptBuffer)
      && |acceptBuf| <= config.acceptanceMax
    }

    ghost function Model(): Queue
      reads this
    {
      Queue(Reqs(staging), Reqs(acceptBuf), closed, consecutive, lastPopped)
    }

    constructor (config: Config)
      ensures Valid() && Model() == EmptyQueue && this.config == config
    {
      this.config := config;
      staging, acceptBuf, closed := [], [], false;
      consecutive, lastPopped := 0, None;
    }

    method Enqueue(slot: Slot) returns (r: Outcome)
      requires Valid() && slot !in acceptBuf
      modifies this`staging, this`acceptBuf, slot`state
      ensures Valid()
      ensures r.Queued? ==>
        && QueueSpec.Enqueue(config, old(Model()), slot.req) == Admitted(Model())
        && if |old(staging)| < config.stagingMax
           then slot.state == Staged && staging == old(staging) + [slot] && acceptBuf == old(acceptBuf)
           else slot.state == AcceptBuffer && staging == old(staging) && acceptBuf == old(acceptBuf) + [slot]
      ensures !r.Queued? ==> unchanged(this) && slot.state == old(slot.state)
      ensures r.RefusedClosed? <==> closed
      ensures r.RefusedFull? <==>
              !closed && |old(staging)| >= config.stagingMax && |old(acceptBuf)| >= config.acceptanceMax
      ensures old(slot.state) == Received ==> !r.InvalidTransition?
    {
      if closed {
        return RefusedClosed;
      }
      if |staging| < config.stagingMax {
        var ok := Transition(slot, Staged);
        if !ok {
          return InvalidTransition;
        }
        DistinctWithNew(staging, slot);
        ReqsConcat(staging, [slot]);
        staging := staging + [slot];
        return Queued;
      }
      if |acceptBuf| >= config.acceptanceMax {
        return RefusedFull;
      }
      var ok := Transition(slot, AcceptBuffer);
      if !ok {
        return InvalidTransition;
      }
      DistinctWithNew(acceptBuf, slot);
      ReqsConcat(acceptBuf, [slot]);
      acceptBuf := acceptBuf + [slot];
      return Queued;
    }

    /** Head insert; an already STAGED slot (a rider pushed back, an unroutable request)
        is not transitioned again. */
    method EnqueueHead(slot: Slot) returns (r: Outcome)
      requires Valid() && slot !in staging && slot !in acceptBuf
      modifies this`staging, slot`state
      ensures Valid()
      ensures r.Queued? ==>
        && QueueSpec.EnqueueHead(old(Model()), slot.req) == Admitted(Model())
        && staging == [slot] + old(staging)
      ensures !r.Queued? ==> unchanged(this) && slot.state == old(slot.state)
      ensures r.RefusedClosed? <==> closed
      ensures r.InvalidTransition? <==> !closed && old(slot.state) != Staged && !CanTransition(old(slot.state), Staged)
      ensures !r.RefusedFull?
    {
      if closed {
        return RefusedClosed;
      }
      if slot.state != Staged {
        var ok := Transition(slot, Staged);
        if !ok {
          return InvalidTransition;
        }
      }
      DistinctWithNew(staging, slot);
      ReqsConcat([slot], staging);
      staging := [slot] + staging;
      return Queued;
    }

    /** The eviction-aware pop of the head, flagged when its client is gone.  The source
        bounds a loop here, but both arms of the loop return on the first entry. */
    method PopFirst() returns (slot: Slot?)
      requires Valid()
      modifies this`staging, staging`evicted
      ensures Valid()
      ensures old(staging) == [] ==> slot == null && staging == []
      ensures old(staging) != [] ==> slot == old(staging)[0] && staging == RemoveAt(old(staging), 0)
      ensures slot != null ==> slot.evicted == (old(slot.evicted) || slot.disconnected)
      ensures forall s <- staging :: s.evicted == old(s.evicted)
    {
      if staging == [] {
        return null;
      }
      slot := staging[0];
      DistinctTail(staging);
      staging := staging[1..];
      if slot.disconnected {
        slot.evicted := true;
      }
    }

    /** The affinity sibling: the first entry for `model` among the first `maxScan`,
        everything else left where it is. */
    method PopFirstMatching(model: string, maxScan: nat) returns (slot: Slot?)
      requires Valid()
      modifies this`staging, staging`evicted
      ensures Valid()
      ensures match FirstOf(Reqs(old(staging)), model, maxScan)
              case None => slot == null && staging == old(staging)
              case Some(i) => slot == old(staging)[i] && staging == RemoveAt(old(staging), i)
      ensures slot != null ==> slot.evicted == (old(slot.evicted) || slot.disconnected)
      ensures forall s <- staging :: s.evicted == old(s.evicted)
    {
      var i := IndexOfModel(staging, model, maxScan);
      if i == |staging| {
        return null;
      }
      slot := staging[i];
      RemoveAtMembers(staging, i);
      staging := RemoveAt(staging, i);
      if slot.disconnected {
        slot.evicted := true;
      }
    }

    /** The bounded scan for a model; the length stands for "not there". */
    static method IndexOfModel(slots: seq<Slot>, model: string, maxScan: nat) returns (i: nat)
      ensures match FirstOf(Reqs(slots), model, maxScan) case Some(k) => i == k case None => i == |slots|
    {
      i := 0;
      while i < |slots| && i < maxScan
        invariant 0 <= i <= |slots|
        invariant forall j :: 0 <= j < i ==> Reqs(slots)[j].model != model
      {
        if slots[i].req.model == model {
          return;
        }
        i := i + 1;
      }
      i := |slots|;
    }

    /** The front of the buffer moves to the end of staging. */
    method PromoteFront()
      requires Valid() && acceptBuf != [] && |staging| < config.stagingMax
      modifies this`staging, this`acceptBuf, acceptBuf`state
      ensures Valid()
      ensures Model() == Promote(config, old(Model()))
      ensures staging == old(staging) + [old(acceptBuf)[0]] && acceptBuf == old(acceptBuf)[1..]
    {
      var tail := acceptBuf[0];
      DistinctTail(acceptBuf);
      acceptBuf := acceptBuf[1..];
      var ok := Transition(tail, Staged);
      assert ok;
      DistinctWithNew(staging, tail);
      ReqsConcat(staging, [tail]);
      staging := staging + [tail];
    }

    /** One buffer entry moves up when staging has room; its transition is always legal. */
    method PromoteOne()
      requires Valid()
      modifies this`staging, this`acceptBuf, acceptBuf`state
      ensures Valid()
      ensures Model() == Promote(config, old(Model()))
      ensures staging + acceptBuf == old(staging + acceptBuf)
      ensures if old(acceptBuf) != [] && |old(staging)| < config.stagingMax
              then staging == old(staging) + [old(acceptBuf)[0]] && acceptBuf == old(acceptBuf)[1..]
              else unchanged(this)
    {
      if acceptBuf != [] && |staging| < config.stagingMax {
        PromoteFront();
      }
    }

    method UpdateRunLength(returned: Slot?)
      modifies this`consecutive, this`lastPopped
      ensures Model() == if returned == null then old(Model()) else NoteRun(old(Model()), returned.req)
    {
      if returned != null {
        consecutive := if lastPopped == Some(returned.req.model) then consecutive + 1 else 1;
        lastPopped := Some(returned.req.model);
      }
    }

    /** The affinity match, falling back to the head. */
    method PopStaged(affinity: Option<string>) returns (slot: Slot)
      requires Valid() && staging != []
      modifies this`staging, staging`evicted
      ensures Valid()
      ensures var i := TakeIndex(config, Reqs(old(staging)), affinity);
              slot == old(staging)[i] && staging == RemoveAt(old(staging), i)
      ensures slot.evicted == (old(slot.evicted) || slot.disconnected)
    {
      var got: Slot? := null;
      if affinity.Some? {
        got := PopFirstMatching(affinity.value, config.stagingMax);
      }
      if got == null {
        got := PopFirst();
      }
      slot := got;
    }

    /** Take one staged entry, refill staging by one, note the run. */
    method TakeOne(affinity: Option<string>) returns (slot: Slot)
      requires Valid() && staging != []
      modifies this`staging, this`acceptBuf, this`consecutive, this`lastPopped
      modifies staging`evicted, acceptBuf`state
      ensures Valid()
      ensures var i := TakeIndex(config, Reqs(old(staging)), affinity);
              && slot == old(staging)[i]
              && (Model(), Some(slot.req)) == TakeStaged(config, old(Model()), i)
              && staging + acceptBuf == RemoveAt(old(staging), i) + old(acceptBuf)
      ensures slot.state == Staged && slot.evicted == (old(slot.evicted) || slot.disconnected)
    {
      ghost var q := Model();
      ghost var i := TakeIndex(config, Reqs(staging), affinity);
      ReqsRemoveAt(staging, i);
      slot := PopStaged(affinity);
      assert Model() == q.(staging := RemoveAt(q.staging, i));
      assert slot.state == Staged && slot !in acceptBuf;
      PromoteOne();
      UpdateRunLength(slot);
    }

    /** Pop the head and note the run, without refilling. */
    method PopAndNote() returns (slot: Slot?)
      requires Valid()
      modifies this`staging, this`consecutive, this`lastPopped, staging`evicted
      ensures Valid()
      ensures (Model(), if slot == null then None else Some(slot.req)) == PopFront(old(Model()))
      ensures if slot == null then old(staging) == [] == staging else
        && old(staging) != [] && slot == old(staging)[0] && staging == RemoveAt(old(staging), 0)
        && slot.state == Staged && slot.evicted == (old(slot.evicted) || slot.disconnected)
    {
      if staging != [] {
        ReqsRemoveAt(staging, 0);
      }
      slot := PopFirst();
      UpdateRunLength(slot);
    }

    /** Staging found empty: move buffer entries up while there is room, then pop. */
    method FillAndPop() returns (slot: Slot?)
      requires Valid() && staging == []
      modifies this`staging, this`acceptBuf, this`consecutive, this`lastPopped
      modifies acceptBuf`evicted, acceptBuf`state
      ensures Valid()
      ensures (Model(), if slot == null then None else Some(slot.req)) == PopFront(Fill(config, old(Model())))
      ensures if slot == null then staging + acceptBuf == old(acceptBuf) else
        && old(acceptBuf) != [] && slot == old(acceptBuf)[0] && staging + acceptBuf == old(acceptBuf)[1..]
        && slot.state == Staged && slot.evicted == (old(slot.evicted) || slot.disconnected)
    {
      ghost var all := acceptBuf;
      FillStaging();
      ghost var k := |staging|;
      assert staging == all[..k] && acceptBuf == all[k..];
      slot := PopAndNote();
      if k > 0 {
        SplitTail(all, k);
        assert staging == RemoveAt(all[..k], 0) && acceptBuf == all[k..];
      }
    }

    static lemma SplitTail<T>(all: seq<T>, k: nat)
      requires 0 < k <= |all|
      ensures RemoveAt(all[..k], 0) + all[k..] == all[1..] && all[..k][0] == all[0]
    {
    }

    method FillStaging()
      requires Valid()
      modifies this`staging, this`acceptBuf, acceptBuf`state
      ensures Valid()
      ensures Model() == Fill(config, old(Model()))
      ensures |acceptBuf| <= |old(acceptBuf)|
      ensures var k := |old(acceptBuf)| - |acceptBuf|;
              staging == old(staging) + old(acceptBuf)[..k] && acceptBuf == old(acceptBuf)[k..]
    {
      ghost var q, k := Model(), 0;
      while acceptBuf != [] && |staging| < config.stagingMax
        invariant Valid()
        invariant Fill(config, Model()) == Fill(config, q)
        invariant Moved(old(staging), old(acceptBuf), staging, acceptBuf, k)
        invariant forall s <- acceptBuf :: s in old(acceptBuf)
        decreases |acceptBuf|
      {
        MovedOne(old(staging), old(acceptBuf), staging, acceptBuf, k);
        PromoteFront();
        k := k + 1;
      }
    }

    /** The first `k` of `b0` have moved to the end of `s0`. */
    static ghost predicate Moved<T>(s0: seq<T>, b0: seq<T>, s: seq<T>, b: seq<T>, k: nat) {
      k <= |b0| && b == b0[k..] && s == s0 + b0[..k]
    }

    static lemma MovedOne<T>(s0: seq<T>, b0: seq<T>, s: seq<T>, b: seq<T>, k: nat)
      requires Moved(s0, b0, s, b, k) && b != []
      ensures Moved(s0, b0, s + [b[0]], b[1..], k + 1)
      ensures forall x <- b[1..] :: x in b
    {
      assert b0[..k + 1] == b0[..k] + [b0[k]];
    }

    /** `pop_next`: the FIFO path without a hint, the affinity path with one.  Its
        transitions are always legal, so it never raises. */
    method PopNext(warm: Option<string>, now: real) returns (slot: Slot?)
      requires Valid()
      modifies this`staging, this`acceptBuf, this`consecutive, this`lastPopped
      modifies staging`evicted, acceptBuf`evicted, acceptBuf`state
      ensures Valid()
      ensures (Model(), if slot == null then None else Some(slot.req))
              == QueueSpec.PopNext(config, old(Model()), warm, now)
      ensures var before := old(staging + acceptBuf);
        var i := PopIndex(config, old(Model()), warm, now);
        if slot == null then staging + acceptBuf == before else
        && i < |before| && slot == before[i] && staging + acceptBuf == RemoveAt(before, i)
        && slot.state == Staged && slot.evicted == (old(slot.evicted) || slot.disconnected)
    {
      if staging == [] {
        slot := FillAndPop();
        assert old(staging + acceptBuf) == old(acceptBuf);
        return;
      }
      var affinity := warm;
      if warm.Some? {
        var head := staging[0];
        var headStarved := head.req.model != warm.value && now - head.req.created > config.maxWait;
        var batchCapHit := consecutive >= config.maxRun;
        if headStarved || batchCapHit {
          affinity := None;
        }
      }
      ghost var i := TakeIndex(config, Reqs(staging), affinity);
      assert i == PopIndex(config, Model(), warm, now);
      assert RemoveAt(staging, i) + acceptBuf == RemoveAt(staging + acceptBuf, i);
      slot := TakeOne(affinity);
    }

    /** `pop_matched_thread`: find and take the first staged slot of this thread and model
        in one step; staging is not refilled. */
    method PopMatchedThread(thread: string, model: string) returns (slot: Slot?)
      requires Valid()
      modifies this`staging, staging`evicted
      ensures Valid()
      ensures (Model(), if slot == null then None else Some(slot.req))
              == QueueSpec.PopMatchedThread(old(Model()), thread, model)
      ensures slot == null <==> thread == "" || NoneMatches(old(staging), thread, model)
      ensures slot == null ==> staging == old(staging)
      ensures slot != null ==>
        exists i: nat :: FirstMatching(old(staging), thread, model, i) && slot == old(staging)[i]
                    && staging == RemoveAt(old(staging), i)
      ensures slot != null ==> slot in old(staging) && slot !in staging && slot.state == Staged
                               && slot.evicted == (old(slot.evicted) || slot.disconnected)
    {
      if thread == "" {
        return null;
      }
      var i := IndexOfMatch(staging, thread, model);
      if i == |staging| {
        return null;
      }
      slot := staging[i];
      RemoveAtMembers(staging, i);
      ReqsRemoveAt(staging, i);
      staging := RemoveAt(staging, i);
      if slot.disconnected {
        slot.evicted := true;
      }
    }

    static predicate NoneMatches(slots: seq<Slot>, thread: string, model: string) {
      forall s <- slots :: !IsMatch(s.req, thread, model)
    }

    /** Position `i` holds the first slot of this thread and model. */
    static predicate FirstMatching(slots: seq<Slot>, thread: string, model: string, i: nat) {
      i < |slots| && IsMatch(slots[i].req, thread, model) && NoneMatches(slots[..i], thread, model)
    }

    /** The scan for a thread's follow-up; the length stands for "not there". */
    static method IndexOfMatch(slots: seq<Slot>, thread: string, model: string) returns (i: nat)
      ensures match FirstMatch(Reqs(slots), thread, model) case Some(k) => i == k case None => i == |slots|
      ensures if i < |slots| then FirstMatching(slots, thread, model, i)
              else i == |slots| && NoneMatches(slots, thread, model)
    {
      i := 0;
      while i < |slots|
        invariant 0 <= i <= |slots| && NoneMatches(slots[..i], thread, model)
      {
        if slots[i].req.thread == thread && slots[i].req.model == model {
          assert FirstMatching(slots, thread, model, i);
          assert FirstMatch(Reqs(slots), thread, model) == Some(i);
          return;
        }
        i := i + 1;
      }
      assert slots[..i] == slots;
    }

    /** `find_matched_thread`: the same search, read-only. */
    method FindMatchedThread(thread: string, model: string) returns (slot: Slot?)
      ensures QueueSpec.PopMatchedThread(Model(), thread, model).1 == if slot == null then None else Some(slot.req)
      ensures slot == null <==> thread == "" || NoneMatches(staging, thread, model)
      ensures slot != null ==> exists i: nat :: FirstMatching(staging, thread, model, i) && slot == staging[i]
    {
      if thread == "" {
        return null;
      }
      for i := 0 to |staging|
        invariant NoneMatches(staging[..i], thread, model)
      {
        if staging[i].req.thread == thread && staging[i].req.model == model {
          assert FirstMatching(staging, thread, model, i);
          assert FirstMatch(Reqs(staging), thread, model) == Some(i);
          return staging[i];
        }
      }
      assert staging[..|staging|] == staging;
      return null;
    }

    /** `remove`: the first slot with this id, staging before buffer. */
    method Remove(id: nat) returns (slot: Slot?)
      requires Valid()
      modifies this`staging, this`acceptBuf
      ensures Valid()
      ensures (Model(), if slot == null then None else Some(slot.req)) == QueueSpec.Remove(old(Model()), id)
      ensures slot == null ==> unchanged(this)
      ensures slot != null ==> slot in old(staging + acceptBuf) && slot !in staging && slot !in acceptBuf
    {
      var i := IndexOfId(staging, id);
      if i < |staging| {
        slot := staging[i];
        RemoveAtMembers(staging, i);
        ReqsRemoveAt(staging, i);
        staging := RemoveAt(staging, i);
        return;
      }
      i := IndexOfId(acceptBuf, id);
      if i < |acceptBuf| {
        slot := acceptBuf[i];
        RemoveAtMembers(acceptBuf, i);
        ReqsRemoveAt(acceptBuf, i);
        acceptBuf := RemoveAt(acceptBuf, i);
        return;
      }
      return null;
    }

    /** The scan of one buffer for an id; the length stands for "not there". */
    static method IndexOfId(slots: seq<Slot>, id: nat) returns (i: nat)
      ensures match FirstId(Reqs(slots), id) case Some(k) => i == k case None => i == |slots|
    {
      i := 0;
      while i < |slots|
        invariant 0 <= i <= |slots|
        invariant forall j :: 0 <= j < i ==> slots[j].req.id != id
      {
        if slots[i].req.id == id {
          assert FirstId(Reqs(slots), id) == Some(i);
          return;
        }
        i := i + 1;
      }
    }

    /** `close`: everything still waiting is handed back, in order. */
    method Close() returns (cleared: seq<Slot>)
      requires Valid()
      modifies this`staging, this`acceptBuf, this`closed
      ensures Valid()
      ensures cleared == old(staging + acceptBuf) && closed && staging == [] && acceptBuf == []
      ensures (Model(), Reqs(cleared)) == QueueSpec.Close(old(Model()))
    {
      closed := true;
      ReqsConcat(staging, acceptBuf);
      cleared := staging + acceptBuf;
      acceptBuf := [];
      staging := [];
    }
  }

  // ----- promoting what was popped --------------------------------------------------------

  /** The grace window takes a follow-up and promotes it onto the warm process.  `drifted`
      stands for a refused transition: it never happens.  Between the two transitions the
      worker awaits an audit; `cancelled` tells that it is cancelled there, which no handler
      catches, so the follow-up stays in ACTIVE_MATCH. */
  method PopAndPromoteMatch(q: TurbohaulQueue, thread: string, model: string, cancelled: bool)
    returns (slot: Slot?, drifted: bool)
    requires q.Valid()
    modifies q`staging, q.staging`evicted, q.staging`state
    ensures q.Valid() && !drifted
    ensures (q.Model(), if slot == null then None else Some(slot.req))
            == QueueSpec.PopMatchedThread(old(q.Model()), thread, model)
    ensures slot == null <==> thread == "" || TurbohaulQueue.NoneMatches(old(q.staging), thread, model)
    ensures slot != null ==> slot.state == if cancelled then ActiveMatch else Active
  {
    drifted := false;
    slot := q.PopMatchedThread(thread, model);
    if slot != null {
      drifted := PromoteOnto(q, slot, ActiveMatch, cancelled);
    }
  }

  /** A fan-out takes a rider and promotes it onto the shared process; nor does that drift. */
  method PopAndPromoteRider(q: TurbohaulQueue, warm: Option<string>, now: real) returns (slot: Slot?, drifted: bool)
    requires q.Valid()
    modifies q`staging, q`acceptBuf, q`consecutive, q`lastPopped
    modifies q.staging`evicted, q.staging`state, q.acceptBuf`evicted, q.acceptBuf`state
    ensures q.Valid() && !drifted
    ensures (q.Model(), if slot == null then None else Some(slot.req))
            == QueueSpec.PopNext(q.config, old(q.Model()), warm, now)
    ensures slot != null ==> slot.state == Active
  {
    drifted := false;
    ghost var before := q.staging + q.acceptBuf;
    TiersDistinct(q);
    ghost var i := PopIndex(q.config, q.Model(), warm, now);
    slot := q.PopNext(warm, now);
    if slot != null {
      RemoveAtMembers(before, i);
      assert slot !in q.staging + q.acceptBuf;
      drifted := PromoteOnto(q, slot, Loading, false);
    }
  }

  lemma TiersDistinct(q: TurbohaulQueue)
    requires q.Valid()
    ensures Distinct(q.staging + q.acceptBuf)
  {
    var all := q.staging + q.acceptBuf;
    forall i, j | 0 <= i < j < |all|
      ensures all[i] != all[j]
    {
      if i < |q.staging| <= j {
        assert all[i] in q.staging && all[j] in q.acceptBuf;
      }
    }
  }

  /** The two transitions of a promotion, unless it is cancelled between them. */
  method PromoteOnto(q: TurbohaulQueue, slot: Slot, via: SlotState, cancelled: bool) returns (drifted: bool)
    requires q.Valid() && slot !in q.staging && slot !in q.acceptBuf
    modifies slot`state
    ensures q.Valid()
    ensures PromotionLegal(old(slot.state), via) ==> !drifted && slot.state == if cancelled then via else Active
    ensures !CanTransition(old(slot.state), via) ==> drifted && slot.state == old(slot.state)
  {
    var ok := Transition(slot, via);
    if !ok {
      return true;
    }
    if cancelled {
      return false;
    }
    ok := Transition(slot, Active);
    drifted := !ok;
  }

  /** The staged entry taken: the affinity match if there is one, else the head. */
  function TakeIndex(c: Config, staged: seq<Req>, affinity: Option<string>): (i: nat)
    requires staged != []
    ensures i < |staged|
  {
    match affinity
    case None => 0
    case Some(warm) =>
      match FirstOf(staged, warm, c.stagingMax)
      case Some(i) => i
      case None => 0
  }
}
