/** The two-tier queue of queue.py as a value, one function per critical section. */
module QueueSpec {
  import opened Common

  /** `maxRun` is max_consecutive_same_model, `maxWait` is max_other_model_wait_s. */
  datatype Config = Config(stagingMax: nat, acceptanceMax: nat, maxRun: nat, maxWait: real)

  datatype Queue = Queue(staging: seq<Req>, buffer: seq<Req>, closed: bool, run: nat, last: Option<string>)

  datatype Admission = Admitted(queue: Queue) | QueueClosed | QueueFull

  const EmptyQueue := Queue([], [], false, 0, None)

  /** What is waiting, in waiting order: staging first, then the acceptance buffer. */
  function Contents(q: Queue): seq<Req> {
    q.staging + q.buffer
  }

  function Enqueue(c: Config, q: Queue, s: Req): Admission {
    if q.closed then QueueClosed
    else if |q.staging| < c.stagingMax then Admitted(q.(staging := q.staging + [s]))
    else if |q.buffer| >= c.acceptanceMax then QueueFull
    else Admitted(q.(buffer := q.buffer + [s]))
  }

  function EnqueueHead(q: Queue, s: Req): Admission {
    if q.closed then QueueClosed else Admitted(q.(staging := [s] + q.staging))
  }

  /** One buffer entry moves to the staging tail when there is room. */
  function Promote(c: Config, q: Queue): Queue {
    if q.buffer != [] && |q.staging| < c.stagingMax
    then q.(staging := q.staging + [q.buffer[0]], buffer := q.buffer[1..])
    else q
  }

  function Fill(c: Config, q: Queue): Queue
    decreases |q.buffer|
  {
    if q.buffer != [] && |q.staging| < c.stagingMax then Fill(c, Promote(c, q)) else q
  }

  /** The run-length counter after popping `s`. */
  function NoteRun(q: Queue, s: Req): Queue {
    q.(run := if q.last == Some(s.model) then q.run + 1 else 1, last := Some(s.model))
  }

  /** Least index below `bound` whose entry is for `model`. */
  function FirstOf(s: seq<Req>, model: string, bound: nat): (r: Option<nat>)
    ensures r.Some? ==> r.value < |s| && r.value < bound && s[r.value].model == model
                        && forall j :: 0 <= j < r.value ==> s[j].model != model
    ensures r.None? ==> forall j :: 0 <= j < |s| && j < bound ==> s[j].model != model
  {
    if s == [] || bound == 0 then None
    else if s[0].model == model then Some(0)
    else match FirstOf(s[1..], model, bound - 1)
      case None => None
      case Some(i) => Some(i + 1)
  }

  /** The head must go next: it belongs to another model and has waited too long, or
      the current model has used up its run. */
  predicate HeadForced(c: Config, q: Queue, warm: string, now: real)
    requires q.staging != []
  {
    var head := q.staging[0];
    || (head.model != warm && now - head.created > c.maxWait)
    || q.run >= c.maxRun
  }

  function TakeStaged(c: Config, q: Queue, i: nat): (Queue, Option<Req>)
    requires i < |q.staging|
  {
    var s := q.staging[i];
    (NoteRun(Promote(c, q.(staging := RemoveAt(q.staging, i))), s), Some(s))
  }

  /** The index in staging that the affinity path takes. */
  function AffinityIndex(c: Config, q: Queue, warm: string, now: real): (i: nat)
    requires q.staging != []
    ensures i < |q.staging|
  {
    if HeadForced(c, q, warm, now) then 0
    else match FirstOf(q.staging, warm, c.stagingMax)
      case Some(i) => i
      case None => 0
  }

  /** Pop the head without refilling. */
  function PopFront(q: Queue): (Queue, Option<Req>) {
    if q.staging == [] then (q, None)
    else (NoteRun(q.(staging := RemoveAt(q.staging, 0)), q.staging[0]), Some(q.staging[0]))
  }

  function Opt(o: Option<Req>): seq<Req> {
    if o.Some? then [o.value] else []
  }

  function PopNext(c: Config, q: Queue, warm: Option<string>, now: real): (Queue, Option<Req>) {
    if q.staging == [] then PopFront(Fill(c, q))
    else if warm.None? then TakeStaged(c, q, 0)
    else TakeStaged(c, q, AffinityIndex(c, q, warm.value, now))
  }

  function PopMatchedThread(q: Queue, thread: string, model: string): (Queue, Option<Req>) {
    if thread == "" then (q, None)
    else match FirstMatch(q.staging, thread, model)
      case None => (q, None)
      case Some(i) => (q.(staging := RemoveAt(q.staging, i)), Some(q.staging[i]))
  }

  function FirstMatch(s: seq<Req>, thread: string, model: string): (r: Option<nat>)
    ensures r.Some? ==> r.value < |s| && s[r.value].thread == thread && s[r.value].model == model
                        && forall j :: 0 <= j < r.value ==> !(s[j].thread == thread && s[j].model == model)
    ensures r.None? ==> forall j :: 0 <= j < |s| ==> !(s[j].thread == thread && s[j].model == model)
  {
    if s == [] then None
    else if s[0].thread == thread && s[0].model == model then Some(0)
    else match FirstMatch(s[1..], thread, model)
      case None => None
      case Some(i) => Some(i + 1)
  }

  function FirstId(s: seq<Req>, id: nat): (r: Option<nat>)
    ensures r.Some? ==> r.value < |s| && s[r.value].id == id
                        && forall j :: 0 <= j < r.value ==> s[j].id != id
    ensures r.None? ==> forall j :: 0 <= j < |s| ==> s[j].id != id
  {
    if s == [] then None
    else if s[0].id == id then Some(0)
    else match FirstId(s[1..], id)
      case None => None
      case Some(i) => Some(i + 1)
  }

  /** `remove`: the first entry with this id, staging before buffer. */
  function Remove(q: Queue, id: nat): (Queue, Option<Req>) {
    match FirstId(q.staging, id)
    case Some(i) => (q.(staging := RemoveAt(q.staging, i)), Some(q.staging[i]))
    case None =>
      match FirstId(q.buffer, id)
      case Some(i) => (q.(buffer := RemoveAt(q.buffer, i)), Some(q.buffer[i]))
      case None => (q, None)
  }

  function Close(q: Queue): (Queue, seq<Req>) {
    (q.(staging := [], buffer := [], closed := true), Contents(q))
  }

  // ----- what a pop takes ---------------------------------------------------------

  lemma PromoteKeepsContents(c: Config, q: Queue)
    ensures Contents(Promote(c, q)) == Contents(q)
  {
  }

  lemma {:induction false} FillKeepsContents(c: Config, q: Queue)
    ensures Contents(Fill(c, q)) == Contents(q)
    ensures var f := Fill(c, q); f.closed == q.closed && f.run == q.run && f.last == q.last
    ensures var f := Fill(c, q); f.staging == [] && f.buffer != [] ==> c.stagingMax == 0
    decreases |q.buffer|
  {
    if q.buffer != [] && |q.staging| < c.stagingMax {
      PromoteKeepsContents(c, q);
      FillKeepsContents(c, Promote(c, q));
    }
  }

  /** The position, in waiting order, that `PopNext` takes. */
  function PopIndex(c: Config, q: Queue, warm: Option<string>, now: real): nat {
    if warm.None? || q.staging == [] then 0 else AffinityIndex(c, q, warm.value, now)
  }

  /** The effect of taking position `i` of the waiting order: the rest stays in order and
      the run-length counter notes the model taken. */
  predicate Takes(q: Queue, after: Queue, got: Option<Req>, i: nat) {
    && i < |Contents(q)|
    && got == Some(Contents(q)[i])
    && Contents(after) == RemoveAt(Contents(q), i)
    && after.closed == q.closed
    && after.last == Some(Contents(q)[i].model)
    && after.run == if q.last == Some(Contents(q)[i].model) then q.run + 1 else 1
  }

  lemma TakeStagedTakes(c: Config, q: Queue, i: nat)
    requires i < |q.staging|
    ensures var (after, got) := TakeStaged(c, q, i); Takes(q, after, got, i)
  {
    var rest := q.(staging := RemoveAt(q.staging, i));
    PromoteKeepsContents(c, rest);
    assert Contents(rest) == RemoveAt(Contents(q), i);
  }

  lemma EmptyStagingTakes(c: Config, q: Queue, warm: Option<string>, now: real)
    requires q.staging == []
    ensures var (after, got) := PopNext(c, q, warm, now);
            if Fill(c, q).staging == [] then after == Fill(c, q) && got == None else Takes(q, after, got, 0)
  {
    FillKeepsContents(c, q);
    var filled := Fill(c, q);
    if filled.staging != [] {
      assert Contents(filled)[1..] == filled.staging[1..] + filled.buffer;
    }
  }

  /** Everything order-related about the queue rests on this: a pop removes exactly one
      entry from the waiting order, leaves the rest in order, and what it removes is the
      first entry of its own model.  It finds nothing only when nothing waits. */
  lemma PopTakesOne(c: Config, q: Queue, warm: Option<string>, now: real)
    requires c.stagingMax > 0
    ensures var (after, got) := PopNext(c, q, warm, now);
            if Contents(q) == [] then after == q && got == None
            else
              && Takes(q, after, got, PopIndex(c, q, warm, now))
              && forall j :: 0 <= j < PopIndex(c, q, warm, now) ==> Contents(q)[j].model != got.value.model
  {
    if q.staging == [] {
      EmptyStagingTakes(c, q, warm, now);
      FillKeepsContents(c, q);
    } else {
      var i := PopIndex(c, q, warm, now);
      TakeStagedTakes(c, q, i);
      assert PopNext(c, q, warm, now) == TakeStaged(c, q, i);
      assert forall j :: 0 <= j < i ==> Contents(q)[j] == q.staging[j];
    }
  }

  /** Which entry a pop takes.  Past the head it goes exactly when a hint is given, the head is
      for another model and has not waited too long, the run is not used up, and the entry is
      the first for the hinted model within the scan. */
  lemma PopPassesHeadExactly(c: Config, q: Queue, warm: Option<string>, now: real, i: nat)
    requires 0 < i < |q.staging|
    ensures PopIndex(c, q, warm, now) == i
            <==> && warm.Some? && i < c.stagingMax
                 && q.run < c.maxRun && now - q.staging[0].created <= c.maxWait
                 && q.staging[i].model == warm.value
                 && forall j :: 0 <= j < i ==> q.staging[j].model != warm.value
  {
    if warm.Some? {
      var first := FirstOf(q.staging, warm.value, c.stagingMax);
      assert first.None? ==> forall j :: 0 <= j < |q.staging| && j < c.stagingMax ==> q.staging[j].model != warm.value;
    }
  }

  // ----- a run-length cap of one -----------------------------------------------------

  /** With a cap of one a hinted pop takes the head exactly when something has been popped
      before, the head is for the hinted model or has waited too long, or no staged entry
      within the scan is for the hinted model. */
  lemma CapOneTakesHeadExactly(c: Config, q: Queue, warm: string, now: real)
    requires c.maxRun == 1 && c.stagingMax > 0 && q.staging != []
    ensures PopIndex(c, q, Some(warm), now) == 0
            <==> || q.run >= 1
                 || q.staging[0].model == warm
                 || now - q.staging[0].created > c.maxWait
                 || forall i :: 0 <= i < |q.staging| && i < c.stagingMax ==> q.staging[i].model != warm
  {
  }

  /** From the second pop on, a cap of one is strict first-in, first-out. */
  lemma CapOneIsFifoAfterFirstPop(c: Config, q: Queue, first: Option<string>, second: Option<string>, now: real)
    requires c.maxRun == 1 && c.stagingMax > 0 && Contents(q) != []
    ensures PopIndex(c, PopNext(c, q, first, now).0, second, now) == 0
  {
    PopTakesOne(c, q, first, now);
  }

  /** The very first pop may overtake, even with a cap of one. */
  lemma CapOneFirstPopOvertakes(c: Config, head: Req, behind: Req)
    requires c.maxRun == 1 && c.stagingMax > 1 && c.maxWait >= 0.0 && head.model != behind.model
    ensures PopIndex(c, Queue([head, behind], [], false, 0, None), Some(behind.model), head.created) == 1
  {
    var staging := [head, behind];
    assert staging[1..] == [behind];
    assert FirstOf(staging, behind.model, c.stagingMax) == Some(1);
  }

  // ----- the two tiers act as one list ---------------------------------------------

  /** Nothing waits in the buffer while staging has room. */
  predicate Packed(c: Config, q: Queue) {
    q.buffer != [] ==> |q.staging| >= c.stagingMax
  }

  lemma {:induction false} FillPacks(c: Config, q: Queue)
    requires c.stagingMax > 0 && |q.staging| <= c.stagingMax
    ensures var f := Fill(c, q);
            && Packed(c, f)
            && |f.staging| == if |Contents(q)| <= c.stagingMax then |Contents(q)| else c.stagingMax
    decreases |q.buffer|
  {
    if q.buffer != [] && |q.staging| < c.stagingMax {
      FillPacks(c, Promote(c, q));
    }
  }

  /** What a pop moves up: everything there is room for when staging was empty, one entry
      otherwise.  So it leaves the tiers packed exactly when, with staging empty, the buffer
      fitted into it, and otherwise when the buffer had at most one entry or staging had its
      full complement. */
  lemma PopPacksExactly(c: Config, q: Queue, warm: Option<string>, now: real)
    requires c.stagingMax > 0
    ensures Packed(c, PopNext(c, q, warm, now).0)
            <==> if q.staging == [] then |q.buffer| <= c.stagingMax
                 else |q.buffer| <= 1 || |q.staging| >= c.stagingMax
  {
    if q.staging == [] {
      FillPacks(c, q);
      FillKeepsContents(c, q);
      assert |Contents(Fill(c, q))| == |Contents(q)|;
    }
  }

  lemma PopKeepsPacked(c: Config, q: Queue, warm: Option<string>, now: real)
    requires Packed(c, q) && c.stagingMax > 0
    ensures Packed(c, PopNext(c, q, warm, now).0)
  {
    PopPacksExactly(c, q, warm, now);
  }

  lemma EnqueueKeepsPacked(c: Config, q: Queue, s: Req)
    requires Packed(c, q)
    ensures Enqueue(c, q, s).Admitted? ==> Packed(c, Enqueue(c, q, s).queue)
    ensures EnqueueHead(q, s).Admitted? ==> Packed(c, EnqueueHead(q, s).queue)
  {
  }

  /** A fresh request joins the end of the waiting order exactly when the tiers are
      packed; otherwise it overtakes what still waits in the buffer. */
  lemma EnqueueAppendsExactly(c: Config, q: Queue, s: Req)
    requires Enqueue(c, q, s).Admitted? && s !in q.buffer
    ensures Contents(Enqueue(c, q, s).queue) == Contents(q) + [s] <==> Packed(c, q)
  {
    var after := Contents(Enqueue(c, q, s).queue);
    if !Packed(c, q) {
      assert after[|after| - 1] == q.buffer[|q.buffer| - 1];
    } else if |q.staging| < c.stagingMax {
      assert after == Contents(q) + [s];
    } else {
      assert after == Contents(q) + [s];
    }
  }

  /** Admission to the queue: refused exactly when it is closed or both tiers are at their
      caps; a head insert exactly when it is closed. */
  lemma AdmissionExactly(c: Config, q: Queue, s: Req)
    ensures Enqueue(c, q, s).QueueClosed? <==> q.closed
    ensures Enqueue(c, q, s).QueueFull? <==>
            !q.closed && |q.staging| >= c.stagingMax && |q.buffer| >= c.acceptanceMax
    ensures EnqueueHead(q, s).Admitted? <==> !q.closed
    ensures EnqueueHead(q, s).Admitted? ==> Contents(EnqueueHead(q, s).queue) == [s] + Contents(q)
  {
    assert [s] + q.staging + q.buffer == [s] + (q.staging + q.buffer);
  }

  /** The close hands back everything that waits, in order, and from then on the queue holds
      nothing and admits nothing. */
  lemma NothingAfterClose(c: Config, q: Queue, s: Req, warm: Option<string>, now: real)
    ensures Close(q).1 == Contents(q) && Contents(Close(q).0) == []
    ensures Enqueue(c, Close(q).0, s).QueueClosed? && EnqueueHead(Close(q).0, s).QueueClosed?
    ensures PopNext(c, Close(q).0, warm, now) == (Close(q).0, None)
  {
  }

  predicate IsMatch(s: Req, thread: string, model: string) {
    s.thread == thread && s.model == model
  }

  /** A matched pop finds something exactly when a thread is named and some staged request is
      of that thread and model; it takes the first such out of staging and leaves everything
      else of the queue as it was.  For a request without a thread it finds nothing. */
  lemma MatchedPopExactly(q: Queue, thread: string, model: string)
    ensures var (after, got) := PopMatchedThread(q, thread, model);
            && (got.Some? <==> thread != "" && exists s <- q.staging :: IsMatch(s, thread, model))
            && (got == None ==> after == q)
            && forall i :: 0 <= i < |q.staging| && thread != "" && IsMatch(q.staging[i], thread, model)
                           && (forall j :: 0 <= j < i ==> !IsMatch(q.staging[j], thread, model)) ==>
                 got == Some(q.staging[i]) && after == q.(staging := RemoveAt(q.staging, i))
  {
    var first := FirstMatch(q.staging, thread, model);
    if first.Some? {
      assert IsMatch(q.staging[first.value], thread, model);
      forall i | 0 <= i < |q.staging| && IsMatch(q.staging[i], thread, model)
                 && forall j :: 0 <= j < i ==> !IsMatch(q.staging[j], thread, model)
        ensures i == first.value
      {
        assert !(i < first.value);
      }
    }
  }

  /** Position `i` of the waiting order is the first with this id. */
  predicate FirstWithId(q: Queue, id: nat, i: nat) {
    && i < |Contents(q)| && Contents(q)[i].id == id
    && forall j :: 0 <= j < i ==> Contents(q)[j].id != id
  }

  lemma RemoveFinds(q: Queue, id: nat)
    ensures Remove(q, id).1 == None ==> Remove(q, id).0 == q && forall s <- Contents(q) :: s.id != id
    ensures Remove(q, id).1.Some? ==> exists s <- Contents(q) :: s.id == id
  {
    var got := Remove(q, id).1;
    if got.Some? {
      assert got.value in Contents(q);
    }
  }

  lemma RemoveStaged(q: Queue, id: nat, i: nat)
    requires FirstWithId(q, id, i) && i < |q.staging|
    ensures Remove(q, id) == (q.(staging := RemoveAt(q.staging, i)), Some(q.staging[i]))
  {
    assert forall j :: 0 <= j <= i ==> Contents(q)[j] == q.staging[j];
  }

  lemma RemoveBuffered(q: Queue, id: nat, i: nat)
    requires FirstWithId(q, id, i) && i >= |q.staging|
    ensures Remove(q, id) == (q.(buffer := RemoveAt(q.buffer, i - |q.staging|)), Some(q.buffer[i - |q.staging|]))
  {
    var n := |q.staging|;
    assert forall j :: 0 <= j < n ==> Contents(q)[j] == q.staging[j];
    assert forall j :: 0 <= j <= i - n ==> Contents(q)[n + j] == q.buffer[j];
  }

  /** Removing by id finds something exactly when some waiting request has the id; it takes the
      first such in waiting order, out of its own tier, and leaves everything else alone. */
  lemma RemoveExactly(q: Queue, id: nat, i: nat)
    ensures Remove(q, id).1.Some? <==> exists s <- Contents(q) :: s.id == id
    ensures Remove(q, id).1 == None ==> Remove(q, id).0 == q
    ensures FirstWithId(q, id, i) ==>
            var n := |q.staging|;
            Remove(q, id) == (if i < n then q.(staging := RemoveAt(q.staging, i))
                              else q.(buffer := RemoveAt(q.buffer, i - n)), Some(Contents(q)[i]))
  {
    RemoveFinds(q, id);
    if FirstWithId(q, id, i) {
      if i < |q.staging| {
        RemoveStaged(q, id, i);
      } else {
        RemoveBuffered(q, id, i);
      }
    }
  }

  /** Taking a slot out of the middle (`pop_matched_thread`, `remove`) does not refill
      staging; it leaves the tiers packed exactly when the buffer is empty or staging
      still has its full complement. */
  lemma MatchedPopPackedExactly(c: Config, q: Queue, thread: string, model: string)
    requires Packed(c, q) && PopMatchedThread(q, thread, model).1.Some?
    ensures Packed(c, PopMatchedThread(q, thread, model).0) <==> q.buffer == [] || |q.staging| > c.stagingMax
  {
  }

  /** Popping and pushing back at the head is the identity on the waiting order exactly
      when the pop took the front. */
  lemma PushBackRestoresExactly(c: Config, q: Queue, warm: Option<string>, now: real)
    requires c.stagingMax > 0 && !q.closed && Distinct(Contents(q)) && Contents(q) != []
    ensures var (after, got) := PopNext(c, q, warm, now);
            got.Some? && EnqueueHead(after, got.value).Admitted?
            && (Contents(EnqueueHead(after, got.value).queue) == Contents(q) <==> PopIndex(c, q, warm, now) == 0)
  {
    PopTakesOne(c, q, warm, now);
    var (after, got) := PopNext(c, q, warm, now);
    PushBackAfter(q, after, got, PopIndex(c, q, warm, now));
  }

  lemma PushBackAfter(q: Queue, after: Queue, got: Option<Req>, i: nat)
    requires Takes(q, after, got, i) && !q.closed && Distinct(Contents(q))
    ensures EnqueueHead(after, got.value).Admitted?
    ensures Contents(EnqueueHead(after, got.value).queue) == Contents(q) <==> i == 0
  {
    HeadInsertRestores(Contents(q), i);
    assert Contents(EnqueueHead(after, got.value).queue) == [got.value] + Contents(after);
  }

  lemma HeadInsertRestores(s: seq<Req>, i: nat)
    requires i < |s| && Distinct(s)
    ensures [s[i]] + RemoveAt(s, i) == s <==> i == 0
  {
    if i > 0 {
      assert ([s[i]] + RemoveAt(s, i))[0] != s[0];
    }
  }

  // ----- re-queueing a batch --------------------------------------------------------

  /** `_requeue_slots_or_fail` on an open queue: one head insert after another. */
  function PushAll(q: Queue, batch: seq<Req>): Queue
    decreases |batch|
  {
    if batch == [] then q else PushAll(q.(staging := [batch[0]] + q.staging), batch[1..])
  }

  function Reversed<T>(s: seq<T>): (r: seq<T>)
    ensures |r| == |s|
    ensures forall i :: 0 <= i < |s| ==> r[i] == s[|s| - 1 - i]
  {
    if s == [] then [] else Reversed(s[1..]) + [s[0]]
  }

  lemma {:induction false} PushAllReverses(q: Queue, batch: seq<Req>)
    ensures Contents(PushAll(q, batch)) == Reversed(batch) + Contents(q)
    ensures var p := PushAll(q, batch);
            p.buffer == q.buffer && p.closed == q.closed && p.run == q.run && p.last == q.last
    decreases |batch|
  {
    if batch != [] {
      PushAllReverses(q.(staging := [batch[0]] + q.staging), batch[1..]);
      assert Reversed(batch) == Reversed(batch[1..]) + [batch[0]];
    }
  }

  lemma ConcatDistinct(a: seq<Req>, b: seq<Req>)
    requires Distinct(a) && Distinct(b) && forall x <- a :: x !in b
    ensures Distinct(a + b)
  {
    var s := a + b;
    forall i, j | 0 <= i < j < |s|
      ensures s[i] != s[j]
    {
      if i < |a| <= j {
        assert s[i] in a && s[j] in b;
      }
    }
  }

  lemma ReversedMembers<T>(s: seq<T>)
    ensures forall x :: x in Reversed(s) <==> x in s
    ensures Distinct(s) ==> Distinct(Reversed(s))
  {
    var r := Reversed(s);
    forall x
      ensures x in r <==> x in s
    {
      if x in s {
        var i :| 0 <= i < |s| && s[i] == x;
        assert r[|s| - 1 - i] == x;
      }
      if x in r {
        var i :| 0 <= i < |r| && r[i] == x;
        assert s[|s| - 1 - i] == x;
      }
    }
  }

  /** A re-queued batch is all there, and nothing is in twice. */
  lemma PushAllMembers(q: Queue, batch: seq<Req>)
    requires Distinct(batch) && Distinct(Contents(q)) && forall x <- batch :: x !in Contents(q)
    ensures Distinct(Contents(PushAll(q, batch)))
    ensures forall x :: x in Contents(PushAll(q, batch)) <==> x in batch || x in Contents(q)
  {
    PushAllReverses(q, batch);
    ReversedMembers(batch);
    ConcatDistinct(Reversed(batch), Contents(q));
  }

  /** The batch keeps its order through the re-queue exactly when it is a palindrome of
      requests, that is, for distinct requests, when it has at most one. */
  lemma BatchOrderKeptExactly(q: Queue, batch: seq<Req>)
    requires Distinct(batch)
    ensures Contents(PushAll(q, batch)) == batch + Contents(q) <==> |batch| <= 1
  {
    PushAllReverses(q, batch);
    var pushed := Contents(PushAll(q, batch));
    if |batch| > 1 {
      assert pushed[0] == batch[|batch| - 1] && (batch + Contents(q))[0] == batch[0];
    } else {
      assert Reversed(batch) == batch;
    }
  }

  /** Concretely, two requests drained in order come back swapped. */
  lemma BatchOrderLost()
    ensures exists a: Req, b: Req :: Contents(PushAll(EmptyQueue, [a, b])) == [b, a] && a != b
  {
    var a := Req(0, "m", "t", 0.0);
    var b := Req(1, "m", "t", 0.0);
    PushAllReverses(EmptyQueue, [a, b]);
    assert Reversed([a, b]) == [b, a];
    assert Contents(PushAll(EmptyQueue, [a, b])) == [b, a];
  }
}
