/** What holds over every run of the queue: nothing is lost or duplicated, and pops of
    each model come out in that model's arrival order. */
module QueueRuns {
  import opened Common
  import opened QueueSpec

  datatype Event =
    | Arrive(slot: Req)
    | ArriveHead(slot: Req)
    | Pop(warm: Option<string>, now: real)
    | PopThread(thread: string, model: string)
    | Withdraw(id: nat)
    | Shut

  /** The queue with what has entered it and left it so far, in order. */
  datatype Trace = Trace(queue: Queue, accepted: seq<Req>, popped: seq<Req>, cleared: seq<Req>)

  function Step(c: Config, t: Trace, e: Event): Trace {
    match e
    case Arrive(s) =>
      (match Enqueue(c, t.queue, s)
       case Admitted(q) => t.(queue := q, accepted := t.accepted + [s])
       case _ => t)
    case ArriveHead(s) =>
      (match EnqueueHead(t.queue, s)
       case Admitted(q) => t.(queue := q, accepted := t.accepted + [s])
       case _ => t)
    case Pop(warm, now) =>
      var (q, got) := PopNext(c, t.queue, warm, now);
      t.(queue := q, popped := t.popped + Opt(got))
    case PopThread(thread, model) =>
      var (q, got) := PopMatchedThread(t.queue, thread, model);
      t.(queue := q, popped := t.popped + Opt(got))
    case Withdraw(id) =>
      var (q, got) := Remove(t.queue, id);
      t.(queue := q, popped := t.popped + Opt(got))
    case Shut =>
      var (q, rest) := Close(t.queue);
      t.(queue := q, cleared := t.cleared + rest)
  }

  function Replay(c: Config, es: seq<Event>): Trace {
    if es == [] then Trace(EmptyQueue, [], [], [])
    else Step(c, Replay(c, es[..|es| - 1]), es[|es| - 1])
  }

  // ----- conservation ----------------------------------------------------------------

  lemma RemoveAtMultiset(s: seq<Req>, i: nat)
    requires i < |s|
    ensures multiset(s) == multiset(RemoveAt(s, i)) + multiset{s[i]}
  {
    assert s == s[..i] + [s[i]] + s[i + 1..];
  }

  ghost predicate Conserved(t: Trace) {
    multiset(t.accepted) == multiset(t.popped) + multiset(t.cleared) + multiset(Contents(t.queue))
  }

  /** One request in at either end. */
  lemma InConserves(t: Trace, q: Queue, s: Req)
    requires Conserved(t) && multiset(Contents(q)) == multiset(Contents(t.queue)) + multiset{s}
    ensures Conserved(t.(queue := q, accepted := t.accepted + [s]))
  {
  }

  /** At most one request out. */
  lemma OutConserves(t: Trace, q: Queue, got: Option<Req>)
    requires Conserved(t) && multiset(Contents(t.queue)) == multiset(Contents(q)) + multiset(Opt(got))
    ensures Conserved(t.(queue := q, popped := t.popped + Opt(got)))
  {
  }

  lemma ArriveConserves(c: Config, t: Trace, s: Req)
    requires Conserved(t)
    ensures Conserved(Step(c, t, Arrive(s)))
  {
    var a := Enqueue(c, t.queue, s);
    if a.Admitted? {
      InConserves(t, a.queue, s);
    }
  }

  lemma ArriveHeadConserves(c: Config, t: Trace, s: Req)
    requires Conserved(t)
    ensures Conserved(Step(c, t, ArriveHead(s)))
  {
    var a := EnqueueHead(t.queue, s);
    if a.Admitted? {
      InConserves(t, a.queue, s);
    }
  }

  lemma PopMovesOne(c: Config, q: Queue, warm: Option<string>, now: real)
    requires c.stagingMax > 0
    ensures var (after, got) := PopNext(c, q, warm, now);
            multiset(Contents(q)) == multiset(Contents(after)) + multiset(Opt(got))
  {
    PopTakesOne(c, q, warm, now);
    if Contents(q) != [] {
      RemoveAtMultiset(Contents(q), PopIndex(c, q, warm, now));
    }
  }

  lemma PopConserves(c: Config, t: Trace, warm: Option<string>, now: real)
    requires c.stagingMax > 0 && Conserved(t)
    ensures Conserved(Step(c, t, Pop(warm, now)))
  {
    PopMovesOne(c, t.queue, warm, now);
    var (after, got) := PopNext(c, t.queue, warm, now);
    OutConserves(t, after, got);
  }

  lemma PopThreadConserves(c: Config, t: Trace, thread: string, model: string)
    requires Conserved(t)
    ensures Conserved(Step(c, t, PopThread(thread, model)))
  {
    var m := FirstMatch(t.queue.staging, thread, model);
    if m.Some? {
      RemoveAtMultiset(t.queue.staging, m.value);
    }
    var (after, got) := PopMatchedThread(t.queue, thread, model);
    OutConserves(t, after, got);
  }

  lemma RemoveMovesOne(q: Queue, id: nat)
    ensures var (after, got) := Remove(q, id);
            multiset(Contents(q)) == multiset(Contents(after)) + multiset(Opt(got))
  {
    var m, n := FirstId(q.staging, id), FirstId(q.buffer, id);
    if m.Some? {
      RemoveAtMultiset(q.staging, m.value);
    } else if n.Some? {
      RemoveAtMultiset(q.buffer, n.value);
    }
  }

  lemma WithdrawConserves(c: Config, t: Trace, id: nat)
    requires Conserved(t)
    ensures Conserved(Step(c, t, Withdraw(id)))
  {
    RemoveMovesOne(t.queue, id);
    var (after, got) := Remove(t.queue, id);
    OutConserves(t, after, got);
  }

  lemma ShutConserves(c: Config, t: Trace)
    requires Conserved(t)
    ensures Conserved(Step(c, t, Shut))
  {
  }

  lemma StepConserves(c: Config, t: Trace, e: Event)
    requires c.stagingMax > 0 && Conserved(t)
    ensures Conserved(Step(c, t, e))
  {
    match e
    case Arrive(s) => ArriveConserves(c, t, s);
    case ArriveHead(s) => ArriveHeadConserves(c, t, s);
    case Pop(warm, now) => PopConserves(c, t, warm, now);
    case PopThread(thread, model) => PopThreadConserves(c, t, thread, model);
    case Withdraw(id) => WithdrawConserves(c, t, id);
    case Shut => ShutConserves(c, t);
  }

  /** Over every run, with every operation allowed, each accepted request is exactly
      once in what was popped, what the close handed back, or what still waits. */
  lemma {:induction false} NothingLostOrDuplicated(c: Config, es: seq<Event>)
    requires c.stagingMax > 0
    ensures Conserved(Replay(c, es))
  {
    if es != [] {
      NothingLostOrDuplicated(c, es[..|es| - 1]);
      StepConserves(c, Replay(c, es[..|es| - 1]), es[|es| - 1]);
    }
  }

  // ----- order -------------------------------------------------------------------------

  /** The entries for one model, in order. */
  function OfModel(s: seq<Req>, m: string): seq<Req> {
    if s == [] then [] else (if s[0].model == m then [s[0]] else []) + OfModel(s[1..], m)
  }

  lemma {:induction false} OfModelConcat(a: seq<Req>, b: seq<Req>, m: string)
    ensures OfModel(a + b, m) == OfModel(a, m) + OfModel(b, m)
  {
    if a == [] {
      assert a + b == b;
    } else {
      OfModelConcat(a[1..], b, m);
      assert (a + b)[0] == a[0] && (a + b)[1..] == a[1..] + b;
      var first := if a[0].model == m then [a[0]] else [];
      assert first + (OfModel(a[1..], m) + OfModel(b, m)) == first + OfModel(a[1..], m) + OfModel(b, m);
    }
  }

  lemma {:induction false} OfModelEmpty(s: seq<Req>, m: string)
    requires forall j :: 0 <= j < |s| ==> s[j].model != m
    ensures OfModel(s, m) == []
  {
    if s != [] {
      OfModelEmpty(s[1..], m);
    }
  }

  lemma FirstOfModelLeaves(s: seq<Req>, i: nat, m: string)
    requires i < |s| && forall j :: 0 <= j < i ==> s[j].model != s[i].model
    ensures OfModel(s, m) == OfModel([s[i]], m) + OfModel(RemoveAt(s, i), m)
  {
    var pre, post := s[..i], s[i + 1..];
    assert s == pre + ([s[i]] + post);
    OfModelConcat(pre, [s[i]] + post, m);
    OfModelConcat([s[i]], post, m);
    OfModelConcat(pre, post, m);
    if s[i].model == m {
      OfModelEmpty(pre, m);
    }
  }

  /** Runs of plain arrivals, pops with any hints, and close. */
  predicate Plain(es: seq<Event>) {
    forall e <- es :: e.Arrive? || e.Pop? || e.Shut?
  }

  ghost predicate OrderedFor(c: Config, t: Trace, m: string) {
    && OfModel(t.accepted, m) == OfModel(t.popped, m) + OfModel(t.cleared, m) + OfModel(Contents(t.queue), m)
    && Packed(c, t.queue)
    && (t.queue.closed ==> Contents(t.queue) == [])
    && (!t.queue.closed ==> t.cleared == [])
  }

  lemma ArriveKeepsOrder(c: Config, t: Trace, s: Req, m: string)
    requires OrderedFor(c, t, m)
    ensures OrderedFor(c, Step(c, t, Arrive(s)), m)
  {
    var q := t.queue;
    var a := Enqueue(c, q, s);
    if a.Admitted? {
      EnqueueKeepsPacked(c, q, s);
      assert Contents(a.queue) == Contents(q) + [s];
      OfModelConcat(Contents(q), [s], m);
      OfModelConcat(t.accepted, [s], m);
    }
  }

  lemma PopKeepsOrder(c: Config, t: Trace, warm: Option<string>, now: real, m: string)
    requires c.stagingMax > 0 && OrderedFor(c, t, m)
    ensures OrderedFor(c, Step(c, t, Pop(warm, now)), m)
  {
    var q := t.queue;
    PopTakesOne(c, q, warm, now);
    PopKeepsPacked(c, q, warm, now);
    var (after, got) := PopNext(c, q, warm, now);
    if got.Some? {
      assert !q.closed;
      var i := PopIndex(c, q, warm, now);
      FirstOfModelLeaves(Contents(q), i, m);
      PoppedOfModel(t.popped, Contents(q), i, m);
    } else {
      assert t.popped + [] == t.popped;
    }
  }

  /** The model's arrivals stay in order as one entry moves from waiting to popped. */
  lemma PoppedOfModel(popped: seq<Req>, waiting: seq<Req>, i: nat, m: string)
    requires i < |waiting| && OfModel(waiting, m) == OfModel([waiting[i]], m) + OfModel(RemoveAt(waiting, i), m)
    ensures OfModel(popped, m) + [] + OfModel(waiting, m)
            == OfModel(popped + [waiting[i]], m) + [] + OfModel(RemoveAt(waiting, i), m)
  {
    OfModelConcat(popped, [waiting[i]], m);
  }

  lemma ShutKeepsOrder(c: Config, t: Trace, m: string)
    requires OrderedFor(c, t, m)
    ensures OrderedFor(c, Step(c, t, Shut), m)
  {
    OfModelConcat(t.cleared, Contents(t.queue), m);
  }

  lemma PlainStepKeepsOrder(c: Config, t: Trace, e: Event, m: string)
    requires c.stagingMax > 0 && OrderedFor(c, t, m)
    requires e.Arrive? || e.Pop? || e.Shut?
    ensures OrderedFor(c, Step(c, t, e), m)
  {
    if e.Arrive? {
      ArriveKeepsOrder(c, t, e.slot, m);
    } else if e.Pop? {
      PopKeepsOrder(c, t, e.warm, e.now, m);
    } else {
      ShutKeepsOrder(c, t, m);
    }
  }

  /** Pops of each model come out in exactly that model's arrival order: at any moment
      the arrivals of a model are its pops, then what a close handed back, then what
      still waits, each in order. */
  lemma {:induction false} PerModelFifo(c: Config, es: seq<Event>, m: string)
    requires c.stagingMax > 0 && Plain(es)
    ensures var t := Replay(c, es);
            OfModel(t.accepted, m) == OfModel(t.popped, m) + OfModel(t.cleared, m) + OfModel(Contents(t.queue), m)
    ensures OrderedFor(c, Replay(c, es), m)
  {
    if es != [] {
      PerModelFifo(c, es[..|es| - 1], m);
      PlainStepKeepsOrder(c, Replay(c, es[..|es| - 1]), es[|es| - 1], m);
    }
  }

  ghost predicate WhollyOrdered(c: Config, t: Trace) {
    && t.accepted == t.popped + t.cleared + Contents(t.queue)
    && Packed(c, t.queue)
    && (t.queue.closed ==> Contents(t.queue) == [])
    && (!t.queue.closed ==> t.cleared == [])
  }

  lemma ArriveKeepsWholeOrder(c: Config, t: Trace, s: Req)
    requires WhollyOrdered(c, t)
    ensures WhollyOrdered(c, Step(c, t, Arrive(s)))
  {
    var a := Enqueue(c, t.queue, s);
    if a.Admitted? {
      EnqueueKeepsPacked(c, t.queue, s);
      assert Contents(a.queue) == Contents(t.queue) + [s];
    }
  }

  lemma FrontMoves(all: seq<Req>, popped: seq<Req>, waiting: seq<Req>)
    requires all == popped + [] + waiting && waiting != []
    ensures all == (popped + [waiting[0]]) + [] + RemoveAt(waiting, 0)
  {
  }

  lemma HeadPopKeepsWholeOrder(c: Config, t: Trace, now: real)
    requires c.stagingMax > 0 && WhollyOrdered(c, t)
    ensures WhollyOrdered(c, Step(c, t, Pop(None, now)))
  {
    PopTakesOne(c, t.queue, None, now);
    PopKeepsPacked(c, t.queue, None, now);
    if Contents(t.queue) == [] {
      assert t.popped + [] == t.popped;
    } else {
      FrontMoves(t.accepted, t.popped, Contents(t.queue));
    }
  }

  /** With no affinity hint the two tiers together are one FIFO. */
  lemma {:induction false} NoHintIsFifo(c: Config, es: seq<Event>)
    requires c.stagingMax > 0 && Plain(es)
    requires forall e <- es :: e.Pop? ==> e.warm == None
    ensures var t := Replay(c, es); t.accepted == t.popped + t.cleared + Contents(t.queue)
    ensures WhollyOrdered(c, Replay(c, es))
  {
    if es != [] {
      NoHintIsFifo(c, es[..|es| - 1]);
      var t, e := Replay(c, es[..|es| - 1]), es[|es| - 1];
      match e {
        case Arrive(s) => ArriveKeepsWholeOrder(c, t, s);
        case Pop(_, now) => HeadPopKeepsWholeOrder(c, t, now);
        case _ => ShutKeepsWholeOrder(c, t);
      }
    }
  }

  lemma ShutKeepsWholeOrder(c: Config, t: Trace)
    requires WhollyOrdered(c, t)
    ensures WhollyOrdered(c, Step(c, t, Shut))
  {
  }
}
