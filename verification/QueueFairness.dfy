/** How long a waiting request can be passed over. */
module QueueFairness {
  import opened Common
  import opened QueueSpec

  /** Everything the manager interleaves behind a waiting request: tail arrivals, pops (each
      under a hint of its own), matched pops, removals and the close. */
  datatype Tick =
    | Arrive(slot: Req)
    | Take(warm: Option<string>, now: real)
    | Match(thread: string, model: string)
    | Withdraw(id: nat)
    | Shut

  /** `popped` went to the dispatcher, `withdrawn` left by another door. */
  datatype Outcome = Outcome(queue: Queue, popped: seq<Req>, withdrawn: seq<Req>)

  function Ticked(c: Config, q: Queue, t: Tick): Outcome {
    match t
    case Arrive(s) =>
      var a := Enqueue(c, q, s);
      Outcome(if a.Admitted? then a.queue else q, [], [])
    case Take(warm, now) =>
      var (after, got) := PopNext(c, q, warm, now);
      Outcome(after, Opt(got), [])
    case Match(thread, model) =>
      var (after, got) := PopMatchedThread(q, thread, model);
      Outcome(after, [], Opt(got))
    case Withdraw(id) =>
      var (after, got) := Remove(q, id);
      Outcome(after, [], Opt(got))
    case Shut =>
      var (after, rest) := Close(q);
      Outcome(after, [], rest)
  }

  /** The queue after the ticks, with what was popped and what was withdrawn, in order. */
  function Serve(c: Config, q: Queue, ts: seq<Tick>): Outcome
    decreases |ts|
  {
    if ts == [] then Outcome(q, [], [])
    else Then(Ticked(c, q, ts[0]), Serve(c, Ticked(c, q, ts[0]).queue, ts[1..]))
  }

  function Then(one: Outcome, rest: Outcome): Outcome {
    Outcome(rest.queue, one.popped + rest.popped, one.withdrawn + rest.withdrawn)
  }

  /** Arrivals and pops only. */
  predicate Plain(ts: seq<Tick>) {
    forall t <- ts :: t.Arrive? || t.Take?
  }

  function PopCount(ts: seq<Tick>): nat {
    if ts == [] then 0 else (if ts[0].Take? then 1 else 0) + PopCount(ts[1..])
  }

  // ----- a fixed hint ----------------------------------------------------------------

  /** How many more pops the affinity path may serve `w` before the head is forced. */
  function Credit(c: Config, q: Queue, w: string): nat {
    if q.run >= c.maxRun then 0
    else if q.last == Some(w) then c.maxRun - q.run
    else c.maxRun
  }

  /** The ranking function: pops after which the entry at waiting position `k` is gone. */
  function Rank(c: Config, q: Queue, w: string, k: nat): nat {
    k * (c.maxRun + 1) + Credit(c, q, w) + 1
  }

  lemma Multiply(a: nat, b: nat, m: nat)
    requires a < b
    ensures a * m + m <= b * m
  {
    assert (a + 1) * m <= b * m;
  }

  lemma RankDrops(c: Config, q: Queue, w: string, k: nat, after: Queue, k': nat)
    requires k' < k || (k' == k && Credit(c, after, w) < Credit(c, q, w))
    ensures Rank(c, after, w, k') < Rank(c, q, w, k)
  {
    if k' < k {
      Multiply(k', k, c.maxRun + 1);
    }
  }

  /** Position `k` is one that later arrivals cannot push back: in staging, or, when
      nothing is taken out of the middle, anywhere while the tiers are packed. */
  predicate Seated(c: Config, q: Queue, plain: bool, k: nat) {
    k < |q.staging| || (plain && Packed(c, q) && k < |Contents(q)|)
  }

  lemma PopKeepsSeat(c: Config, q: Queue, warm: Option<string>, now: real, plain: bool, k: nat)
    requires c.stagingMax > 0 && Seated(c, q, plain, k)
    ensures var i, (after, got) := PopIndex(c, q, warm, now), PopNext(c, q, warm, now);
            && Takes(q, after, got, i)
            && (i < k ==> Seated(c, after, plain, k - 1) && Contents(after)[k - 1] == Contents(q)[k])
            && (i > k ==>
                  Seated(c, after, plain, k) && Contents(after)[k] == Contents(q)[k] && warm == Some(got.value.model))
  {
    PopTakesOne(c, q, warm, now);
    if Packed(c, q) {
      PopKeepsPacked(c, q, warm, now);
    }
  }

  lemma ArrivalKeepsSeat(c: Config, q: Queue, s: Req, plain: bool, k: nat)
    requires Seated(c, q, plain, k)
    ensures var after := Ticked(c, q, Arrive(s)).queue;
            && Seated(c, after, plain, k) && Contents(after)[..k + 1] == Contents(q)[..k + 1]
            && after.run == q.run && after.last == q.last
  {
    if Packed(c, q) {
      EnqueueKeepsPacked(c, q, s);
    }
  }

  /** The entry at staging index `k` is brought forward to `k'` or stays. */
  predicate BroughtForward(q: Queue, after: Queue, k: nat, k': nat) {
    && k' <= k < |q.staging| && k' < |after.staging| && after.staging[k'] == q.staging[k]
    && after.run == q.run && after.last == q.last
    && forall x <- after.staging[..k'] :: x in q.staging[..k]
  }

  lemma RemovalBringsForward(s: seq<Req>, i: nat, k: nat)
    requires i < |s| && k < |s| && i != k
    ensures var k' := if i < k then k - 1 else k;
            && k' < |RemoveAt(s, i)| && RemoveAt(s, i)[k'] == s[k]
            && forall x <- RemoveAt(s, i)[..k'] :: x in s[..k]
  {
    var r, k' := RemoveAt(s, i), if i < k then k - 1 else k;
    forall x | x in r[..k']
      ensures x in s[..k]
    {
      var j :| 0 <= j < k' && r[j] == x;
      assert s[..k][if j < i then j else j + 1] == x;
    }
  }

  /** A matched pop, a removal or the close takes the entry or brings it forward. */
  lemma WithdrawalStep(c: Config, q: Queue, t: Tick, k: nat) returns (k': nat)
    requires k < |q.staging| && (t.Match? || t.Withdraw? || t.Shut?)
    ensures var one := Ticked(c, q, t);
            one.popped == [] && (q.staging[k] in one.withdrawn || BroughtForward(q, one.queue, k, k'))
  {
    k' := k;
    if t.Shut? {
      assert Contents(q)[k] == q.staging[k];
    } else {
      var i := if t.Withdraw? then FirstId(q.staging, t.id)
      else if t.thread == "" then None
      else FirstMatch(q.staging, t.thread, t.model);
      if i.Some? && i.value != k {
        RemovalBringsForward(q.staging, i.value, k);
        k' := if i.value < k then k - 1 else k;
      }
    }
  }

  /** One pop under the fixed hint either takes the entry or brings its rank down. */
  lemma FixedHintPop(c: Config, q: Queue, w: string, now: real, plain: bool, k: nat) returns (k': nat)
    requires c.maxRun > 0 && c.stagingMax > 0 && Seated(c, q, plain, k)
    ensures var (after, got) := PopNext(c, q, Some(w), now);
            && got.Some?
            && (got.value == Contents(q)[k]
                || (Seated(c, after, plain, k') && Contents(after)[k'] == Contents(q)[k]
                    && Rank(c, after, w, k') < Rank(c, q, w, k)))
  {
    PopKeepsSeat(c, q, Some(w), now, plain, k);
    var after := PopNext(c, q, Some(w), now).0;
    var i := PopIndex(c, q, Some(w), now);
    k' := if i < k then k - 1 else k;
    if i != k {
      RankDrops(c, q, w, k, after, k');
    }
  }

  lemma RankKept(c: Config, q: Queue, w: string, k: nat, after: Queue, k': nat)
    requires k' <= k && after.run == q.run && after.last == q.last
    ensures Rank(c, after, w, k') <= Rank(c, q, w, k)
  {
    if k' < k {
      RankDrops(c, q, w, k, after, k');
    }
  }

  predicate Left(o: Outcome, s: Req) {
    s in o.popped || s in o.withdrawn
  }

  lemma {:induction false} FixedHintRank(c: Config, q: Queue, w: string, ts: seq<Tick>, plain: bool, k: nat)
    requires c.maxRun > 0 && c.stagingMax > 0 && (plain ==> Plain(ts))
    requires forall t <- ts :: t.Take? ==> t.warm == Some(w)
    requires Seated(c, q, plain, k) && PopCount(ts) >= Rank(c, q, w, k)
    ensures Left(Serve(c, q, ts), Contents(q)[k])
    decreases |ts|
  {
    var t := ts[0];
    var one := Ticked(c, q, t);
    if t.Take? {
      assert t.warm == Some(w);
      var k' := FixedHintPop(c, q, w, t.now, plain, k);
      if one.popped[0] != Contents(q)[k] {
        FixedHintRank(c, one.queue, w, ts[1..], plain, k');
      }
    } else if t.Arrive? {
      ArrivalKeepsSeat(c, q, t.slot, plain, k);
      assert Contents(one.queue)[k] == Contents(one.queue)[..k + 1][k] == Contents(q)[k];
      FixedHintRank(c, one.queue, w, ts[1..], plain, k);
    } else {
      var k' := WithdrawalStep(c, q, t, k);
      if q.staging[k] !in one.withdrawn {
        RankKept(c, q, w, k, one.queue, k');
        FixedHintRank(c, one.queue, w, ts[1..], plain, k');
      }
    }
  }

  /** Under one fixed hint, whatever arrives behind it and whatever else is withdrawn, the
      request at waiting position `k` is returned or withdrawn within
      (k + 1) * (maxRun + 1) pops. */
  lemma FixedHintBound(c: Config, q: Queue, w: string, ts: seq<Tick>, k: nat)
    requires c.maxRun > 0 && c.stagingMax > 0 && Seated(c, q, Plain(ts), k)
    requires forall t <- ts :: t.Take? ==> t.warm == Some(w)
    requires PopCount(ts) >= (k + 1) * (c.maxRun + 1)
    ensures Left(Serve(c, q, ts), Contents(q)[k])
  {
    Multiply(k, k + 1, c.maxRun + 1);
    FixedHintRank(c, q, w, ts, Plain(ts), k);
  }

  // ----- the bound is reached -----------------------------------------------------------

  lemma ServeStep(c: Config, q: Queue, t: Tick, ts: seq<Tick>)
    ensures Serve(c, q, [t] + ts) == Then(Ticked(c, q, t), Serve(c, Ticked(c, q, t).queue, ts))
  {
    assert ([t] + ts)[1..] == ts;
  }

  /** `n` times a warm request arrives and is popped, then the head is; and so on for every
      head, `m` times. */
  function Schedule(warm: Req, now: real, m: nat, n: nat, heads: nat): seq<Tick>
    decreases heads, n
  {
    if heads == 0 then []
    else if n > 0 then
      [Arrive(warm)] + ([Take(Some(warm.model), now)] + Schedule(warm, now, m, n - 1, heads))
    else [Take(Some(warm.model), now)] + Schedule(warm, now, m, m, heads - 1)
  }

  /** What that pops: every head behind `m` warm requests, the first behind `n`. */
  function Passed(heads: seq<Req>, warm: Req, m: nat, n: nat): seq<Req>
    decreases |heads|, n
  {
    if heads == [] then []
    else if n > 0 then [warm] + Passed(heads, warm, m, n - 1)
    else [heads[0]] + Passed(heads[1..], warm, m, m)
  }

  /** Only heads for other models wait, none of them forced by age, with a place behind them. */
  predicate Passable(c: Config, heads: seq<Req>, warm: Req, now: real) {
    |heads| < c.stagingMax && forall h <- heads :: h.model != warm.model && now - h.created <= c.maxWait
  }

  /** ... and `n` pops of the warm run are left. */
  predicate Ready(c: Config, q: Queue, heads: seq<Req>, warm: Req, n: nat) {
    && q.staging == heads && q.buffer == [] && !q.closed
    && Credit(c, q, warm.model) == n && (n == 0 ==> q.last == Some(warm.model))
  }

  lemma WarmIsFirst(heads: seq<Req>, warm: Req, bound: nat)
    requires |heads| < bound && forall h <- heads :: h.model != warm.model
    ensures FirstOf(heads + [warm], warm.model, bound) == Some(|heads|)
    decreases |heads|
  {
    if heads != [] {
      assert (heads + [warm])[0] == heads[0] && (heads + [warm])[1..] == heads[1..] + [warm];
      assert heads[0] in heads;
      WarmIsFirst(heads[1..], warm, bound - 1);
    }
  }

  lemma WarmPopped(c: Config, q: Queue, heads: seq<Req>, warm: Req, now: real, n: nat)
    requires heads != [] && Passable(c, heads, warm, now) && Ready(c, q, heads, warm, n) && n > 0
    ensures var (after, got) := PopNext(c, q.(staging := heads + [warm]), Some(warm.model), now);
            got == Some(warm) && Ready(c, after, heads, warm, n - 1)
  {
    var full := q.(staging := heads + [warm]);
    assert full.staging[0] == heads[0] && heads[0] in heads;
    WarmIsFirst(heads, warm, c.stagingMax);
    assert RemoveAt(full.staging, |heads|) == heads;
  }

  /** A warm request arrives and is popped; whatever follows is served from `after`. */
  lemma WarmTurn(c: Config, q: Queue, heads: seq<Req>, warm: Req, now: real, n: nat) returns (after: Queue)
    requires heads != [] && Passable(c, heads, warm, now) && Ready(c, q, heads, warm, n) && n > 0
    ensures Ready(c, after, heads, warm, n - 1)
    ensures forall ts: seq<Tick> {:trigger Serve(c, after, ts)} ::
              Serve(c, q, [Arrive(warm)] + ([Take(Some(warm.model), now)] + ts)).popped
              == [warm] + Serve(c, after, ts).popped
  {
    WarmPopped(c, q, heads, warm, now, n);
    var arrive, take := Arrive(warm), Take(Some(warm.model), now);
    var full := q.(staging := heads + [warm]);
    after := PopNext(c, full, Some(warm.model), now).0;
    assert Ticked(c, q, arrive) == Outcome(full, [], []);
    assert Ticked(c, full, take) == Outcome(after, [warm], []);
    forall ts: seq<Tick>
      ensures Serve(c, q, [arrive] + ([take] + ts)).popped == [warm] + Serve(c, after, ts).popped
    {
      TwoTicks(c, q, arrive, full, take, after, warm, ts);
    }
  }

  lemma TwoTicks(c: Config, q: Queue, t1: Tick, q1: Queue, t2: Tick, q2: Queue, s: Req, ts: seq<Tick>)
    requires Ticked(c, q, t1) == Outcome(q1, [], []) && Ticked(c, q1, t2) == Outcome(q2, [s], [])
    ensures Serve(c, q, [t1] + ([t2] + ts)).popped == [s] + Serve(c, q2, ts).popped
  {
    ServeStep(c, q, t1, [t2] + ts);
    ServeStep(c, q1, t2, ts);
  }

  /** The head is popped; whatever follows is served from `after`. */
  lemma HeadTurn(c: Config, q: Queue, heads: seq<Req>, warm: Req, now: real) returns (after: Queue)
    requires heads != [] && Passable(c, heads, warm, now) && Ready(c, q, heads, warm, 0)
    requires |heads| == 1 || c.maxRun >= 2
    ensures Passable(c, heads[1..], warm, now)
    ensures |heads| > 1 ==> Ready(c, after, heads[1..], warm, c.maxRun)
    ensures forall ts: seq<Tick> {:trigger Serve(c, after, ts)} ::
              Serve(c, q, [Take(Some(warm.model), now)] + ts).popped == [heads[0]] + Serve(c, after, ts).popped
  {
    after := PopNext(c, q, Some(warm.model), now).0;
    assert heads[0] in heads && forall h <- heads[1..] :: h in heads;
    forall ts: seq<Tick>
      ensures Serve(c, q, [Take(Some(warm.model), now)] + ts).popped == [heads[0]] + Serve(c, after, ts).popped
    {
      ServeStep(c, q, Take(Some(warm.model), now), ts);
    }
  }

  lemma {:induction false} WarmPasses(c: Config, q: Queue, heads: seq<Req>, warm: Req, now: real, n: nat)
    requires heads != [] && Passable(c, heads, warm, now) && (|heads| == 1 || c.maxRun >= 2)
    requires Ready(c, q, heads, warm, n) && n > 0
    ensures Serve(c, q, Schedule(warm, now, c.maxRun, n, |heads|)).popped == Passed(heads, warm, c.maxRun, n)
    decreases |heads|, n, 0
  {
    var after := WarmTurn(c, q, heads, warm, now, n);
    SchedulePasses(c, after, heads, warm, now, n - 1);
  }

  lemma {:induction false} HeadPasses(c: Config, q: Queue, heads: seq<Req>, warm: Req, now: real, n: nat)
    requires heads != [] && Passable(c, heads, warm, now) && (|heads| == 1 || c.maxRun >= 2)
    requires Ready(c, q, heads, warm, n) && n == 0
    ensures Serve(c, q, Schedule(warm, now, c.maxRun, n, |heads|)).popped == Passed(heads, warm, c.maxRun, n)
    decreases |heads|, n, 0
  {
    var after := HeadTurn(c, q, heads, warm, now);
    var others := heads[1..];
    SchedulePasses(c, after, others, warm, now, c.maxRun);
    assert Passed(heads, warm, c.maxRun, n) == [heads[0]] + Passed(others, warm, c.maxRun, c.maxRun);
  }

  lemma {:induction false} SchedulePasses(c: Config, q: Queue, heads: seq<Req>, warm: Req, now: real, n: nat)
    requires Passable(c, heads, warm, now) && (|heads| <= 1 || c.maxRun >= 2)
    requires heads != [] ==> Ready(c, q, heads, warm, n)
    ensures Serve(c, q, Schedule(warm, now, c.maxRun, n, |heads|)).popped == Passed(heads, warm, c.maxRun, n)
    decreases |heads|, n, 1
  {
    if heads != [] {
      if n > 0 {
        WarmPasses(c, q, heads, warm, now, n);
      } else {
        HeadPasses(c, q, heads, warm, now, n);
      }
    }
  }

  lemma {:induction false} PassedLength(heads: seq<Req>, warm: Req, m: nat, n: nat)
    requires heads != []
    ensures |Passed(heads, warm, m, n)| == (|heads| - 1) * (m + 1) + n + 1
    decreases |heads|, n
  {
    if n > 0 {
      PassedLength(heads, warm, m, n - 1);
    } else if |heads| > 1 {
      PassedLength(heads[1..], warm, m, m);
    } else {
      assert Passed(heads[1..], warm, m, m) == [];
    }
  }

  ghost predicate EndsWith(p: seq<Req>, last: Req) {
    p != [] && p[|p| - 1] == last && last !in p[..|p| - 1]
  }

  lemma EndsLonger(x: Req, p: seq<Req>, last: Req)
    requires EndsWith(p, last) && x != last
    ensures EndsWith([x] + p, last)
  {
    assert ([x] + p)[..|p|] == [x] + p[..|p| - 1];
  }

  lemma {:induction false} PassedEnds(heads: seq<Req>, warm: Req, m: nat, n: nat)
    requires heads != [] && Distinct(heads) && warm !in heads
    ensures EndsWith(Passed(heads, warm, m, n), heads[|heads| - 1])
    decreases |heads|, n
  {
    var last := heads[|heads| - 1];
    if n > 0 {
      PassedEnds(heads, warm, m, n - 1);
      EndsLonger(warm, Passed(heads, warm, m, n - 1), last);
    } else if |heads| > 1 {
      DistinctTail(heads);
      assert forall h <- heads[1..] :: h in heads;
      PassedEnds(heads[1..], warm, m, m);
      assert last in heads[1..];
      EndsLonger(heads[0], Passed(heads[1..], warm, m, m), last);
    } else {
      assert Passed(heads[1..], warm, m, m) == [];
      assert Passed(heads, warm, m, n) == [last];
    }
  }

  /** The bound is reached.  With any number of requests for other models waiting, a place
      left behind them, and a warm request arriving before every pop that the affinity path may
      still make, the last of them, at index k, is returned by pop number
      (k + 1) * (maxRun + 1) and not before.  A cap of one is the exception: there only the
      first pop can overtake (CapOneIsFifoAfterFirstPop), and the bound is reached for k == 0. */
  lemma FixedHintBoundReached(c: Config, heads: seq<Req>, warm: Req, now: real)
    requires heads != [] && Distinct(heads) && Passable(c, heads, warm, now)
    requires c.maxRun >= 2 || (c.maxRun == 1 && |heads| == 1)
    ensures var ts := Schedule(warm, now, c.maxRun, c.maxRun, |heads|);
            var popped := Serve(c, EmptyQueue.(staging := heads), ts).popped;
            |popped| == |heads| * (c.maxRun + 1) && EndsWith(popped, heads[|heads| - 1])
  {
    SchedulePasses(c, EmptyQueue.(staging := heads), heads, warm, now, c.maxRun);
    PassedInFull(heads, warm, c.maxRun);
  }

  lemma PassedInFull(heads: seq<Req>, warm: Req, m: nat)
    requires heads != [] && Distinct(heads) && warm !in heads
    ensures var p := Passed(heads, warm, m, m); |p| == |heads| * (m + 1) && EndsWith(p, heads[|heads| - 1])
  {
    PassedLength(heads, warm, m, m);
    Multiplied(|heads| - 1, m + 1);
    PassedEnds(heads, warm, m, m);
  }

  lemma Multiplied(a: nat, b: nat)
    ensures a * b + b == (a + 1) * b
  {
  }

  // ----- arbitrary hints, aged requests --------------------------------------------------

  /** Everything up to position `k` has waited longer than the age limit. */
  predicate Aged(c: Config, q: Queue, k: nat, now: real) {
    forall j :: 0 <= j <= k && j < |Contents(q)| ==> now - Contents(q)[j].created > c.maxWait
  }

  lemma AgedPopTakesFront(c: Config, q: Queue, warm: Option<string>, now: real)
    requires c.stagingMax > 0 && Contents(q) != []
    requires now - Contents(q)[0].created > c.maxWait
    ensures PopIndex(c, q, warm, now) == 0
    ensures PopNext(c, q, warm, now).1 == Some(Contents(q)[0])
    ensures Contents(PopNext(c, q, warm, now).0) == Contents(q)[1..]
  {
    PopTakesOne(c, q, warm, now);
    if warm.Some? && q.staging != [] {
      assert q.staging[0] == Contents(q)[0];
      assert q.staging[0].model == warm.value ==> FirstOf(q.staging, warm.value, c.stagingMax) == Some(0);
    }
  }

  lemma AgedBehindFront(c: Config, q: Queue, after: Queue, k: nat, since: real)
    requires Aged(c, q, k, since) && Contents(q) != [] && Contents(after) == Contents(q)[1..] && k > 0
    ensures Aged(c, after, k - 1, since)
  {
    assert forall j :: 0 <= j < |Contents(after)| ==> Contents(after)[j] == Contents(q)[j + 1];
  }

  lemma AgedHeadStep(c: Config, q: Queue, warm: Option<string>, now: real, plain: bool, k: nat, since: real)
    requires c.stagingMax > 0 && Seated(c, q, plain, k) && Aged(c, q, k, since) && now >= since
    ensures var one := Ticked(c, q, Take(warm, now));
            && one.popped == [Contents(q)[0]]
            && Contents(one.queue) == Contents(q)[1..]
            && (k > 0 ==> Seated(c, one.queue, plain, k - 1) && Aged(c, one.queue, k - 1, since))
  {
    AgedPopTakesFront(c, q, warm, now);
    PopKeepsSeat(c, q, warm, now, plain, k);
    if k > 0 {
      AgedBehindFront(c, q, PopNext(c, q, warm, now).0, k, since);
    }
  }

  /** Once the first `k + 1` waiting requests are past the age limit, the next `k + 1`
      pops return exactly those, in order, however the hint changes between pops and
      whatever arrives meanwhile. */
  lemma {:induction false} AgedServedInOrder(c: Config, q: Queue, ts: seq<Tick>, k: nat, since: real)
    requires c.stagingMax > 0 && Plain(ts)
    requires Seated(c, q, true, k) && Aged(c, q, k, since)
    requires forall t <- ts :: t.Take? ==> t.now >= since
    requires PopCount(ts) >= k + 1
    ensures Contents(q)[..k + 1] <= Serve(c, q, ts).popped
    decreases |ts|
  {
    var t := ts[0];
    var after := Ticked(c, q, t).queue;
    var rest := Serve(c, after, ts[1..]).popped;
    if t.Take? {
      AgedHeadStep(c, q, t.warm, t.now, true, k, since);
      if k > 0 {
        AgedServedInOrder(c, after, ts[1..], k - 1, since);
      }
      FrontFirst(Contents(q), rest, k);
    } else {
      ArrivalKeepsSeat(c, q, t.slot, true, k);
      AgedThroughArrival(c, q, t.slot, true, k, since);
      AgedServedInOrder(c, after, ts[1..], k, since);
      assert [] + rest == rest;
    }
  }

  lemma FrontFirst(waiting: seq<Req>, rest: seq<Req>, k: nat)
    requires k < |waiting| && (k > 0 ==> waiting[1..][..k] <= rest)
    ensures waiting[..k + 1] <= [waiting[0]] + rest
  {
    assert waiting[..k + 1] == [waiting[0]] + waiting[1..][..k];
  }

  lemma AgedThroughArrival(c: Config, q: Queue, s: Req, plain: bool, k: nat, since: real)
    requires Seated(c, q, plain, k) && Aged(c, q, k, since)
    ensures Aged(c, Ticked(c, q, Arrive(s)).queue, k, since)
  {
    ArrivalKeepsSeat(c, q, s, plain, k);
    var after := Ticked(c, q, Arrive(s)).queue;
    assert forall j :: 0 <= j <= k ==> Contents(after)[j] == Contents(after)[..k + 1][j];
    assert forall j :: 0 <= j <= k ==> Contents(q)[j] == Contents(q)[..k + 1][j];
  }

  lemma AgedBroughtForward(c: Config, q: Queue, after: Queue, k: nat, k': nat, since: real)
    requires Aged(c, q, k, since) && BroughtForward(q, after, k, k')
    ensures Aged(c, after, k', since)
  {
    forall j | 0 <= j <= k'
      ensures since - Contents(after)[j].created > c.maxWait
    {
      if j < k' {
        assert after.staging[..k'][j] in q.staging[..k];
        var i :| 0 <= i < k && q.staging[..k][i] == after.staging[j];
        assert Contents(q)[i] == after.staging[j];
      } else {
        assert Contents(q)[k] == after.staging[j];
      }
    }
  }

  /** `s` is popped after nothing but requests that were ahead of it. */
  ghost predicate InTurn(popped: seq<Req>, ahead: seq<Req>, s: Req) {
    exists n: nat :: n <= |ahead| && n < |popped| && popped[n] == s && forall x <- popped[..n] :: x in ahead
  }

  ghost predicate Served(o: Outcome, ahead: seq<Req>, s: Req) {
    s in o.withdrawn || InTurn(o.popped, ahead, s)
  }

  lemma PoppedNow(one: Outcome, rest: Outcome, s: Req)
    requires one.popped == [s]
    ensures Served(Then(one, rest), [], s)
  {
    assert Then(one, rest).popped[0] == s;
  }

  lemma PoppedLater(one: Outcome, rest: Outcome, ahead: seq<Req>, first: Req, s: Req)
    requires one.popped == [first] && Served(rest, ahead, s)
    ensures Served(Then(one, rest), [first] + ahead, s)
  {
    if s !in rest.withdrawn {
      var n: nat :| n <= |ahead| && n < |rest.popped| && rest.popped[n] == s
          && forall x <- rest.popped[..n] :: x in ahead;
      var popped := [first] + rest.popped;
      assert popped[n + 1] == s && popped[..n + 1] == [first] + rest.popped[..n];
      assert InTurn(popped, [first] + ahead, s);
    }
  }

  lemma NothingPopped(one: Outcome, rest: Outcome, ahead: seq<Req>, more: seq<Req>, s: Req)
    requires one.popped == [] && Served(rest, ahead, s)
    requires |ahead| <= |more| && forall x <- ahead :: x in more
    ensures Served(Then(one, rest), more, s)
  {
    assert Then(one, rest).popped == rest.popped;
  }

  /** With matched pops, removals and the close in between, an aged request is withdrawn or
      it is returned within `k + 1` pops, after nothing but requests that were ahead of it. */
  lemma {:induction false} AgedNeverOvertaken(c: Config, q: Queue, ts: seq<Tick>, k: nat, since: real)
    requires c.stagingMax > 0
    requires k < |q.staging| && Aged(c, q, k, since)
    requires forall t <- ts :: t.Take? ==> t.now >= since
    requires PopCount(ts) >= k + 1
    ensures Served(Serve(c, q, ts), q.staging[..k], q.staging[k])
    decreases |ts|
  {
    var t, s := ts[0], q.staging[k];
    var one := Ticked(c, q, t);
    var rest := Serve(c, one.queue, ts[1..]);
    if t.Take? {
      AgedTakeStep(c, q, t.warm, t.now, k, since);
      if k == 0 {
        PoppedNow(one, rest, s);
      } else {
        AgedNeverOvertaken(c, one.queue, ts[1..], k - 1, since);
        PoppedLater(one, rest, one.queue.staging[..k - 1], q.staging[0], s);
      }
    } else {
      var k' := AgedOtherStep(c, q, t, k, since);
      if s in one.withdrawn {
        assert s in Then(one, rest).withdrawn;
      } else {
        AgedNeverOvertaken(c, one.queue, ts[1..], k', since);
        NothingPopped(one, rest, one.queue.staging[..k'], q.staging[..k], s);
      }
    }
  }

  lemma AgedOtherStep(c: Config, q: Queue, t: Tick, k: nat, since: real) returns (k': nat)
    requires k < |q.staging| && Aged(c, q, k, since) && !t.Take?
    ensures var one := Ticked(c, q, t);
            && one.popped == []
            && (q.staging[k] in one.withdrawn
                || (k' <= k && k' < |one.queue.staging| && one.queue.staging[k'] == q.staging[k]
                    && (forall x <- one.queue.staging[..k'] :: x in q.staging[..k]) && Aged(c, one.queue, k', since)))
  {
    if t.Arrive? {
      k' := k;
      ArrivalKeepsSeat(c, q, t.slot, false, k);
      AgedThroughArrival(c, q, t.slot, false, k, since);
      assert Ticked(c, q, t).queue.staging[..k] == q.staging[..k];
    } else {
      k' := WithdrawalStep(c, q, t, k);
      if q.staging[k] !in Ticked(c, q, t).withdrawn {
        AgedBroughtForward(c, q, Ticked(c, q, t).queue, k, k', since);
      }
    }
  }

  lemma AgedTakeStep(c: Config, q: Queue, warm: Option<string>, now: real, k: nat, since: real)
    requires c.stagingMax > 0 && k < |q.staging| && Aged(c, q, k, since) && now >= since
    ensures var one := Ticked(c, q, Take(warm, now));
            && one.popped == [q.staging[0]]
            && (k > 0 ==> && k - 1 < |one.queue.staging| && one.queue.staging[k - 1] == q.staging[k]
                          && [q.staging[0]] + one.queue.staging[..k - 1] == q.staging[..k]
                          && Aged(c, one.queue, k - 1, since))
  {
    AgedHeadStep(c, q, warm, now, false, k, since);
    assert Contents(q)[0] == q.staging[0];
    if k > 0 {
      StagedBehindFront(q, Ticked(c, q, Take(warm, now)).queue, k);
    }
  }

  lemma StagedBehindFront(q: Queue, after: Queue, k: nat)
    requires 0 < k < |q.staging| && k - 1 < |after.staging| && Contents(after) == Contents(q)[1..]
    ensures after.staging[k - 1] == q.staging[k] && [q.staging[0]] + after.staging[..k - 1] == q.staging[..k]
  {
    assert after.staging[k - 1] == Contents(after)[k - 1] == Contents(q)[k];
    assert after.staging[..k - 1] == Contents(after)[..k - 1] == Contents(q)[1..k] == q.staging[1..k];
  }
}
