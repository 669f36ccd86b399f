/** The fan-out of the single-sidecar worker: several riders share one process, through
    concurrent completions or, when the anchor streams, through their own routes.  What the
    surroundings decide — which completions have finished at a wake-up, whether an await is
    cancelled — is read off an arbitrary script. */
module FanOuts {
  import opened Common
  import SingleSidecars

  /** How a rider's caller is answered. */
  datatype Ending = Answer(text: string) | SidecarError(detail: string) | Streamed | Evicted | Drifted | Aborted

  /** A queued request as the admission loop sees it: whether it has the anchor's model and
      mode, has been evicted, or has a state that will refuse the promotion. */
  datatype Candidate = Candidate(id: nat, fits: bool, gone: bool, drifts: bool)

  ghost predicate DistinctIds(w: seq<Candidate>) {
    forall i, j :: 0 <= i < j < |w| ==> w[i].id != w[j].id
  }

  function Ids(w: seq<Candidate>): set<nat> {
    set c <- w :: c.id
  }

  // ----- the admission as a value -----------------------------------------------------------

  datatype Admission = Admission(riders: seq<nat>, waiting: seq<Candidate>, script: seq<int>, cancelled: bool)

  predicate Promotable(w: Candidate) {
    !w.gone && !w.drifts
  }

  /** The answer of a candidate that is turned away. */
  function Refusal(w: Candidate): Ending
    requires !Promotable(w)
  {
    if w.gone then Evicted else Drifted
  }

  /** What the admission loop makes of the riders, the queue and the environment's answers. */
  function Admitted(width: nat, riders: seq<nat>, waiting: seq<Candidate>, script: seq<int>): Admission
    decreases |waiting|
  {
    if |riders| >= width || waiting == [] then Admission(riders, waiting, script, false)
    else if NextAnswer(script) == 1 || !waiting[0].fits then Admission(riders, waiting, Later(script), false)
    else
      var w, asked := waiting[0], Later(script);
      var riders' := if Promotable(w) then riders + [w.id] else riders;
      if NextAnswer(asked) == 1 then Admission(riders', waiting[1..], Later(asked), true)
      else Admitted(width, riders', waiting[1..], Later(asked))
  }

  /** The candidates that become riders, in order. */
  function Boarding(taken: seq<Candidate>): seq<nat> {
    if taken == [] then []
    else (if Promotable(taken[0]) then [taken[0].id] else []) + Boarding(taken[1..])
  }

  /** What the admission takes is a front part of the queue, all of it fitting, and those fit
      for promotion join the riders in queue order, never beyond the width.  When the
      environment neither cancels nor finds the queue empty, it goes on until the width is
      reached, nobody waits, or the front does not fit. */
  lemma {:induction false} AdmittedTakes(width: nat, riders: seq<nat>, waiting: seq<Candidate>, script: seq<int>)
    returns (k: nat)
    requires |riders| <= width
    ensures var a := Admitted(width, riders, waiting, script);
            && k <= |waiting| && a.waiting == waiting[k..] && (forall w <- waiting[..k] :: w.fits)
            && a.riders == riders + Boarding(waiting[..k]) && |a.riders| <= width
            && (1 !in script ==>
                  !a.cancelled && (|a.riders| == width || a.waiting == [] || !a.waiting[0].fits))
    decreases |waiting|
  {
    k := 0;
    if |riders| < width && waiting != [] && NextAnswer(script) != 1 && waiting[0].fits {
      var asked := Later(script);
      var joined := if Promotable(waiting[0]) then [waiting[0].id] else [];
      if NextAnswer(asked) != 1 {
        k := AdmittedTakes(width, riders + joined, waiting[1..], Later(asked));
      }
      TakenFront(waiting, k);
      Regroup(riders, joined, Boarding(waiting[1..][..k]));
      k := k + 1;
    }
  }

  lemma Regroup(a: seq<nat>, b: seq<nat>, c: seq<nat>)
    ensures a + b + c == a + (b + c)
    ensures a + [] == a
  {
  }

  /** One more candidate in front of `k` taken. */
  lemma TakenFront(waiting: seq<Candidate>, k: nat)
    requires k < |waiting|
    ensures waiting[k + 1..] == waiting[1..][k..]
    ensures Boarding(waiting[..k + 1])
            == (if Promotable(waiting[0]) then [waiting[0].id] else []) + Boarding(waiting[1..][..k])
    ensures (forall w <- waiting[..k + 1] :: w.fits) <==> waiting[0].fits && forall w <- waiting[1..][..k] :: w.fits
  {
    assert waiting[..k + 1] == [waiting[0]] + waiting[1..][..k];
  }

  /** The admission of a fan-out can be cancelled exactly when there is room for a rider and
      the request at the front of the queue fits. */
  lemma AdmissionInterruptibleExactly(width: nat, anchor: nat, waiting: seq<Candidate>)
    ensures (exists script :: Admitted(width, [anchor], waiting, script).cancelled)
            <==> width > 1 && waiting != [] && waiting[0].fits
  {
    if width > 1 && waiting != [] && waiting[0].fits {
      CancelledAtFirstRider(width, anchor, waiting);
    }
  }

  /** The shortest such run: the environment's second answer is the cancellation, and anchor
      and candidate are left as riders. */
  lemma CancelledAtFirstRider(width: nat, anchor: nat, waiting: seq<Candidate>)
    requires width > 1 && waiting != [] && waiting[0].fits
    ensures var a := Admitted(width, [anchor], waiting, [0, 1]);
            a.cancelled && a.riders == if Promotable(waiting[0]) then [anchor, waiting[0].id] else [anchor]
  {
    assert Later([0, 1]) == [1];
  }

  // ----- the fan-out --------------------------------------------------------------------------

  class FanOut {
    const width: nat                      // n_parallel
    const handle: nat                     // the shared process
    const anchor: nat
    const ends: nat -> Ending             // what each rider's own completion gives
    ghost const offered: seq<Candidate>   // everybody the queue ever hands out
    var inflight: seq<nat>                // _inflight
    var outcome: map<nat, Ending>         // resolved futures
    var pid: map<nat, Option<nat>>        // slot.pid of everybody ever promoted
    var waiting: seq<Candidate>           // what the queue will hand out, in that order
    var ended: set<nat>                   // riders whose stream_done_event is set
    var signalled: bool                   // the shared process was sent a sigterm
    var peak: nat                         // the largest rider set so far
    var script: seq<int>
    ghost var served: set<nat>            // everybody who ever was a rider

    constructor (width: nat, handle: nat, anchor: nat, ends: nat -> Ending, waiting: seq<Candidate>, script: seq<int>)
      requires width > 0 && DistinctIds(waiting) && anchor !in Ids(waiting)
      ensures Valid() && Sound() && inflight == [anchor] && outcome == map[] && this.waiting == waiting
              && served == {anchor} && offered == waiting
      ensures this.width == width && this.anchor == anchor && this.ends == ends && this.script == script && ended == {}
    {
      this.width, this.handle, this.anchor, this.ends := width, handle, anchor, ends;
      this.offered := waiting;
      inflight, outcome, pid := [anchor], map[], map[anchor := Some(handle)];
      this.waiting, this.script, signalled, peak, served := waiting, script, false, 1, {anchor};
      ended := {};
    }

    /** What holds at every suspension. */
    ghost predicate Valid()
      reads this
    {
      && Distinct(inflight) && DistinctIds(waiting)
      && |inflight| <= peak <= width
      && (forall s <- inflight :: s in pid && s in served)
      && (forall s <- inflight :: s !in Ids(waiting))
      && (forall s <- outcome.Keys :: s !in Ids(waiting))
      && !signalled
      && Told()
    }

    /** Of everybody offered, those fit for promotion alone become riders; whoever else has
        been answered was told why it was turned away. */
    ghost predicate Told()
      reads this
    {
      && DistinctIds(offered) && (forall w <- waiting :: w in offered)
      && (forall w <- offered :: w.id in served ==> Promotable(w))
      && (forall w <- offered :: w.id in outcome && w.id !in served ==> !Promotable(w) && outcome[w.id] == Refusal(w))
    }

    /** A rider is answered by its own completion or, if something was cancelled, by the abort. */
    ghost predicate RidersTold(cancelled: bool)
      reads this
    {
      forall s <- served :: s in outcome ==> outcome[s] == ends(s) || (cancelled && outcome[s] == Aborted)
    }

    /** How everybody offered was answered, if at all. */
    lemma Answers(cancelled: bool)
      requires Told() && RidersTold(cancelled)
      ensures forall w <- offered :: w.id in outcome ==>
                if w.gone then outcome[w.id] == Evicted
                else if w.drifts then outcome[w.id] == Drifted
                else outcome[w.id] == ends(w.id) || (cancelled && outcome[w.id] == Aborted)
    {
    }

    /** Whoever was ever a rider is one still or has been answered; a rider by its own
        completion, everybody else by being turned away. */
    ghost predicate Sound()
      reads this
    {
      && (forall s <- served :: s in inflight || s in outcome)
      && (forall s <- served :: s in outcome ==> outcome[s] == ends(s))
      && (forall s <- outcome.Keys :: s in served || outcome[s] == Evicted || outcome[s] == Drifted)
    }

    /** Whoever has left the queue is a rider or has been answered. */
    twostate predicate NobodyLost()
      reads this
    {
      && Ids(waiting) <= old(Ids(waiting))
      && (forall s <- old(Ids(waiting)) - Ids(waiting) :: s in inflight || s in outcome)
      && old(outcome.Keys) <= outcome.Keys && old(served) <= served
      && |script| <= |old(script)|
    }

    /** New riders come from the queue, and no rider is answered while riders are admitted. */
    twostate predicate NewRiders()
      reads this
    {
      && (forall s <- inflight :: s in old(inflight) || s in old(Ids(waiting)))
      && (forall s <- inflight :: s in outcome ==> s in old(outcome))
    }

    method Ask() returns (answer: int)
      modifies `script
      ensures answer == NextAnswer(old(script)) && script == Later(old(script))
    {
      if script == [] {
        answer := 0;
      } else {
        answer := script[0];
        script := script[1..];
      }
    }

    /** An await: it may be cancelled. */
    method Suspend() returns (cancelled: bool)
      requires Valid()
      modifies `script
      ensures Valid() && cancelled == (NextAnswer(old(script)) == 1) && script == Later(old(script))
    {
      var answer := Ask();
      cancelled := answer == 1;
    }

    method Resolve(s: nat, e: Ending)
      modifies `outcome
      ensures outcome == if s in old(outcome) then old(outcome) else old(outcome)[s := e]
    {
      if s !in outcome {
        outcome := outcome[s := e];
      }
    }

    /** `_force_cold` of a rider: its pid has been cleared before, so the shared process is
        not signalled. */
    method ForceCold(s: nat) returns (cancelled: bool)
      requires Valid() && s in pid && pid[s] == None
      modifies `script, `signalled
      ensures Valid() && cancelled == (NextAnswer(old(script)) == 1) && script == Later(old(script))
    {
      if SingleSidecars.ForceColdBranch(Some(handle), Some(anchor), |inflight|, s, pid[s]) == SingleSidecars.Own {
        signalled := true;
      }
      SingleSidecars.ClearedPidNeverSignals(Some(handle), Some(anchor), |inflight|, s);
      cancelled := Suspend();
    }

    /** One candidate off the queue, with everything that can come of it. */
    method AdmitOne() returns (cancelled: bool, stop: bool)
      requires Valid() && Sound() && waiting != [] && |inflight| < width
      modifies `inflight, `outcome, `pid, `waiting, `script, `signalled, `peak, `served
      ensures Valid() && Sound() && NobodyLost()
      ensures old(inflight) <= inflight && |inflight| + |waiting| <= |old(inflight)| + |old(waiting)|
      ensures stop ==> !cancelled && waiting == old(waiting) && inflight == old(inflight)
      ensures !stop ==> waiting == old(waiting)[1..]
      ensures NewRiders()
      ensures stop == !old(waiting)[0].fits
      ensures !stop ==>
        && cancelled == (NextAnswer(old(script)) == 1) && script == Later(old(script))
        && inflight == if Promotable(old(waiting)[0]) then old(inflight) + [old(waiting)[0].id] else old(inflight)
      ensures stop ==> script == old(script) && outcome == old(outcome)
      ensures !stop ==>
        var w := old(waiting)[0];
        outcome == if w.gone then old(outcome)[w.id := Evicted]
                   else if w.drifts then old(outcome)[w.id := Drifted] else old(outcome)
    {
      cancelled, stop := false, false;
      var w := waiting[0];
      if !w.fits {
        // popped and pushed back at the head
        stop := true;
        return;
      }
      assert w in offered && w.id !in served;
      TailIds(waiting);
      waiting := waiting[1..];
      if Promotable(w) {
        Board(w.id);
        cancelled := Suspend();
      } else {
        cancelled := Refuse(w);
      }
    }

    /** A candidate is turned away: its client has gone, or its state refuses the promotion. */
    method Refuse(w: Candidate) returns (cancelled: bool)
      requires Valid() && Sound() && w in offered && !Promotable(w)
      requires w.id !in outcome && w.id !in served && w.id !in Ids(waiting)
      modifies `outcome, `pid, `script, `signalled
      ensures Valid() && Sound() && outcome == old(outcome)[w.id := if w.gone then Evicted else Drifted]
      ensures cancelled == (NextAnswer(old(script)) == 1) && script == Later(old(script))
    {
      if w.gone {
        Resolve(w.id, Evicted);
        cancelled := Suspend();
      } else {
        pid := pid[w.id := None];
        Resolve(w.id, Drifted);
        cancelled := ForceCold(w.id);
      }
    }

    /** A promoted candidate joins the rider set. */
    method Board(s: nat)
      requires Valid() && Sound() && |inflight| < width && s !in Ids(waiting) && s !in inflight && s !in outcome
      requires forall w <- offered :: w.id == s ==> Promotable(w)
      modifies `inflight, `pid, `peak, `served
      ensures Valid() && Sound() && inflight == old(inflight) + [s] && served == old(served) + {s}
    {
      pid := pid[s := Some(handle)];
      inflight := inflight + [s];
      served := served + {s};
      peak := if |inflight| > peak then |inflight| else peak;
    }

    /** `_admit_nonstreaming_riders`, and the same loop of the one-shot admission: fill up to
        the width from the queue. */
    method Admit() returns (cancelled: bool)
      requires Valid() && Sound()
      modifies `inflight, `outcome, `pid, `waiting, `script, `signalled, `peak, `served
      ensures Valid() && Sound() && NobodyLost()
      ensures old(inflight) <= inflight && |inflight| + |waiting| <= |old(inflight)| + |old(waiting)|
      ensures NewRiders()
      ensures Admission(inflight, waiting, script, cancelled)
              == Admitted(width, old(inflight), old(waiting), old(script))
    {
      ghost var all := Admitted(width, inflight, waiting, script);
      var stop := false;
      cancelled := false;
      while |inflight| < width && waiting != [] && !stop && !cancelled
        invariant Valid() && Sound() && NobodyLost()
        invariant old(inflight) <= inflight && |inflight| + |waiting| <= |old(inflight)| + |old(waiting)|
        invariant NewRiders()
        invariant all == if stop || cancelled then Admission(inflight, waiting, script, cancelled)
                         else Admitted(width, inflight, waiting, script)
        decreases |waiting|, !stop
      {
        var empty := Ask();
        if empty == 1 {
          // nothing queued for this model right now
          return;
        }
        cancelled, stop := AdmitOne();
      }
    }

    /** The completions found finished at a wake-up; every completion ends sooner or later. */
    method Wake() returns (finished: set<nat>)
      requires Valid()
      modifies `script
      ensures Valid() && finished <= Elements(inflight)
      ensures |script| < |old(script)| || (script == old(script) == [] && finished == Elements(inflight))
    {
      if script == [] {
        return Elements(inflight);
      }
      var last := Ask();
      finished := {};
      var i := 0;
      while i < |inflight|
        invariant i <= |inflight| && finished <= Elements(inflight) && |script| < |old(script)|
      {
        var answer := Ask();
        if answer == 1 || last == 1 {
          finished := finished + {inflight[i]};
        }
        i := i + 1;
      }
    }

    /** One rider leaves: its future gets its own completion's ending, its pid is cleared and
        it is parked; the anchor goes on to the grace window instead. */
    method Land(s: nat) returns (cancelled: bool)
      requires Valid() && Sound() && s in inflight
      modifies `outcome, `pid, `script, `signalled, `inflight
      ensures Valid() && Sound() && s in outcome
      ensures outcome == if s in old(outcome) then old(outcome) else old(outcome)[s := ends(s)]
      ensures |script| <= |old(script)|
      ensures cancelled ==> inflight == old(inflight)
      ensures !cancelled ==>
              |inflight| == |old(inflight)| - 1 && forall x :: x in inflight <==> x in old(inflight) && x != s
    {
      cancelled := false;
      Resolve(s, ends(s));
      if s != anchor {
        pid := pid[s := None];
        cancelled := ForceCold(s);
        if cancelled {
          return;
        }
      }
      Leave(s);
    }

    /** An answered rider leaves the rider set. */
    method Leave(s: nat)
      requires Valid() && s in inflight && s in outcome
      modifies `inflight
      ensures Valid() && |inflight| == |old(inflight)| - 1
      ensures forall x :: x in inflight <==> x in old(inflight) && x != s
    {
      var i :| 0 <= i < |inflight| && inflight[i] == s;
      RemoveAtMembers(inflight, i);
      inflight := RemoveAt(inflight, i);
    }

    /** The riders found finished land, in the order of the rider list. */
    method Sweep(finished: set<nat>) returns (cancelled: bool)
      requires Valid() && Sound() && finished <= Elements(inflight)
      modifies `outcome, `pid, `script, `signalled, `inflight
      ensures Valid() && Sound() && |script| <= |old(script)|
      ensures old(outcome.Keys) <= outcome.Keys
      ensures !cancelled ==> forall x :: x in inflight <==> x in old(inflight) && x !in finished
      ensures forall x <- old(inflight) :: x in inflight || x in finished
      ensures |inflight| <= |old(inflight)| && (!cancelled && finished != {} ==> |inflight| < |old(inflight)|)
      ensures forall x <- inflight :: x in outcome ==> x in old(outcome) || x in finished
    {
      cancelled := false;
      var riders, i := inflight, 0;
      while i < |riders|
        invariant i <= |riders| && Valid() && Sound() && |script| <= |old(script)|
        invariant old(outcome.Keys) <= outcome.Keys
        invariant forall x :: x in inflight <==> x in riders && !(x in finished && x in riders[..i])
        invariant |inflight| <= |riders| && ((exists x <- finished :: x in riders[..i]) ==> |inflight| < |riders|)
        invariant forall x <- inflight :: x in outcome ==> x in old(outcome) || x in finished
      {
        assert riders[..i + 1] == riders[..i] + [riders[i]];
        if riders[i] in finished {
          assert riders[i] !in riders[..i];
          cancelled := Land(riders[i]);
          if cancelled {
            return;
          }
        }
        i := i + 1;
      }
      assert riders[..i] == riders;
    }

    /** The drain loop: wake, land what has finished, refill. */
    method DrainLoop() returns (cancelled: bool)
      requires Valid() && Sound() && inflight != []
      modifies `inflight, `outcome, `pid, `waiting, `script, `signalled, `peak, `served
      ensures Valid() && Sound() && NobodyLost()
      ensures !cancelled ==> inflight == []
    {
      cancelled := Admit();
      while inflight != [] && !cancelled
        invariant Valid() && Sound() && NobodyLost()
        decreases |script|, |inflight| + |waiting|, !cancelled
      {
        var finished := Wake();
        assert inflight[0] in Elements(inflight);
        cancelled := Sweep(finished);
        if !cancelled {
          cancelled := Admit();
        }
      }
    }

    /** The `finally`: whoever is left unanswered is failed, and the rider set is cleared. */
    method AbortRest()
      requires Valid()
      modifies `inflight, `outcome, `script
      ensures Valid() && inflight == [] && |script| <= |old(script)|
      ensures forall s <- old(inflight) ::
              s in outcome && outcome[s] == if s in old(outcome) then old(outcome)[s] else Aborted
      ensures forall s :: s in outcome && s !in old(inflight) ==> s in old(outcome) && outcome[s] == old(outcome)[s]
      ensures old(outcome.Keys) <= outcome.Keys
    {
      var i := 0;
      while i < |inflight|
        invariant i <= |inflight| && inflight == old(inflight) && Valid() && |script| <= |old(script)|
        invariant old(outcome.Keys) <= outcome.Keys
        invariant forall s <- inflight[..i] :: s in outcome
        invariant forall s <- outcome.Keys ::
                    if s in old(outcome) then outcome[s] == old(outcome)[s]
                    else s in inflight[..i] && outcome[s] == Aborted
      {
        var _ := Suspend();
        assert inflight[..i + 1] == inflight[..i] + [inflight[i]];
        Resolve(inflight[i], Aborted);
        i := i + 1;
      }
      assert inflight[..i] == inflight;
      inflight := [];
    }

    /** `_drain_nonstreaming_riders`.  However it ends, no rider is left and every rider has
        been answered; without a cancellation each got exactly what its own completion gave,
        with one, each got that or the abort. */
    method Drain() returns (cancelled: bool)
      requires Valid() && Sound() && inflight != []
      modifies `inflight, `outcome, `pid, `waiting, `script, `signalled, `peak, `served
      ensures Valid() && NobodyLost() && inflight == []
      ensures forall s <- served :: s in outcome
      ensures !cancelled ==> Sound()
      ensures forall s <- served :: outcome[s] == ends(s) || outcome[s] == Aborted
    {
      cancelled := DrainLoop();
      AbortRest();
    }

    /** The `finally` of the streaming barrier: the routes of the riders left are told to end;
        nobody is answered here. */
    method EndRest()
      requires Valid()
      modifies `inflight, `ended
      ensures Valid() && inflight == [] && ended == old(ended) + Elements(old(inflight))
    {
      var i := 0;
      while i < |inflight|
        invariant i <= |inflight| && inflight == old(inflight) && ended == old(ended) + Elements(inflight[..i])
      {
        assert inflight[..i + 1] == inflight[..i] + [inflight[i]];
        ended := ended + {inflight[i]};
        i := i + 1;
      }
      assert inflight[..i] == inflight;
      inflight := [];
    }

    /** The streaming drain barrier.  A finished rider's event was set by its route, or is set
        here at the cap.  However the barrier ends, no rider is left and every rider's event is
        set, so its route ends; without a cancellation every rider has been answered. */
    method DrainStreams() returns (cancelled: bool)
      requires Valid() && Sound() && inflight != []
      modifies `inflight, `outcome, `pid, `script, `signalled, `ended
      ensures Valid() && inflight == [] && Elements(old(inflight)) <= ended
      ensures !cancelled ==> Sound() && forall s <- served :: s in outcome
      ensures forall s <- served :: s in outcome ==> outcome[s] == ends(s)
      ensures old(outcome.Keys) <= outcome.Keys
    {
      cancelled := false;
      while inflight != [] && !cancelled
        invariant Valid() && Sound() && old(outcome.Keys) <= outcome.Keys
        invariant forall s <- old(inflight) :: s in inflight || s in ended
        decreases |script|, |inflight|, !cancelled
      {
        cancelled := StreamTurn();
      }
      EndRest();
    }

    /** One wake-up of the streaming barrier. */
    method StreamTurn() returns (cancelled: bool)
      requires Valid() && Sound() && inflight != []
      modifies `inflight, `outcome, `pid, `script, `signalled, `ended
      ensures Valid() && Sound() && old(outcome.Keys) <= outcome.Keys && old(ended) <= ended
      ensures forall s <- old(inflight) :: s in inflight || s in ended
      ensures |script| <= |old(script)| && |inflight| <= |old(inflight)|
      ensures cancelled || |script| < |old(script)| || |inflight| < |old(inflight)|
    {
      var finished := Wake();
      assert inflight[0] in Elements(inflight);
      ended := ended + finished;
      cancelled := Sweep(finished);
    }

    /** `_fan_out_and_drain` for a streaming anchor. */
    method FanOutStreams() returns (cancelled: bool)
      requires Valid() && Sound() && inflight == [anchor] && anchor !in outcome
      modifies `inflight, `outcome, `pid, `waiting, `script, `signalled, `peak, `served, `ended
      ensures Valid()
      ensures var first := Admitted(width, [anchor], old(waiting), old(script));
              if first.cancelled
              then cancelled && inflight == first.riders && ended == old(ended) && forall s <- inflight :: s !in outcome
              else
                && inflight == [] && Elements(first.riders) <= ended && Elements(first.riders) <= served
                && (!cancelled ==> forall s <- served :: s in outcome)
      ensures RidersTold(false)
    {
      cancelled := Admit();
      if cancelled {
        return;
      }
      assert old(inflight)[0] in inflight;
      cancelled := DrainStreams();
    }

    /** `_fan_out_and_drain` for a non-streaming anchor: a one-shot admission outside any
        `finally`, then the drain. */
    method FanOutAndDrain() returns (cancelled: bool)
      requires Valid() && Sound() && inflight == [anchor] && anchor !in outcome
      modifies `inflight, `outcome, `pid, `waiting, `script, `signalled, `peak, `served
      ensures Valid() && NobodyLost()
      ensures old(served) <= served
      ensures var first := Admitted(width, [anchor], old(waiting), old(script));
              if first.cancelled
              then cancelled && inflight == first.riders && anchor in inflight && forall s <- inflight :: s !in outcome
              else inflight == [] && (forall s <- served :: s in outcome) && (!cancelled ==> Sound())
      ensures RidersTold(cancelled)
    {
      cancelled := Admit();
      if cancelled {
        assert anchor == old(inflight)[0] == inflight[0];
        return;
      }
      cancelled := Drain();
    }
  }

  /** Over every queue, every set of completions and every schedule: the rider set never
      outgrows the width, the shared process is never signalled, every candidate that left
      the queue was answered or is a rider, and the riders are all answered — each by its own
      completion when nothing is cancelled — unless the one-shot admission is cancelled,
      in which case exactly the riders it admitted are left unanswered. */
  method RunFanOut(width: nat, handle: nat, anchor: nat, ends: nat -> Ending, queue: seq<Candidate>, script: seq<int>)
    returns (cancelled: bool, left: seq<nat>, outcome: map<nat, Ending>, rest: seq<Candidate>, peak: nat,
        signalled: bool)
    requires width > 0 && DistinctIds(queue) && anchor !in Ids(queue)
    ensures peak <= width && !signalled
    ensures Ids(rest) <= Ids(queue) && forall s <- Ids(queue) - Ids(rest) :: s in left || s in outcome
    ensures var first := Admitted(width, [anchor], queue, script);
            if first.cancelled then cancelled && left == first.riders && anchor in left
                && forall s <- left :: s !in outcome
            else left == [] && anchor in outcome
    ensures !cancelled ==> anchor in outcome && outcome[anchor] == ends(anchor)
    ensures forall w <- queue :: w.id in outcome ==>
              if w.gone then outcome[w.id] == Evicted
              else if w.drifts then outcome[w.id] == Drifted
              else outcome[w.id] == ends(w.id) || (cancelled && outcome[w.id] == Aborted)
  {
    var f := new FanOut(width, handle, anchor, ends, queue, script);
    cancelled := f.FanOutAndDrain();
    f.Answers(cancelled);
    left, outcome, rest, peak, signalled := f.inflight, f.outcome, f.waiting, f.peak, f.signalled;
  }

  /** The same for a streaming anchor: unless the one-shot admission is cancelled, no rider is
      left and every rider's route is told to end; without a cancellation each rider's caller
      is told that it has been streamed, with one, each is told that or nothing. */
  method RunStreams(width: nat, handle: nat, anchor: nat, queue: seq<Candidate>, script: seq<int>)
    returns (cancelled: bool, left: seq<nat>, ended: set<nat>, outcome: map<nat, Ending>, peak: nat, signalled: bool)
    requires width > 0 && DistinctIds(queue) && anchor !in Ids(queue)
    ensures peak <= width && !signalled
    ensures var first := Admitted(width, [anchor], queue, script);
            if first.cancelled then
              cancelled && left == first.riders && forall s <- left :: s !in outcome && s !in ended
            else
              && left == [] && Elements(first.riders) <= ended
              && (forall s <- first.riders :: s in outcome ==> outcome[s] == Streamed)
              && (!cancelled ==> forall s <- first.riders :: s in outcome)
    ensures forall w <- queue :: w.id in outcome ==>
              outcome[w.id] == if w.gone then Evicted else if w.drifts then Drifted else Streamed
  {
    var f := new FanOut(width, handle, anchor, _ => Streamed, queue, script);
    cancelled := f.FanOutStreams();
    f.Answers(false);
    left, ended, outcome, peak, signalled := f.inflight, f.ended, f.outcome, f.peak, f.signalled;
    ghost var riders := Admitted(width, [anchor], queue, script).riders;
    assert forall s <- riders :: s in Elements(riders);
  }

  lemma TailIds(w: seq<Candidate>)
    requires DistinctIds(w) && w != []
    ensures Ids(w) == Ids(w[1..]) + {w[0].id} && w[0].id !in Ids(w[1..]) && DistinctIds(w[1..])
  {
    assert w == [w[0]] + w[1..];
  }
}
