/** The grace window of queue.py and the loop that spends it (manager.py). */
module GraceTimers {
  import opened Common

  /** The length of `n` grace windows. */
  function Windows(n: nat, grace: real): real {
    if n == 0 then 0.0 else grace + Windows(n - 1, grace)
  }

  lemma {:induction false} WindowsGrow(n: nat, m: nat, grace: real)
    requires n <= m && grace >= 0.0
    ensures Windows(n, grace) <= Windows(m, grace)
    decreases m
  {
    if n < m {
      WindowsGrow(n, m - 1, grace);
    }
  }

  class GraceTimer {
    const graceSeconds: real
    const maxExtensions: nat
    var startedAt: Option<real>
    var thread: Option<string>
    var model: Option<string>
    var extensionCount: nat

    constructor (graceSeconds: real, maxExtensions: nat)
      ensures this.graceSeconds == graceSeconds && this.maxExtensions == maxExtensions
      ensures startedAt == None && extensionCount == 0
    {
      this.graceSeconds, this.maxExtensions := graceSeconds, maxExtensions;
      startedAt, thread, model, extensionCount := None, None, None, 0;
    }

    method Start(thread: string, model: string, now: real)
      modifies this
      ensures startedAt == Some(now) && this.thread == Some(thread) && this.model == Some(model) && extensionCount == 0
    {
      startedAt, this.thread, this.model, extensionCount := Some(now), Some(thread), Some(model), 0;
    }

    /** False once the extension cap is reached. */
    method RestartForFollowup(now: real) returns (extended: bool)
      modifies `startedAt, `extensionCount
      ensures extended <==> old(extensionCount) < maxExtensions
      ensures extended ==> extensionCount == old(extensionCount) + 1 && startedAt == Some(now)
      ensures !extended ==> extensionCount == old(extensionCount) && startedAt == old(startedAt)
    {
      if extensionCount >= maxExtensions {
        return false;
      }
      extensionCount, startedAt := extensionCount + 1, Some(now);
      extended := true;
    }
  }

  /** One turn of the loop: a follow-up found in the queue, with how long it is served and
      whether it may extend the window (in the single-sidecar worker one whose completion
      raises may not), or a sleep between two looks. */
  datatype Turn = Followup(serve: real, ok: bool) | Sleep(slept: real)

  function Length(t: Turn): real {
    if t.Followup? then t.serve else t.slept
  }

  predicate Extends(t: Turn) {
    t.Followup? && t.ok
  }

  /** The follow-ups that may extend the window. */
  function Eligible(turns: seq<Turn>): nat {
    if turns == [] then 0
    else Eligible(turns[..|turns| - 1]) + if Extends(turns[|turns| - 1]) then 1 else 0
  }

  /** The time spent waiting, serving aside. */
  function Slept(turns: seq<Turn>): real {
    if turns == [] then 0.0
    else Slept(turns[..|turns| - 1]) + if turns[|turns| - 1].Sleep? then turns[|turns| - 1].slept else 0.0
  }

  /** How long the current window has been open: since the start, or since the last follow-up
      that extended it, which only the first `max` eligible ones do. */
  function Open(turns: seq<Turn>, max: nat): real {
    if turns == [] then 0.0
    else
      var before, last := turns[..|turns| - 1], turns[|turns| - 1];
      if Extends(last) && Eligible(before) < max then 0.0 else Open(before, max) + Length(last)
  }

  /** The grace loop goes on exactly as long as the current window is open, until the manager
      stops.  However many follow-ups arrive, the time it spends waiting is at most one window,
      one more per extension, and the sleep that runs past the last deadline. */
  method GraceLoop(grace: real, poll: real, maxExtensions: nat, begin: real, turns: seq<Turn>)
    returns (waited: real, extensions: nat, taken: nat)
    requires grace >= 0.0 && poll >= 0.0
    requires forall t <- turns :: if t.Followup? then t.serve >= 0.0 else 0.0 <= t.slept <= poll
    ensures taken <= |turns| && forall j :: 0 <= j < taken ==> Open(turns[..j], maxExtensions) < grace
    ensures taken < |turns| ==> Open(turns[..taken], maxExtensions) >= grace
    ensures waited == Slept(turns[..taken])
    ensures extensions == if Eligible(turns[..taken]) <= maxExtensions then Eligible(turns[..taken]) else maxExtensions
    ensures 0.0 <= waited <= Windows(extensions + 1, grace) + poll
    ensures Windows(extensions + 1, grace) <= Windows(maxExtensions + 1, grace)
  {
    var timer := new GraceTimer(grace, maxExtensions);
    timer.Start("", "", begin);
    var now, deadline := begin, begin + grace;
    waited, taken := 0.0, 0;
    while taken < |turns| && now < deadline
      invariant taken <= |turns| && timer.maxExtensions == maxExtensions
      invariant timer.extensionCount
                == if Eligible(turns[..taken]) <= maxExtensions then Eligible(turns[..taken]) else maxExtensions
      invariant waited == Slept(turns[..taken]) && deadline - now == grace - Open(turns[..taken], maxExtensions)
      invariant forall j :: 0 <= j < taken ==> Open(turns[..j], maxExtensions) < grace
      invariant 0.0 <= waited <= Windows(timer.extensionCount + 1, grace) + poll
      invariant now < deadline ==> waited + (deadline - now) <= Windows(timer.extensionCount + 1, grace)
    {
      var turn := turns[taken];
      assert turn in turns;
      assert turns[..taken + 1][..taken] == turns[..taken];
      if turn.Sleep? {
        waited := waited + turn.slept;
        now := now + turn.slept;
      } else {
        now := now + turn.serve;
        if turn.ok {
          var extended := timer.RestartForFollowup(now);
          if extended {
            deadline := now + grace;
          }
        }
      }
      taken := taken + 1;
    }
    extensions := timer.extensionCount;
    WindowsGrow(extensions + 1, maxExtensions + 1, grace);
  }
}
