/** The slot state machine of fsm.py: its table, the in-place transition, and the
    bounded walk to COLD that `_force_cold` performs when a request dies mid-flight. */
module Fsm {
  import opened Common

  datatype SlotState =
    | Received | AcceptBuffer | Staged | Loading | LoadingFail | Active
    | Grace | GraceBusy | ActiveMatch | Popped | IdleHot | Cold

  function LegalTargets(s: SlotState): set<SlotState> {
    match s
    case Received => {AcceptBuffer, Staged}
    case AcceptBuffer => {Staged, Cold}
    case Staged => {Loading, Cold, ActiveMatch}
    case Loading => {Active, LoadingFail, Cold}
    case LoadingFail => {Staged, Popped}
    case Active => {Grace, ActiveMatch}
    case Grace => {GraceBusy, Popped, Active}
    case GraceBusy => {Grace, Popped}
    case ActiveMatch => {Active}
    case Popped => {IdleHot, Staged, Cold}
    case IdleHot => {Active, Popped, Cold}
    case Cold => {}
  }

  predicate CanTransition(s: SlotState, to: SlotState) {
    to in LegalTargets(s)
  }

  /** The same table read the other way: from where a state can be entered. */
  function LegalSources(to: SlotState): set<SlotState> {
    match to
    case Received => {}
    case AcceptBuffer => {Received}
    case Staged => {Received, AcceptBuffer, LoadingFail, Popped}
    case Loading => {Staged}
    case LoadingFail => {Loading}
    case Active => {Loading, Grace, ActiveMatch, IdleHot}
    case Grace => {Active, GraceBusy}
    case GraceBusy => {Grace}
    case ActiveMatch => {Staged, Active}
    case Popped => {LoadingFail, Grace, GraceBusy, IdleHot}
    case IdleHot => {Popped}
    case Cold => {AcceptBuffer, Staged, Loading, Popped, IdleHot}
  }

  /** Leaving and entering agree on every pair of states. */
  lemma TableBothWays(s: SlotState, to: SlotState)
    ensures CanTransition(s, to) <==> s in LegalSources(to)
  {
  }

  /** A request on its way through the manager.  `disconnected` is the caller's
      disconnect event; the queue only ever reads it. */
  class Slot {
    const req: Req
    var state: SlotState
    var evicted: bool
    var disconnected: bool

    constructor (req: Req)
      ensures this.req == req && state == Received && !evicted && !disconnected
    {
      this.req := req;
      state := Received;
      evicted := false;
      disconnected := false;
    }
  }

  /** `ok == false` stands for the InvalidTransition exception: nothing was changed. */
  method Transition(slot: Slot, to: SlotState) returns (ok: bool)
    modifies slot`state
    ensures ok == CanTransition(old(slot.state), to)
    ensures slot.state == if ok then to else old(slot.state)
  {
    ok := to in LegalTargets(slot.state);
    if ok {
      slot.state := to;
    }
  }

  /** Both transitions of a promotion onto a running process, over `via`, are in the table. */
  predicate PromotionLegal(s: SlotState, via: SlotState) {
    CanTransition(s, via) && CanTransition(via, Active)
  }

  /** The states from which the two promotions of the manager go through; STAGED is in both. */
  lemma PromotionLegalExactly(s: SlotState)
    ensures PromotionLegal(s, ActiveMatch) <==> s == Staged || s == Active
    ensures PromotionLegal(s, Loading) <==> s == Staged
  {
  }

  // ----- the walk to COLD -------------------------------------------------------

  /** Consecutive states of a path, each hop in the table. */
  ghost predicate LegalPath(path: seq<SlotState>) {
    forall i :: 0 <= i < |path| - 1 ==> CanTransition(path[i], path[i + 1])
  }

  /** The two states from which the table offers none of the hops the walk looks for. */
  predicate Stranded(s: SlotState) {
    s == Received || s == ActiveMatch
  }

  /** The hop the walk prefers: COLD, else POPPED, else GRACE, else LOADING_FAIL; with
      none of them in the table the state is set to COLD directly. */
  function Hop(s: SlotState): SlotState {
    var legal := LegalTargets(s);
    if Cold in legal then Cold
    else if Popped in legal then Popped
    else if Grace in legal then Grace
    else if LoadingFail in legal then LoadingFail
    else Cold
  }

  /** The path the walk takes, state by state. */
  function ColdPath(s: SlotState): (p: seq<SlotState>)
    ensures 1 <= |p| <= 4 && p[0] == s && p[|p| - 1] == Cold
  {
    match s
    case Cold => [Cold]
    case AcceptBuffer | Staged | Loading | Popped | IdleHot => [s, Cold]
    case LoadingFail | GraceBusy | Grace => [s, Popped, Cold]
    case Active => [Active, Grace, Popped, Cold]
    case Received | ActiveMatch => [s, Cold]
  }

  lemma ColdPathStep(s: SlotState)
    requires s != Cold
    ensures ColdPath(s) == [s] + ColdPath(Hop(s))
    ensures CanTransition(s, Hop(s)) <==> !Stranded(s)
    ensures !Stranded(Hop(s))
  {
  }

  /** One hop towards COLD; `ok == false` tells that the state was set directly. */
  method HopOnce(slot: Slot) returns (ok: bool)
    requires slot.state != Cold
    modifies slot`state
    ensures slot.state == Hop(old(slot.state)) && ok == !Stranded(old(slot.state))
    ensures ColdPath(old(slot.state)) == [old(slot.state)] + ColdPath(slot.state) && !Stranded(slot.state)
  {
    ColdPathStep(slot.state);
    ok := Transition(slot, Hop(slot.state));
    if !ok {
      slot.state := Cold;
    }
  }

  /** `_force_cold`: at most four hops towards COLD; from a state with no usable hop
      the state is set directly (`forced`).  `path` records the states visited. */
  method ForceCold(slot: Slot) returns (forced: bool, path: seq<SlotState>)
    modifies slot`state
    ensures slot.state == Cold
    ensures path == ColdPath(old(slot.state))
    ensures forced == Stranded(old(slot.state))
  {
    forced := false;
    path := [slot.state];
    ghost var goal := ColdPath(slot.state);
    for n := 0 to 4
      invariant 1 <= |path| <= |goal| && path == goal[..|path|] && slot.state == goal[|path| - 1]
      invariant goal[|path| - 1..] == ColdPath(slot.state)
      invariant |path| == 1 ==> !forced
      invariant |path| > 1 ==> forced == Stranded(goal[0]) && !Stranded(slot.state)
      invariant |path| == n + 1 || slot.state == Cold
    {
      if slot.state == Cold {
        break;
      }
      var ok := HopOnce(slot);
      forced := forced || !ok;
      assert goal[|path| - 1..][1..] == goal[|path|..];
      path := path + [slot.state];
    }
    assert goal[|path| - 1..] == [Cold];
  }

  /** The walk stays inside the table from every state except exactly two, RECEIVED
      and ACTIVE_MATCH, where COLD is set without a legal hop. */
  lemma ColdWalkLegalExactly(s: SlotState)
    ensures LegalPath(ColdPath(s)) <==> !Stranded(s)
  {
    var p := ColdPath(s);
    if Stranded(s) {
      assert !CanTransition(p[0], p[1]);
    }
  }

  // ----- where the walk starts --------------------------------------------------------------

  /** What the manager takes a slot through once it has left the queue: an anchor or rider
      that loads, an anchor whose load fails, a follow-up promoted in the grace window. */
  function Life(loads: bool, matched: bool): seq<SlotState> {
    if matched then [Staged, ActiveMatch, Active, Grace, Popped]
    else if loads then [Staged, Loading, Active, Grace, Popped]
    else [Staged, Loading, LoadingFail, Popped]
  }

  lemma LifeIsLegal(loads: bool, matched: bool)
    ensures LegalPath(Life(loads, matched))
  {
  }

  /** Forced cold `k` hops into its life, a slot stays inside the table all the way, except
      between the two transitions of a match's promotion, where nothing forces it cold. */
  lemma ForcedFromLifeExactly(loads: bool, matched: bool, k: nat)
    requires k < |Life(loads, matched)|
    ensures LegalPath(Life(loads, matched)[..k] + ColdPath(Life(loads, matched)[k])) <==> !(matched && k == 1)
  {
    var life := Life(loads, matched);
    var path := life[..k] + ColdPath(life[k]);
    LifeIsLegal(loads, matched);
    ColdWalkLegalExactly(life[k]);
    if matched && k == 1 {
      assert path[1] == ActiveMatch && path[2] == Cold && !CanTransition(path[1], path[2]);
    } else {
      LegalJoin(life[..k], ColdPath(life[k]));
    }
  }

  lemma LegalJoin(a: seq<SlotState>, b: seq<SlotState>)
    requires LegalPath(a) && LegalPath(b) && b != [] && (a != [] ==> CanTransition(a[|a| - 1], b[0]))
    ensures LegalPath(a + b)
  {
  }

  /** No legal path to COLD is shorter than the walk, whenever the walk is legal. */
  lemma ColdWalkShortest(s: SlotState, path: seq<SlotState>)
    requires !Stranded(s)
    requires path != [] && path[0] == s && path[|path| - 1] == Cold && LegalPath(path)
    ensures |ColdPath(s)| <= |path|
  {
    if |path| >= 2 {
      assert CanTransition(path[0], path[1]);
      if |path| >= 3 {
        assert CanTransition(path[1], path[2]);
      }
    }
  }
}
