/** Every action of the dispatcher keeps the invariant; so does every run. */
module DispatcherSteps {
  import opened Common
  import opened Dispatcher
  import opened DispatcherInv
  import opened DispatcherMoves
  import opened DispatcherFinally
  import opened DispatcherDriver
  import opened DispatcherServe
  import opened DispatcherWindows
  import opened DispatcherRouting

  lemma CloseIs(c: Config, st: State)
    requires Enabled(c, st, CloseQueue)
    ensures Apply(c, st, CloseQueue) == DoClose(st)
  {
  }

  lemma StopKeeps(c: Config, st: State, l: Ledger)
    requires Inv(c, st, l)
    ensures Inv(c, st.(stopped := true), l)
  {
    var st' := st.(stopped := true);
    ProcessesSame(st, st', l.procs);
    RegistrySame(c, st, st');
    AllKept(st, st');
  }

  /** The actions of a driver before it has a sidecar. */
  predicate StartAction(a: Action) {
    a.Start? || a.CancelUnstarted? || a.GateRefused? || a.Spawned?
  }

  lemma StartActionKeepsInv(c: Config, st: State, l: Ledger, a: Action) returns (l': Ledger)
    requires ValidConfig(c) && Inv(c, st, l) && l.hand == {} && Enabled(c, st, a) && StartAction(a)
    ensures Inv(c, Apply(c, st, a), l') && l'.hand == {}
  {
    if a.Start? {
      l' := StartKeeps(c, st, l, a.rid);
    } else if a.CancelUnstarted? {
      l' := CancelUnstartedKeeps(c, st, l, a.rid);
    } else if a.GateRefused? {
      l' := GateRefusedKeeps(c, st, l, a.rid, a.alive);
    } else {
      l' := SpawnedKeeps(c, st, l, a.rid, a.pid, a.width);
    }
  }

  /** The ends of the health check. */
  predicate HealthAction(a: Action) {
    a.Healthy? || a.Unhealthy? || a.UnhealthyReaped?
  }

  lemma HealthActionKeepsInv(c: Config, st: State, l: Ledger, a: Action) returns (l': Ledger)
    requires ValidConfig(c) && Inv(c, st, l) && l.hand == {} && Enabled(c, st, a) && HealthAction(a)
    ensures Inv(c, Apply(c, st, a), l') && l'.hand == {}
  {
    if a.Healthy? {
      l' := PublishKeeps(c, st, l, a.rid, a.now, a.alive);
    } else if a.Unhealthy? {
      l' := UnhealthyKeeps(c, st, l, a.rid, a.alive);
    } else {
      l' := UnhealthyReapedKeeps(c, st, l, a.rid);
    }
  }

  /** The actions that serve one request at a time. */
  predicate ServeAction(a: Action) {
    a.Served? || a.Match? || a.MatchDone?
  }

  lemma ServeActionKeepsInv(c: Config, st: State, l: Ledger, a: Action) returns (l': Ledger)
    requires ValidConfig(c) && Inv(c, st, l) && l.hand == {} && Enabled(c, st, a) && ServeAction(a)
    ensures Inv(c, Apply(c, st, a), l') && l'.hand == {}
  {
    if a.Served? {
      l' := ServedKeeps(c, st, l, a.rid);
    } else if a.Match? {
      l' := MatchKeeps(c, st, l, a.rid);
    } else {
      l' := MatchDoneKeeps(c, st, l, a.rid);
    }
  }

  /** The actions that serve riders side by side. */
  predicate FanOutAction(a: Action) {
    a.Launch? || a.RiderDone? || a.Wake?
  }

  lemma FanOutActionKeepsInv(c: Config, st: State, l: Ledger, a: Action) returns (l': Ledger)
    requires ValidConfig(c) && Inv(c, st, l) && l.hand == {} && Enabled(c, st, a) && FanOutAction(a)
    ensures Inv(c, Apply(c, st, a), l') && l'.hand == {}
  {
    if a.Launch? {
      l' := LaunchKeeps(c, st, l, a.rid, a.gone);
    } else if a.RiderDone? {
      l' := RiderDoneKeeps(c, st, l, a.rid, a.s);
    } else {
      l' := WakeKeeps(c, st, l, a.rid, a.gone);
    }
  }

  /** The ends of the grace and idle windows. */
  predicate WindowAction(a: Action) {
    a.GraceOver? || a.Unpark? || a.ParkTimeout?
  }

  lemma WindowActionKeepsInv(c: Config, st: State, l: Ledger, a: Action) returns (l': Ledger)
    requires ValidConfig(c) && Inv(c, st, l) && l.hand == {} && Enabled(c, st, a) && WindowAction(a)
    ensures Inv(c, Apply(c, st, a), l') && l'.hand == {}
  {
    if a.GraceOver? {
      l' := GraceOverKeeps(c, st, l, a.rid, a.keepWarm, a.now, a.alive);
    } else if a.Unpark? {
      l' := UnparkKeeps(c, st, l, a.rid, a.now, a.alive);
    } else {
      l' := ParkTimeoutKeeps(c, st, l, a.rid, a.now, a.alive);
    }
  }

  /** The ways out of a driver. */
  predicate ExitAction(a: Action) {
    a.Abort? || a.CleanupOver?
  }

  lemma ExitActionKeepsInv(c: Config, st: State, l: Ledger, a: Action) returns (l': Ledger)
    requires ValidConfig(c) && Inv(c, st, l) && l.hand == {} && Enabled(c, st, a) && ExitAction(a)
    ensures Inv(c, Apply(c, st, a), l') && l'.hand == {}
  {
    if a.Abort? {
      l' := UnwindKeeps(c, st, l, a.rid, a.alive);
    } else {
      l' := LeaveFinallyKeeps(c, st, l, a.rid);
    }
  }

  /** The detached tasks that end a resident. */
  predicate ReapAction(a: Action) {
    a.RunTeardown? || a.RunReapDead?
  }

  lemma ReapActionKeepsInv(c: Config, st: State, l: Ledger, a: Action) returns (l': Ledger)
    requires ValidConfig(c) && Inv(c, st, l) && l.hand == {} && Enabled(c, st, a) && ReapAction(a)
    ensures Inv(c, Apply(c, st, a), l') && l'.hand == {}
  {
    if a.RunTeardown? {
      l' := TeardownKeeps(c, st, l, a.rid, a.alive);
    } else {
      l' := ReapDeadKeeps(c, st, l, a.rid);
    }
  }

  /** The detached tasks that bring requests back. */
  predicate ReturnAction(a: Action) {
    a.RunRequeue? || a.RunBackoff? || a.CancelBackoff?
  }

  lemma ReturnActionKeepsInv(c: Config, st: State, l: Ledger, a: Action) returns (l': Ledger)
    requires ValidConfig(c) && Inv(c, st, l) && l.hand == {} && Enabled(c, st, a) && ReturnAction(a)
    ensures Inv(c, Apply(c, st, a), l') && l'.hand == {}
  {
    if a.RunRequeue? {
      l' := RequeueKeeps(c, st, l, Requeue(a.slots), a.slots);
    } else if a.RunBackoff? {
      l' := RequeueKeeps(c, st, l, Backoff(a.s), [a.s]);
    } else {
      l' := CancelBackoffKeeps(c, st, l, a.s);
    }
  }

  /** Shutdown. */
  predicate ShutdownAction(a: Action) {
    a.Stop? || a.CloseQueue?
  }

  lemma ShutdownActionKeepsInv(c: Config, st: State, l: Ledger, a: Action) returns (l': Ledger)
    requires ValidConfig(c) && Inv(c, st, l) && l.hand == {} && Enabled(c, st, a) && ShutdownAction(a)
    ensures Inv(c, Apply(c, st, a), l') && l'.hand == {}
  {
    if a.Stop? {
      l' := l;
      StopKeeps(c, st, l);
    } else {
      CloseIs(c, st);
      l' := CloseKeeps(c, st, l);
    }
  }

  /** The actions of clients and dispatcher. */
  predicate OutsideAction(a: Action) {
    a.Submit? || a.ClientGone? || a.DispatchOne?
  }

  lemma OutsideActionKeepsInv(c: Config, st: State, l: Ledger, a: Action) returns (l': Ledger)
    requires ValidConfig(c) && Inv(c, st, l) && l.hand == {} && Enabled(c, st, a) && OutsideAction(a)
    ensures Inv(c, Apply(c, st, a), l') && l'.hand == {}
  {
    if a.Submit? {
      l' := SubmitKeeps(c, st, l, a.s, a.head);
    } else if a.ClientGone? {
      l' := l;
      ResolveKeeps(c, st, l, {a.s});
    } else {
      l' := DispatchKeeps(c, st, l, a.o);
    }
  }

  /** Every action, whatever the environment answers, keeps the invariant. */
  lemma StepKeepsInv(c: Config, st: State, l: Ledger, a: Action) returns (l': Ledger)
    requires ValidConfig(c) && Inv(c, st, l) && l.hand == {} && Enabled(c, st, a)
    ensures Inv(c, Apply(c, st, a), l') && l'.hand == {}
  {
    if StartAction(a) {
      l' := StartActionKeepsInv(c, st, l, a);
    } else if HealthAction(a) {
      l' := HealthActionKeepsInv(c, st, l, a);
    } else if ServeAction(a) {
      l' := ServeActionKeepsInv(c, st, l, a);
    } else if FanOutAction(a) {
      l' := FanOutActionKeepsInv(c, st, l, a);
    } else if WindowAction(a) {
      l' := WindowActionKeepsInv(c, st, l, a);
    } else if ExitAction(a) {
      l' := ExitActionKeepsInv(c, st, l, a);
    } else if ReapAction(a) {
      l' := ReapActionKeepsInv(c, st, l, a);
    } else if ReturnAction(a) {
      l' := ReturnActionKeepsInv(c, st, l, a);
    } else if ShutdownAction(a) {
      l' := ShutdownActionKeepsInv(c, st, l, a);
    } else {
      l' := OutsideActionKeepsInv(c, st, l, a);
    }
  }

  /** Some account of every request and process satisfies the invariant. */
  ghost predicate Sound(c: Config, st: State) {
    exists l: Ledger :: Inv(c, st, l) && l.hand == {}
  }

  lemma StepSound(c: Config, st: State, a: Action)
    requires ValidConfig(c) && Sound(c, st) && Enabled(c, st, a)
    ensures Sound(c, Apply(c, st, a))
  {
    var l: Ledger :| Inv(c, st, l) && l.hand == {};
    var l' := StepKeepsInv(c, st, l, a);
  }

  /** A driver between its start and its end has a slot. */
  lemma HasSlot(c: Config, st: State, rid: nat)
    requires Sound(c, st) && rid in st.residents && st.residents[rid].pc != NotStarted && st.residents[rid].pc != Done
    ensures st.residents[rid].slot.Some?
  {
    assert Shaped(st, rid);
  }

  lemma InitSound(c: Config)
    ensures Sound(c, Init)
  {
    InitInv(c);
    assert Ledger(map[], map[], {}).hand == {};
  }

  /** Every state of every run satisfies the invariant. */
  lemma {:induction false} RunKeepsInv(c: Config, actions: seq<Action>) returns (l: Ledger)
    requires ValidConfig(c)
    ensures Inv(c, Run(c, actions), l) && l.hand == {}
    decreases |actions|
  {
    if actions == [] {
      InitInv(c);
      l := Ledger(map[], map[], {});
    } else {
      var a := actions[|actions| - 1];
      l := RunKeepsInv(c, actions[..|actions| - 1]);
      var st := Run(c, actions[..|actions| - 1]);
      if Enabled(c, st, a) {
        l := StepKeepsInv(c, st, l, a);
      }
    }
  }
}
