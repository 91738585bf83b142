/**
 How instances converge and get deleted. With calls that go through, every reconcile or settling that
 does anything comes closer; so every fair schedule ends with what the spec asks for, or with nothing left.
 */
module InstanceProgress {
  import opened Common
  import opened InstanceMachine
  import opened InstanceProofs

  // --- Fault-free reconciles ---

  /** The next call goes through. */
  function CleanStep(spec: Spec, s: State): (s': State)
    requires s.w.log != []
    ensures s'.w.log != []
  {
    Step(spec, s, Next(Clean))
  }

  /** The reconcile runs to its return with every call going through. */
  function Finish(spec: Spec, s: State): (s': State)
    requires s.w.log != []
    ensures s'.w.log != [] && s'.pc.Idle?
    decreases Phase(s.pc)
  {
    if s.pc.Idle? then s else
      CallsDecrease(spec, s.pc, Serve(spec, s.w, CallAt(spec, s.pc), Clean).1);
      Finish(spec, CleanStep(spec, s))
  }

  /** A whole reconcile of a version the cache serves. */
  function Reconcile(spec: Spec, s: State, version: nat): (s': State)
    requires s.w.log != []
    ensures s'.w.log != [] && s'.pc.Idle?
  {
    Finish(spec, Step(spec, s, Wake(version)))
  }

  /** The next call of a reconcile under way. */
  lemma Unroll(spec: Spec, s: State) returns (s': State)
    requires s.w.log != [] && !s.pc.Idle?
    ensures s' == CleanStep(spec, s) && Finish(spec, s) == Finish(spec, s')
  {
    s' := CleanStep(spec, s);
  }

  lemma {:induction false} FinishIsRun(spec: Spec, s: State) returns (acts: seq<Action>)
    requires s.w.log != []
    ensures AllCalm(acts) && Exec(spec, s, acts) == Finish(spec, s)
    decreases Phase(s.pc)
  {
    acts := [];
    if !s.pc.Idle? {
      CallsDecrease(spec, s.pc, Serve(spec, s.w, CallAt(spec, s.pc), Clean).1);
      var rest := FinishIsRun(spec, CleanStep(spec, s));
      ExecFirst(spec, s, Next(Clean), rest);
      acts := [Next(Clean)] + rest;
    }
  }

  lemma ReconcileIsRun(spec: Spec, s: State, version: nat) returns (acts: seq<Action>)
    requires s.w.log != []
    ensures AllCalm(acts) && Exec(spec, s, acts) == Reconcile(spec, s, version)
  {
    var rest := FinishIsRun(spec, Step(spec, s, Wake(version)));
    ExecFirst(spec, s, Wake(version), rest);
    acts := [Wake(version)] + rest;
  }

  // --- The measure ---

  function RunRank(run: RunState): nat {
    match run
    case Creating(_) => 6
    case Starting => 5
    case Rebooting => 5
    case Migrating => 5
    case Repairing => 5
    case Running => 4
    case Stopping => 3
    case Stopped => 2
    case _ => 7
  }

  /** Steps to go: to a stopped instance while the size is wrong, then to the wanted power state. */
  function Rank(spec: Spec, w: World): nat {
    if w.inst.None? then 20 else
      var i := w.inst.value;
      if !RightSize(spec, i) then 10 + RunRank(i.run)
      else if !spec.wantRunning then if i.run.Stopped? then 0 else RunRank(i.run)
      else match i.run
           case Running => 0
           case Creating(start) => if start then 2 else 5
           case Stopping => 4
           case Stopped => 3
           case _ => 1
  }

  lemma RankZeroIsConverged(spec: Spec, w: World)
    requires Sound(w)
    ensures Rank(spec, w) == 0 <==> Converged(spec, w)
  {
  }

  predicate CanSettle(inst: Option<Instance>) {
    inst.Some? &&
    var run := inst.value.run;
    run.Creating? || run.Starting? || run.Stopping? || run.Rebooting? || run.Migrating? || run.Repairing?
  }

  predicate Settling(event: Event) {
    event.Starts? || event.Boots? || event.Halts?
  }

  lemma SettlingDecreases(spec: Spec, w: World, event: Event)
    requires Sound(w) && Settling(event)
    ensures var w' := Settle(w, event);
            Sound(w') && (w' == w || Rank(spec, w') < Rank(spec, w))
  {
  }

  /** What is on its way can arrive. */
  lemma CanSettleMeansSome(w: World) returns (event: Event)
    requires w.log != [] && CanSettle(w.inst)
    ensures Settling(event) && Settle(w, event).inst != w.inst
  {
    event := match w.inst.value.run
             case Creating(start) => if start then Starts else Halts
             case Stopping => Halts
             case _ => Boots;
  }

  // --- Reconciles as a whole ---

  predicate Advances(spec: Spec, w: World, s': State) {
    && s'.pc.Idle? && Sound(s'.w)
    && (|| Rank(spec, s'.w) < Rank(spec, w)
        || (s'.w.inst == w.inst && CanSettle(w.inst))
        || (s'.w.inst == w.inst && Converged(spec, w)))
    && s'.pc == Idle(if Converged(spec, w) then Nil else Progressing)
  }

  lemma ViewCreates(spec: Spec, s: State)
    requires Sound(s.w) && s.pc.Look? && s.w.inst.None?
    ensures var s' := Finish(spec, s);
            Advances(spec, s.w, s') && s'.w.log == s.w.log && s'.floor == s.floor
  {
    var s1 := Unroll(spec, s);
    assert s1 == s.(pc := Make);
    var s2 := Unroll(spec, s1);
    assert s2.pc == Idle(Progressing);
  }

  lemma ViewConverges(spec: Spec, s: State)
    requires Sound(s.w) && s.pc.Look? && s.w.inst.Some?
    ensures var s' := Finish(spec, s);
            Advances(spec, s.w, s') && s'.w.log == s.w.log && s'.floor == s.floor
  {
    var s1 := Unroll(spec, s);
    assert s1 == s.(pc := Converge(spec, s.w.inst.value));
    if !s1.pc.Idle? {
      ResizeKeepsTheRest(spec, s.w.inst.value);
      var s2 := Unroll(spec, s1);
      assert s2.pc.Idle?;
    }
  }

  lemma LookAdvances(spec: Spec, s: State)
    requires Sound(s.w) && s.pc.Look?
    ensures var s' := Finish(spec, s);
            Advances(spec, s.w, s') && s'.w.log == s.w.log && s'.floor == s.floor
  {
    if s.w.inst.None? {
      ViewCreates(spec, s);
    } else {
      ViewConverges(spec, s);
    }
  }

  /** A version the cache serves that has the finalizer, or can get it. */
  predicate Usable(s: State, version: nat) {
    && s.floor <= version < |s.w.log|
    && (version == |s.w.log| - 1 || s.w.log[version].finalizer)
  }

  /** A reconcile of a usable version first sees to the finalizer. */
  lemma ReconcileLooks(spec: Spec, s: State, version: nat) returns (s': State)
    requires Sound(s.w) && s.pc.Idle? && Usable(s, version)
    ensures s'.pc.Look? && Sound(s'.w) && s'.w.inst == s.w.inst && s'.floor == version
    ensures |s'.w.log| >= |s.w.log|
    ensures Reconcile(spec, s, version) == Finish(spec, s')
  {
    s' := Step(spec, s, Wake(version));
    if !s.w.log[version].finalizer {
      s' := Unroll(spec, s');
      assert s' == State(Store(s.w, Last(s.w).(finalizer := true)), version, Look);
    }
  }

  /** An outdated version without the finalizer: the update conflicts, and that is all. */
  lemma OutdatedConflicts(spec: Spec, s: State, version: nat)
    requires Sound(s.w) && s.pc.Idle? && s.floor <= version < |s.w.log| && !Usable(s, version)
    ensures Reconcile(spec, s, version) == State(s.w, version, Idle(Erred))
  {
    var s1 := Step(spec, s, Wake(version));
    assert s1 == State(s.w, version, AddFinalizer(Copy(version, s.w.log[version])));
    var s2 := Unroll(spec, s1);
  }

  /**
   Each fault-free reconcile of a version with the finalizer, however old, or of the newest comes closer,
   waits for Oxide, or finds the instance converged and leaves it; one of any other version changes nothing.
   */
  lemma ReconcileAdvances(spec: Spec, s: State, version: nat)
    requires Sound(s.w) && s.pc.Idle? && s.floor <= version < |s.w.log|
    ensures var s' := Reconcile(spec, s, version);
            && s'.floor == version < |s'.w.log|
            && if Usable(s, version) then Advances(spec, s.w, s') else s'.w == s.w && s'.pc == Idle(Erred)
  {
    if Usable(s, version) {
      var s1 := ReconcileLooks(spec, s, version);
      LookAdvances(spec, s1);
    } else {
      OutdatedConflicts(spec, s, version);
    }
  }

  /**
   A failed instance is left alone: with the wrong size it is reported as progressing for ever, with the
   right one as an error.
   */
  lemma FailedIsReportedBySize(spec: Spec, s: State, version: nat)
    requires s.floor <= version < |s.w.log| && s.pc.Idle? && s.w.log[version] == Object(true, false, false)
    requires s.w.inst.Some? && s.w.inst.value.run.Failed?
    ensures Reconcile(spec, s, version)
            == State(s.w, version, Idle(if RightSize(spec, s.w.inst.value) then Erred else Progressing))
  {
    var s1 := Step(spec, s, Wake(version));
    assert s1 == State(s.w, version, Look);
    var s2 := Unroll(spec, s1);
    assert s2 == State(s.w, version, Converge(spec, s.w.inst.value));
  }

  // --- Schedules ---

  /** One thing that happens: a reconcile of a version, or Oxide settling. */
  datatype Round = Poll(version: nat) | Await(event: Event)

  /** A version that the cache cannot serve is not read. */
  function Play(spec: Spec, s: State, round: Round): (s': State)
    requires s.w.log != []
    ensures s'.w.log != []
  {
    match round
    case Poll(version) => Reconcile(spec, s, version)
    case Await(event) => Step(spec, s, Env(event))
  }

  predicate MaySettle(round: Round) {
    round.Await? ==> Settling(round.event)
  }

  predicate Resting(s: State) {
    Sound(s.w) && s.pc.Idle? && s.floor < |s.w.log|
  }

  /** No round takes the instance back, and one that changes it takes it forward. */
  lemma RoundsNeverRegress(spec: Spec, s: State, round: Round)
    requires Resting(s) && MaySettle(round)
    ensures var s' := Play(spec, s, round);
            && Resting(s') && Rank(spec, s'.w) <= Rank(spec, s.w)
            && (s'.w.inst != s.w.inst ==> Rank(spec, s'.w) < Rank(spec, s.w))
  {
    match round
    case Poll(version) =>
      if s.floor <= version < |s.w.log| {
        ReconcileAdvances(spec, s, version);
      } else {
        assert Step(spec, s, Wake(version)) == s;
      }
    case Await(event) =>
      SettlingDecreases(spec, s.w, event);
  }

  /** What to do next: let Oxide settle while it can, and reconcile the newest version otherwise. */
  lemma NextRound(spec: Spec, s: State) returns (round: Round)
    requires Resting(s)
    ensures MaySettle(round)
    ensures var s' := Play(spec, s, round);
            Rank(spec, s'.w) < Rank(spec, s.w) || (Converged(spec, s'.w) && s'.pc == Idle(Nil))
  {
    if CanSettle(s.w.inst) {
      var event := CanSettleMeansSome(s.w);
      SettlingDecreases(spec, s.w, event);
      round := Await(event);
    } else {
      round := Poll(|s.w.log| - 1);
      NewestAdvances(spec, s);
    }
  }

  lemma NewestAdvances(spec: Spec, s: State)
    requires Resting(s) && !CanSettle(s.w.inst)
    ensures var s' := Reconcile(spec, s, |s.w.log| - 1);
            Rank(spec, s'.w) < Rank(spec, s.w) || (Converged(spec, s'.w) && s'.pc == Idle(Nil))
  {
    ReconcileAdvances(spec, s, |s.w.log| - 1);
  }

  lemma PlayIsActions(spec: Spec, s: State, round: Round) returns (acts: seq<Action>)
    requires s.w.log != [] && MaySettle(round)
    ensures AllCalm(acts) && Exec(spec, s, acts) == Play(spec, s, round)
  {
    match round
    case Poll(version) => acts := ReconcileIsRun(spec, s, version);
    case Await(event) =>
      ExecOne(spec, s, [], Env(event));
      acts := [] + [Env(event)];
  }

  /** From every sound state some calm run ends with the instance converged and a nil result. */
  lemma {:induction false} ConvergenceEnds(spec: Spec, s: State) returns (acts: seq<Action>)
    requires Resting(s)
    ensures AllCalm(acts)
    ensures Converged(spec, Exec(spec, s, acts).w) && Exec(spec, s, acts).pc == Idle(Nil)
    decreases Rank(spec, s.w)
  {
    var round := NextRound(spec, s);
    RoundsNeverRegress(spec, s, round);
    var s1 := Play(spec, s, round);
    acts := PlayIsActions(spec, s, round);
    if Rank(spec, s1.w) < Rank(spec, s.w) {
      var rest := ConvergenceEnds(spec, s1);
      ExecAppend(spec, s, acts, rest);
      acts := acts + rest;
    }
  }

  // --- Endless schedules ---

  type Schedule = nat -> Round

  type History = nat -> State

  /** states(k) is the state before round k. */
  ghost predicate IsHistory(spec: Spec, states: History, rounds: Schedule) {
    forall k: nat {:trigger Play(spec, states(k), rounds(k))} ::
      states(k).w.log != [] && MaySettle(rounds(k)) && states(k + 1) == Play(spec, states(k), rounds(k))
  }

  /** A reconcile that is not stuck with a version from before the finalizer. */
  predicate Reads(s: State, round: Round) {
    round.Poll? && Usable(s, round.version)
  }

  function SettleInst(inst: Option<Instance>, event: Event): Option<Instance> {
    if inst.None? then inst else Some(inst.value.(run := SettleRun(inst.value.run, event)))
  }

  /** The event happens, or there is nothing for it to change. */
  predicate Attends(s: State, round: Round, event: Event) {
    round == Await(event) || SettleInst(s.w.inst, event) == s.w.inst
  }

  ghost predicate ReadsAfter(states: History, rounds: Schedule, k: nat) {
    exists j: nat :: j >= k && Reads(states(j), rounds(j))
  }

  ghost predicate AttendsAfter(states: History, rounds: Schedule, k: nat, event: Event) {
    exists j: nat :: j >= k && Attends(states(j), rounds(j), event)
  }

  /**
   Reconciles keep coming, and again and again one reads a usable version; and nothing that can settle
   is put off for ever.
   */
  ghost predicate Fair(states: History, rounds: Schedule) {
    && (forall k: nat :: ReadsAfter(states, rounds, k))
    && (forall k: nat, event :: Settling(event) ==> AttendsAfter(states, rounds, k, event))
  }

  ghost predicate Onwards(spec: Spec, s: State, s': State) {
    && Resting(s) && Resting(s') && Rank(spec, s'.w) <= Rank(spec, s.w)
    && (Rank(spec, s'.w) == Rank(spec, s.w) ==> s'.w.inst == s.w.inst)
  }

  lemma NextState(spec: Spec, states: History, rounds: Schedule, k: nat)
    requires IsHistory(spec, states, rounds) && states(k).w.log != []
    ensures MaySettle(rounds(k)) && states(k + 1) == Play(spec, states(k), rounds(k))
  {
    assert states(k + 1) == Play(spec, states(k), rounds(k));
  }

  lemma NextRests(spec: Spec, states: History, rounds: Schedule, k: nat)
    requires IsHistory(spec, states, rounds) && Resting(states(k))
    ensures Onwards(spec, states(k), states(k + 1))
  {
    NextState(spec, states, rounds, k);
    RoundsNeverRegress(spec, states(k), rounds(k));
  }

  /** From round k to round m nothing regresses, and while the measure stays the instance does. */
  lemma {:induction false} Monotone(spec: Spec, states: History, rounds: Schedule, k: nat, m: nat)
    requires IsHistory(spec, states, rounds) && Resting(states(k)) && k <= m
    ensures Onwards(spec, states(k), states(m))
    decreases m - k
  {
    if k < m {
      Monotone(spec, states, rounds, k, m - 1);
      NextRests(spec, states, rounds, m - 1);
    }
  }

  /** If s could settle, then a round that attends to it takes a later state s' further than s. */
  lemma SettlingTakesForward(spec: Spec, s: State, s': State, round: Round, event: Event)
    requires Onwards(spec, s, s') && MaySettle(round)
    requires Settling(event) && SettleInst(s.w.inst, event) != s.w.inst && Attends(s', round, event)
    ensures Rank(spec, Play(spec, s', round).w) < Rank(spec, s.w)
  {
    RoundsNeverRegress(spec, s', round);
    SettlingDecreases(spec, s'.w, event);
  }

  /** If s had to be reconciled, then a usable read takes a later state s' further than s. */
  lemma ReadingTakesForward(spec: Spec, s: State, s': State, round: Round)
    requires Onwards(spec, s, s') && !CanSettle(s.w.inst) && Rank(spec, s.w) > 0 && Reads(s', round)
    ensures Rank(spec, Play(spec, s', round).w) < Rank(spec, s.w)
  {
    ReconcileAdvances(spec, s', round.version);
    RoundsNeverRegress(spec, s', round);
    RankZeroIsConverged(spec, s'.w);
  }

  /** The settling that fairness owes a state in which it is possible. */
  lemma OwedSettling(spec: Spec, states: History, rounds: Schedule, k: nat, event: Event) returns (j: nat)
    requires IsHistory(spec, states, rounds) && Fair(states, rounds) && Resting(states(k))
    requires Settling(event) && SettleInst(states(k).w.inst, event) != states(k).w.inst
    ensures j > k && Resting(states(j)) && Rank(spec, states(j).w) < Rank(spec, states(k).w)
  {
    assert AttendsAfter(states, rounds, k, event);
    var i: nat :| i >= k && Attends(states(i), rounds(i), event);
    j := i + 1;
    Monotone(spec, states, rounds, k, i);
    NextState(spec, states, rounds, i);
    NextRests(spec, states, rounds, i);
    SettlingTakesForward(spec, states(k), states(i), rounds(i), event);
  }

  /** The reconcile that fairness owes a state in which nothing can settle. */
  lemma OwedReconcile(spec: Spec, states: History, rounds: Schedule, k: nat) returns (j: nat)
    requires IsHistory(spec, states, rounds) && Fair(states, rounds) && Resting(states(k))
    requires !CanSettle(states(k).w.inst) && Rank(spec, states(k).w) > 0
    ensures j > k && Resting(states(j)) && Rank(spec, states(j).w) < Rank(spec, states(k).w)
  {
    assert ReadsAfter(states, rounds, k);
    var i: nat :| i >= k && Reads(states(i), rounds(i));
    j := i + 1;
    Monotone(spec, states, rounds, k, i);
    NextState(spec, states, rounds, i);
    NextRests(spec, states, rounds, i);
    ReadingTakesForward(spec, states(k), states(i), rounds(i));
  }

  lemma {:induction false} FairReachesZero(spec: Spec, states: History, rounds: Schedule, k: nat) returns (n: nat)
    requires IsHistory(spec, states, rounds) && Fair(states, rounds) && Resting(states(k))
    ensures n >= k && Resting(states(n)) && Rank(spec, states(n).w) == 0
    decreases Rank(spec, states(k).w)
  {
    n := k;
    if Rank(spec, states(k).w) > 0 {
      if CanSettle(states(k).w.inst) {
        var event := CanSettleMeansSome(states(k).w);
        n := OwedSettling(spec, states, rounds, k, event);
      } else {
        n := OwedReconcile(spec, states, rounds, k);
      }
      n := FairReachesZero(spec, states, rounds, n);
    }
  }

  /**
   Every fair schedule converges: from some round on the instance has size and power state for good, and
   usable reads return nil.
   */
  lemma FairSchedulesConverge(spec: Spec, states: History, rounds: Schedule) returns (n: nat)
    requires IsHistory(spec, states, rounds) && Fair(states, rounds) && Resting(states(0))
    ensures forall m: nat :: m >= n ==> Converged(spec, states(m).w)
    ensures forall m: nat :: m >= n && Reads(states(m), rounds(m)) ==> states(m + 1).pc == Idle(Nil)
  {
    n := FairReachesZero(spec, states, rounds, 0);
    forall m: nat | m >= n
      ensures Converged(spec, states(m).w)
    {
      Monotone(spec, states, rounds, n, m);
      RankZeroIsConverged(spec, states(m).w);
    }
    forall m: nat | m >= n && Reads(states(m), rounds(m))
      ensures states(m + 1).pc == Idle(Nil)
    {
      Monotone(spec, states, rounds, n, m);
      NextState(spec, states, rounds, m);
      ReconcileAdvances(spec, states(m), rounds(m).version);
    }
  }

  // --- Deletion ends ---

  function DeletionRank(w: World): nat
    requires w.log != []
  {
    if Last(w).gone then 0
    else if w.inst.Some? then 2 + RunRank(w.inst.value.run)
    else 1
  }

  /** Once the instance is gone the same reconcile goes through to the end. */
  lemma DeletionFinishes(spec: Spec, s: State, me: Copy)
    requires Inv(spec, s) && s.w.inst.None? && s.pc == AfterInstanceGone(spec, me) && s.floor == |s.w.log| - 1
    ensures Last(Finish(spec, s).w).gone
  {
    var s1 := Unroll(spec, s);
    if !s1.pc.Idle? {
      assert s1.pc == RemoveFinalizer(me);
      var s2 := Unroll(spec, s1);
      assert s2.pc.Idle?;
    }
  }

  /** A version that shows the deletion is the newest until the object is gone. */
  lemma DeletedIsNewest(spec: Spec, s: State, version: nat)
    requires Inv(spec, s) && !Last(s.w).gone && version < |s.w.log| && s.w.log[version].deleting
    ensures version == |s.w.log| - 1
  {
  }

  /**
   A fault-free reconcile of any version that shows the deletion, while the object is still there, comes
   closer to its end or waits for Oxide.
   */
  lemma DeletionAdvances(spec: Spec, s: State, version: nat)
    requires Inv(spec, s) && s.pc.Idle? && !Last(s.w).gone
    requires s.floor <= version < |s.w.log| && s.w.log[version].deleting
    requires s.w.inst.Some? ==> !s.w.inst.value.run.Destroyed?
    ensures var s' := Reconcile(spec, s, version);
            DeletionRank(s'.w) < DeletionRank(s.w) || (s'.w == s.w && CanSettle(s.w.inst))
  {
    DeletedIsNewest(spec, s, version);
    var me := Copy(version, Last(s.w));
    var s1 := Step(spec, s, Wake(version));
    assert s1 == State(s.w, version, LookToDelete(me));
    WakeKeepsInv(spec, s, version);
    OxideCallKeepsInv(spec, s1, Clean);
    var s2 := Unroll(spec, s1);
    if s.w.inst.None? {
      DeletionFinishes(spec, s2, me);
    } else {
      StopsOrRemoves(spec, s2, me);
    }
  }

  /** With the instance viewed: delete it and go through to the end, or stop it, or wait. */
  lemma StopsOrRemoves(spec: Spec, s: State, me: Copy)
    requires Inv(spec, s) && s.floor == |s.w.log| - 1 && Last(s.w).deleting && !Last(s.w).gone
    requires s.w.inst.Some? && !s.w.inst.value.run.Destroyed?
    requires s.pc == AfterLookToDelete(spec, me, Got(s.w.inst.value))
    ensures var s' := Finish(spec, s);
            DeletionRank(s'.w) < DeletionRank(s.w) || (s'.w == s.w && CanSettle(s.w.inst))
  {
    if !s.pc.Idle? {
      OxideCallKeepsInv(spec, s, Clean);
      var s1 := Unroll(spec, s);
      if s.pc.Remove? {
        assert s1 == State(s.w.(inst := None), s.floor, AfterInstanceGone(spec, me));
        DeletionFinishes(spec, s1, me);
      }
    }
  }

  /** Between reconciles once one has read the deletion. */
  predicate DeletionRests(spec: Spec, s: State) {
    Inv(spec, s) && s.pc.Idle? && s.w.log[s.floor].deleting && (s.w.inst.Some? ==> !s.w.inst.value.run.Destroyed?)
  }

  ghost predicate DeletionOnwards(spec: Spec, s: State, s': State) {
    && DeletionRests(spec, s) && DeletionRests(spec, s') && DeletionRank(s'.w) <= DeletionRank(s.w)
    && (DeletionRank(s'.w) == DeletionRank(s.w) ==> s'.w.inst == s.w.inst)
  }

  lemma {:induction false} FinishExtendsLog(spec: Spec, s: State)
    requires s.w.log != []
    ensures var s' := Finish(spec, s);
            s'.floor == s.floor && s.w.log <= s'.w.log
    decreases Phase(s.pc)
  {
    if !s.pc.Idle? {
      CallsDecrease(spec, s.pc, Serve(spec, s.w, CallAt(spec, s.pc), Clean).1);
      FinishExtendsLog(spec, CleanStep(spec, s));
    }
  }

  /** What a reconcile leaves of the object: what was stored stays, so an object that was gone is. */
  lemma ReconcileKeepsObject(spec: Spec, s: State, version: nat)
    requires Inv(spec, s) && s.pc.Idle? && s.floor <= version < |s.w.log|
    ensures var s' := Reconcile(spec, s, version);
            && Inv(spec, s') && s'.floor == version && s.w.log <= s'.w.log
            && (Last(s.w).gone ==> Last(s'.w).gone)
  {
    var s1, s' := Step(spec, s, Wake(version)), Reconcile(spec, s, version);
    FinishExtendsLog(spec, s1);
    var acts := ReconcileIsRun(spec, s, version);
    RunKeepsInv(spec, s, acts);
    var last := |s.w.log| - 1;
    assert s'.w.log[last] == Last(s.w);
    assert last < |s'.w.log| - 1 ==> Older(s'.w.log[last], Last(s'.w));
  }

  /** Once a reconcile has read the deletion, every version the cache may still serve shows it. */
  lemma DeletionIsRead(spec: Spec, s: State, version: nat)
    requires Inv(spec, s) && s.w.log[s.floor].deleting && s.floor <= version < |s.w.log|
    ensures s.w.log[version].deleting
  {
    assert s.floor < version ==> Older(s.w.log[s.floor], s.w.log[version]);
  }

  lemma DeletionPollOnwards(spec: Spec, s: State, version: nat)
    requires DeletionRests(spec, s) && s.floor <= version < |s.w.log|
    ensures DeletionOnwards(spec, s, Reconcile(spec, s, version))
    ensures !Last(s.w).gone && !CanSettle(s.w.inst) ==> DeletionRank(Reconcile(spec, s, version).w) < DeletionRank(s.w)
  {
    DeletionIsRead(spec, s, version);
    ReconcileKeepsObject(spec, s, version);
    if !Last(s.w).gone {
      DeletionAdvances(spec, s, version);
    }
    KeptDeletionOnwards(spec, s, Reconcile(spec, s, version), version);
  }

  lemma KeptDeletionOnwards(spec: Spec, s: State, s': State, version: nat)
    requires DeletionRests(spec, s) && Inv(spec, s') && s'.pc.Idle?
    requires s.floor <= version < |s.w.log| && s'.floor == version && s.w.log <= s'.w.log && s.w.log[version].deleting
    requires if Last(s.w).gone then Last(s'.w).gone else DeletionRank(s'.w) < DeletionRank(s.w) || s'.w == s.w
    ensures DeletionOnwards(spec, s, s')
  {
  }

  lemma DeletionRoundOnwards(spec: Spec, s: State, round: Round)
    requires DeletionRests(spec, s) && MaySettle(round)
    ensures DeletionOnwards(spec, s, Play(spec, s, round))
  {
    match round
    case Poll(version) =>
      if s.floor <= version < |s.w.log| {
        DeletionPollOnwards(spec, s, version);
      } else {
        assert Step(spec, s, Wake(version)) == s;
      }
    case Await(event) =>
      StepKeepsInv(spec, s, Env(event));
  }

  lemma {:induction false} DeletionMonotone(spec: Spec, states: History, rounds: Schedule, k: nat, m: nat)
    requires IsHistory(spec, states, rounds) && DeletionRests(spec, states(k)) && k <= m
    ensures DeletionOnwards(spec, states(k), states(m))
    decreases m - k
  {
    if k < m {
      DeletionMonotone(spec, states, rounds, k, m - 1);
      NextState(spec, states, rounds, m - 1);
      DeletionRoundOnwards(spec, states(m - 1), rounds(m - 1));
    }
  }

  lemma DeletionSettles(spec: Spec, s: State, s': State, round: Round, event: Event)
    requires DeletionOnwards(spec, s, s') && MaySettle(round) && !Last(s.w).gone
    requires Settling(event) && SettleInst(s.w.inst, event) != s.w.inst && Attends(s', round, event)
    ensures DeletionRank(Play(spec, s', round).w) < DeletionRank(s.w)
  {
    DeletionRoundOnwards(spec, s', round);
  }

  lemma DeletionReads(spec: Spec, s: State, s': State, round: Round)
    requires DeletionOnwards(spec, s, s') && !CanSettle(s.w.inst) && !Last(s.w).gone && Reads(s', round)
    ensures DeletionRank(Play(spec, s', round).w) < DeletionRank(s.w)
  {
    DeletionPollOnwards(spec, s', round.version);
  }

  lemma OwedDeletionSettling(spec: Spec, states: History, rounds: Schedule, k: nat, event: Event) returns (j: nat)
    requires IsHistory(spec, states, rounds) && Fair(states, rounds)
    requires DeletionRests(spec, states(k)) && !Last(states(k).w).gone
    requires Settling(event) && SettleInst(states(k).w.inst, event) != states(k).w.inst
    ensures j > k && DeletionRests(spec, states(j)) && DeletionRank(states(j).w) < DeletionRank(states(k).w)
  {
    assert AttendsAfter(states, rounds, k, event);
    var i: nat :| i >= k && Attends(states(i), rounds(i), event);
    j := i + 1;
    DeletionMonotone(spec, states, rounds, k, i);
    NextState(spec, states, rounds, i);
    DeletionRoundOnwards(spec, states(i), rounds(i));
    DeletionSettles(spec, states(k), states(i), rounds(i), event);
  }

  lemma OwedDeletionReconcile(spec: Spec, states: History, rounds: Schedule, k: nat) returns (j: nat)
    requires IsHistory(spec, states, rounds) && Fair(states, rounds)
    requires DeletionRests(spec, states(k)) && !Last(states(k).w).gone && !CanSettle(states(k).w.inst)
    ensures j > k && DeletionRests(spec, states(j)) && DeletionRank(states(j).w) < DeletionRank(states(k).w)
  {
    assert ReadsAfter(states, rounds, k);
    var i: nat :| i >= k && Reads(states(i), rounds(i));
    j := i + 1;
    DeletionMonotone(spec, states, rounds, k, i);
    NextState(spec, states, rounds, i);
    DeletionRoundOnwards(spec, states(i), rounds(i));
    DeletionReads(spec, states(k), states(i), rounds(i));
  }

  /**
   Once a reconcile has read the deletion, every fair schedule ends with the object gone, and instance and
   boot disk before it.
   */
  lemma {:induction false} FairSchedulesDelete(spec: Spec, states: History, rounds: Schedule, k: nat) returns (n: nat)
    requires IsHistory(spec, states, rounds) && Fair(states, rounds) && DeletionRests(spec, states(k))
    ensures n >= k && states(n).w.log != [] && Last(states(n).w).gone && Nothing(states(n).w)
    decreases DeletionRank(states(k).w)
  {
    n := k;
    if !Last(states(k).w).gone {
      if CanSettle(states(k).w.inst) {
        var event := CanSettleMeansSome(states(k).w);
        n := OwedDeletionSettling(spec, states, rounds, k, event);
      } else {
        n := OwedDeletionReconcile(spec, states, rounds, k);
      }
      n := FairSchedulesDelete(spec, states, rounds, n);
    }
  }
}
