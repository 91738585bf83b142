/**
 Imports over schedules of reconciles and settling, each reconcile reading any version the cache may
 serve: how many rounds can act, that some schedule finishes, and that every fair one does.
 */
module ImageSchedules {
  import opened Common
  import opened ImportChunks
  import opened OxideRemote
  import opened ImageMachine
  import opened ImageInvariant
  import opened ImageVersions
  import opened ImageProgress

  /** One thing that happens: a reconcile of a version, or Oxide settling. */
  datatype Round = Poll(version: nat) | Await(event: Event)

  /** A version that the cache cannot serve is not read. */
  function Play(c: Config, body: Stream, s: State, round: Round): (s': State)
    requires Fits(c) && s.w.log != []
    ensures s'.w.log != []
  {
    match round
    case Poll(version) => Reconcile(c, body, s, version)
    case Await(event) => Step(c, s, Env(event))
  }

  predicate MaySettle(round: Round) {
    round.Await? ==> Settling(round.event)
  }

  /** Between reconciles of an import that goes well. */
  ghost predicate Resting(c: Config, body: Stream, s: State) {
    FullInv(c, s) && Healthy(c, body, s.w) && s.pc.Idle?
  }

  /** No round takes the import back, and one that changes anything in Oxide takes it forward. */
  lemma RoundsNeverRegress(c: Config, body: Stream, s: State, round: Round)
    requires Resting(c, body, s) && MaySettle(round)
    ensures var s' := Play(c, body, s, round);
            && Resting(c, body, s') && Rank(c, s'.w) <= Rank(c, s.w)
            && (s'.w.ox != s.w.ox ==> Rank(c, s'.w) < Rank(c, s.w))
  {
    match round
    case Poll(version) =>
      RankZeroIsDone(c, s.w);
      if s.floor <= version < |s.w.log| {
        ReconcileAdvances(c, body, s, version);
        RankZeroIsDone(c, Play(c, body, s, round).w);
      } else {
        assert Step(c, s, Begin(version)) == s;
      }
    case Await(event) =>
      StepKeepsFullInv(c, s, Env(event));
      SettlingDecreases(c, body, s, event);
  }

  // --- Finite schedules ---

  function PlayAll(c: Config, body: Stream, s: State, rounds: seq<Round>): (s': State)
    requires Fits(c) && s.w.log != []
    ensures s'.w.log != []
    decreases |rounds|
  {
    if rounds == [] then s else Play(c, body, PlayAll(c, body, s, rounds[..|rounds| - 1]), rounds[|rounds| - 1])
  }

  /** The rounds that changed something in Oxide or the recorded ID, as the measure sees it. */
  function Acting(c: Config, body: Stream, s: State, rounds: seq<Round>): (n: nat)
    requires Fits(c) && s.w.log != []
    ensures n <= |rounds|
    decreases |rounds|
  {
    if rounds == [] then 0 else
      var front := rounds[..|rounds| - 1];
      var before := PlayAll(c, body, s, front);
      var after := Play(c, body, before, rounds[|rounds| - 1]);
      Acting(c, body, s, front) + (if Rank(c, after.w) == Rank(c, before.w) then 0 else 1)
  }

  predicate AllSettling(rounds: seq<Round>) {
    forall i :: 0 <= i < |rounds| ==> MaySettle(rounds[i])
  }

  /**
   Any schedule of fault-free reconciles and settling: at most Rank rounds act, and the measure pays for
   each of them.
   */
  lemma {:induction false} ActingRoundsAreBounded(c: Config, body: Stream, s: State, rounds: seq<Round>)
    requires Resting(c, body, s) && AllSettling(rounds)
    ensures var s' := PlayAll(c, body, s, rounds);
            Resting(c, body, s') && Acting(c, body, s, rounds) + Rank(c, s'.w) <= Rank(c, s.w)
    decreases |rounds|
  {
    if rounds != [] {
      var front, last := rounds[..|rounds| - 1], rounds[|rounds| - 1];
      ActingRoundsAreBounded(c, body, s, front);
      RoundsNeverRegress(c, body, PlayAll(c, body, s, front), last);
    }
  }

  lemma PlayIsActions(c: Config, body: Stream, s: State, round: Round) returns (acts: seq<Action>)
    requires Fits(c) && s.w.log != []
    ensures OnlyBody(acts, body) && Exec(c, s, acts) == Play(c, body, s, round)
  {
    match round
    case Poll(version) => acts := ReconcileIsRun(c, body, s, version);
    case Await(event) =>
      acts := [Env(event)];
      assert acts[..0] == [];
  }

  /** A schedule of rounds is a run. */
  lemma {:induction false} PlayIsRun(c: Config, body: Stream, s: State, rounds: seq<Round>) returns (acts: seq<Action>)
    requires Fits(c) && s.w.log != []
    ensures OnlyBody(acts, body) && Exec(c, s, acts) == PlayAll(c, body, s, rounds)
    decreases |rounds|
  {
    if rounds == [] {
      acts := [];
    } else {
      var front := rounds[..|rounds| - 1];
      var before := PlayIsRun(c, body, s, front);
      var now := PlayIsActions(c, body, PlayAll(c, body, s, front), rounds[|rounds| - 1]);
      acts := before + now;
      ExecAppend(c, s, before, now);
    }
  }

  /** What to do next: let Oxide settle while it can, and reconcile the newest version otherwise. */
  lemma NextRound(c: Config, body: Stream, s: State) returns (round: Round)
    requires Resting(c, body, s)
    ensures MaySettle(round)
    ensures var s' := Play(c, body, s, round);
            Rank(c, s'.w) < Rank(c, s.w) || (round.Poll? && Done(c, s'.w) && s'.pc == Idle(Nil))
  {
    CanSettleMeansSome(c, s);
    if CanSettle(s.w.ox) {
      var event :| Settling(event) && Settle(s.w, event) != s.w;
      SettlingDecreases(c, body, s, event);
      round := Await(event);
    } else {
      round := Poll(Newest(s.w));
      ReconcileAdvances(c, body, s, Newest(s.w));
    }
  }

  /** From any healthy state an import can end: within Rank + 1 rounds a reconcile returns nil with everything done. */
  lemma {:induction false} ImportCompletes(c: Config, body: Stream, s: State) returns (rounds: seq<Round>)
    requires Resting(c, body, s)
    ensures AllSettling(rounds) && |rounds| <= Rank(c, s.w) + 1
    ensures Done(c, PlayAll(c, body, s, rounds).w) && PlayAll(c, body, s, rounds).pc == Idle(Nil)
    decreases Rank(c, s.w)
  {
    var first := NextRound(c, body, s);
    RoundsNeverRegress(c, body, s, first);
    var s1 := Play(c, body, s, first);
    assert [first][..0] == [];
    if Rank(c, s1.w) < Rank(c, s.w) {
      var rest := ImportCompletes(c, body, s1);
      rounds := [first] + rest;
      PlayAppend(c, body, s, [first], rest);
    } else {
      rounds := [first];
    }
  }

  lemma {:induction false} PlayAppend(c: Config, body: Stream, s: State, a: seq<Round>, b: seq<Round>)
    requires Fits(c) && s.w.log != []
    ensures PlayAll(c, body, s, a + b) == PlayAll(c, body, PlayAll(c, body, s, a), b)
    decreases |b|
  {
    if b == [] {
      assert a + b == a;
    } else {
      var b0 := b[..|b| - 1];
      assert (a + b)[..|a + b| - 1] == a + b0;
      PlayAppend(c, body, s, a, b0);
    }
  }

  // --- Endless schedules ---

  type Schedule = nat -> Round

  type History = nat -> State

  /** states(k) is the state before round k. */
  ghost predicate IsHistory(c: Config, body: Stream, states: History, rounds: Schedule) {
    && Resting(c, body, states(0))
    && forall k: nat {:trigger Play(c, body, states(k), rounds(k))} ::
         states(k).w.log != [] && MaySettle(rounds(k)) && states(k + 1) == Play(c, body, states(k), rounds(k))
  }

  /** A reconcile that is not stuck with a version from before the finalizer. */
  predicate Reads(s: State, round: Round) {
    round.Poll? && Usable(s, round.version)
  }

  /** The event happens, or there is nothing for it to change. */
  predicate Attends(s: State, round: Round, event: Event) {
    round == Await(event) || SettleOxide(s.w.ox, event) == s.w.ox
  }

  ghost predicate ReadsAfter(states: History, rounds: Schedule, k: nat) {
    exists j: nat :: j >= k && Reads(states(j), rounds(j))
  }

  ghost predicate AttendsAfter(states: History, rounds: Schedule, k: nat, event: Event) {
    exists j: nat :: j >= k && Attends(states(j), rounds(j), event)
  }

  /**
   Reconciles keep coming, and again and again one reads a usable version; and nothing that can settle
   is put off for ever.
   */
  ghost predicate Fair(states: History, rounds: Schedule) {
    && (forall k: nat :: ReadsAfter(states, rounds, k))
    && (forall k: nat, event :: Settling(event) ==> AttendsAfter(states, rounds, k, event))
  }

  /** What one state of a history has to do with a later one. */
  ghost predicate Onwards(c: Config, body: Stream, s: State, s': State) {
    && Resting(c, body, s) && Resting(c, body, s') && Rank(c, s'.w) <= Rank(c, s.w)
    && (Rank(c, s'.w) == Rank(c, s.w) ==> s'.w.ox == s.w.ox)
  }

  lemma NextRests(c: Config, body: Stream, states: History, rounds: Schedule, k: nat)
    requires IsHistory(c, body, states, rounds) && Resting(c, body, states(k))
    ensures Onwards(c, body, states(k), states(k + 1))
  {
    assert states(k + 1) == Play(c, body, states(k), rounds(k));
    RoundsNeverRegress(c, body, states(k), rounds(k));
  }

  lemma NextState(c: Config, body: Stream, states: History, rounds: Schedule, k: nat)
    requires IsHistory(c, body, states, rounds) && Resting(c, body, states(k))
    ensures MaySettle(rounds(k)) && states(k + 1) == Play(c, body, states(k), rounds(k))
  {
    assert states(k + 1) == Play(c, body, states(k), rounds(k));
  }

  lemma {:induction false} AlwaysResting(c: Config, body: Stream, states: History, rounds: Schedule, k: nat)
    requires IsHistory(c, body, states, rounds)
    ensures Resting(c, body, states(k))
    decreases k
  {
    if k > 0 {
      AlwaysResting(c, body, states, rounds, k - 1);
      NextRests(c, body, states, rounds, k - 1);
    }
  }

  lemma OnwardsFurther(c: Config, body: Stream, s: State, s': State, s'': State)
    requires Onwards(c, body, s, s') && Onwards(c, body, s', s'')
    ensures Onwards(c, body, s, s'')
  {
  }

  /** From round k to round m nothing regresses, and while the measure stays Oxide does. */
  lemma {:induction false} Monotone(c: Config, body: Stream, states: History, rounds: Schedule, k: nat, m: nat)
    requires IsHistory(c, body, states, rounds) && k <= m
    ensures Onwards(c, body, states(k), states(m))
    decreases m - k
  {
    AlwaysResting(c, body, states, rounds, k);
    if k < m {
      Monotone(c, body, states, rounds, k, m - 1);
      NextRests(c, body, states, rounds, m - 1);
      OnwardsFurther(c, body, states(k), states(m - 1), states(m));
    }
  }

  /** If s could settle, then a round that attends to it takes a later state s' further than s. */
  lemma SettlingTakesForward(c: Config, body: Stream, s: State, s': State, round: Round, event: Event)
    requires Onwards(c, body, s, s') && MaySettle(round)
    requires Settling(event) && SettleOxide(s.w.ox, event) != s.w.ox && Attends(s', round, event)
    ensures Rank(c, Play(c, body, s', round).w) < Rank(c, s.w)
  {
    RoundsNeverRegress(c, body, s', round);
    SettlingDecreases(c, body, s', event);
  }

  /** If s had to be reconciled, then a usable read takes a later state s' further than s. */
  lemma ReadingTakesForward(c: Config, body: Stream, s: State, s': State, round: Round)
    requires Onwards(c, body, s, s') && !CanSettle(s.w.ox) && Rank(c, s.w) > 0 && Reads(s', round)
    ensures Rank(c, Play(c, body, s', round).w) < Rank(c, s.w)
  {
    ReconcileAdvances(c, body, s', round.version);
    RoundsNeverRegress(c, body, s', round);
    RankZeroIsDone(c, s'.w);
  }

  /** The settling that fairness owes a state in which it is possible. */
  lemma OwedSettling(c: Config, body: Stream, states: History, rounds: Schedule, k: nat, event: Event) returns (j: nat)
    requires IsHistory(c, body, states, rounds) && Fair(states, rounds) && Resting(c, body, states(k))
    requires Settling(event) && SettleOxide(states(k).w.ox, event) != states(k).w.ox
    ensures j > k && Resting(c, body, states(j)) && Rank(c, states(j).w) < Rank(c, states(k).w)
  {
    assert AttendsAfter(states, rounds, k, event);
    var i: nat :| i >= k && Attends(states(i), rounds(i), event);
    j := i + 1;
    Monotone(c, body, states, rounds, k, i);
    NextRests(c, body, states, rounds, i);
    NextState(c, body, states, rounds, i);
    SettlingTakesForward(c, body, states(k), states(i), rounds(i), event);
  }

  /** The reconcile that fairness owes a state in which nothing can settle. */
  lemma OwedReconcile(c: Config, body: Stream, states: History, rounds: Schedule, k: nat) returns (j: nat)
    requires IsHistory(c, body, states, rounds) && Fair(states, rounds) && Resting(c, body, states(k))
    requires !CanSettle(states(k).w.ox) && Rank(c, states(k).w) > 0
    ensures j > k && Resting(c, body, states(j)) && Rank(c, states(j).w) < Rank(c, states(k).w)
  {
    assert ReadsAfter(states, rounds, k);
    var i: nat :| i >= k && Reads(states(i), rounds(i));
    j := i + 1;
    Monotone(c, body, states, rounds, k, i);
    NextRests(c, body, states, rounds, i);
    NextState(c, body, states, rounds, i);
    ReadingTakesForward(c, body, states(k), states(i), rounds(i));
  }

  lemma OwedRound(c: Config, body: Stream, states: History, rounds: Schedule, k: nat) returns (j: nat)
    requires IsHistory(c, body, states, rounds) && Fair(states, rounds) && Resting(c, body, states(k))
    requires Rank(c, states(k).w) > 0
    ensures j > k && Resting(c, body, states(j)) && Rank(c, states(j).w) < Rank(c, states(k).w)
  {
    CanSettleMeansSome(c, states(k));
    if CanSettle(states(k).w.ox) {
      var event :| Settling(event) && Settle(states(k).w, event) != states(k).w;
      j := OwedSettling(c, body, states, rounds, k, event);
    } else {
      j := OwedReconcile(c, body, states, rounds, k);
    }
  }

  lemma {:induction false} FairReachesZero(c: Config, body: Stream, states: History, rounds: Schedule, k: nat)
      returns (n: nat)
    requires IsHistory(c, body, states, rounds) && Fair(states, rounds) && Resting(c, body, states(k))
    ensures n >= k && Resting(c, body, states(n)) && Rank(c, states(n).w) == 0
    decreases Rank(c, states(k).w)
  {
    n := k;
    if Rank(c, states(k).w) > 0 {
      n := OwedRound(c, body, states, rounds, k);
      n := FairReachesZero(c, body, states, rounds, n);
    }
  }

  /**
   Every fair schedule finishes the import: from some round on everything is done for good, and every
   reconcile that reads a usable version returns nil.
   */
  lemma FairSchedulesFinish(c: Config, body: Stream, states: History, rounds: Schedule) returns (n: nat)
    requires IsHistory(c, body, states, rounds) && Fair(states, rounds)
    ensures forall m: nat :: m >= n ==> Done(c, states(m).w)
    ensures forall m: nat :: m >= n && Reads(states(m), rounds(m)) ==> states(m + 1).pc == Idle(Nil)
  {
    n := FairReachesZero(c, body, states, rounds, 0);
    forall m: nat | m >= n
      ensures Done(c, states(m).w)
    {
      Monotone(c, body, states, rounds, n, m);
      RankZeroIsDone(c, states(m).w);
    }
    forall m: nat | m >= n && Reads(states(m), rounds(m))
      ensures states(m + 1).pc == Idle(Nil)
    {
      Monotone(c, body, states, rounds, n, m);
      NextState(c, body, states, rounds, m);
      NilWhenDone(c, body, states(m), rounds(m));
    }
  }

  lemma NilWhenDone(c: Config, body: Stream, s: State, round: Round)
    requires Resting(c, body, s) && Done(c, s.w) && Reads(s, round)
    ensures Play(c, body, s, round).pc == Idle(Nil)
  {
    RankZeroIsDone(c, s.w);
    RoundsNeverRegress(c, body, s, round);
    RankZeroIsDone(c, Play(c, body, s, round).w);
    ReconcileAdvances(c, body, s, round.version);
  }
}
