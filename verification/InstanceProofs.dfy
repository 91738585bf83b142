/** What every run of the instance controller keeps, and that it converges. */
module InstanceProofs {
  import opened Common
  import opened InstanceMachine

  // --- Resizing ---

  /** A resize request, which replaces every field, leaves every field but the two of the size as it was. */
  lemma ResizeKeepsTheRest(spec: Spec, cur: Instance)
    ensures Updated(cur, UpdateFor(spec, cur)) == cur.(ncpus := spec.ncpus, memory := spec.memory)
  {
  }

  // --- Deletion ---

  predicate Nothing(w: World) {
    w.inst.None? && !w.bootDisk
  }

  /**
   What an older version of the object says of a later one: a finalizer stays until the object goes, and
   only that follows a deletion.
   */
  predicate Older(was: Object, o: Object) {
    !was.gone && (was.deleting ==> o.deleting && o.gone) && (was.finalizer ==> o.finalizer || o.gone)
  }

  predicate LogInv(s: State) {
    && s.floor < |s.w.log|
    && (forall i, j :: 0 <= i < j < |s.w.log| ==> Older(s.w.log[i], s.w.log[j]))
    && (Last(s.w).gone ==> forall i :: s.floor <= i < |s.w.log| && s.w.log[i].finalizer ==> s.w.log[i].deleting)
  }

  predicate WorldInv(spec: Spec, w: World)
    requires w.log != []
  {
    var o := Last(w);
    && (!spec.createsBootDisk ==> !w.bootDisk)
    && (o.gone ==> o.deleting && !o.finalizer) && (o.deleting ==> o.finalizer || o.gone)
    && (!o.finalizer ==> Nothing(w))
  }

  /** The copy being deleted is the newest the cache has served. */
  predicate Deleting(s: State, me: Copy) {
    me.version == s.floor < |s.w.log| && me.obj == s.w.log[s.floor] && me.obj.deleting && me.obj.finalizer
  }

  predicate PcInv(s: State)
    requires s.w.log != []
  {
    match s.pc
    case Idle(_) => true
    case AddFinalizer(me) => me.version < |s.w.log| && me.obj == s.w.log[me.version] && !me.obj.finalizer
        && !me.obj.deleting
    case LookToDelete(me) => Deleting(s, me)
    case Remove(me) => Deleting(s, me)
    case RemoveBootDisk(me) => Deleting(s, me) && s.w.inst.None?
    case RemoveFinalizer(me) => Deleting(s, me) && Nothing(s.w)
    case HaltToDelete => Last(s.w).deleting
    case _ => Last(s.w).finalizer
  }

  /** Every program point of the controller, whatever the cache serves and whoever else changes run states. */
  predicate Inv(spec: Spec, s: State) {
    LogInv(s) && WorldInv(spec, s.w) && PcInv(s)
  }

  lemma StoreKeepsLog(s: State, o: Object)
    requires LogInv(s) && !Last(s.w).gone && Older(Last(s.w), o)
    requires o.gone ==> forall i :: s.floor <= i < |s.w.log| && s.w.log[i].finalizer ==> s.w.log[i].deleting
    requires o.gone ==> !o.finalizer
    ensures LogInv(s.(w := Store(s.w, o)))
  {
    var log := Store(s.w, o).log;
    forall i, j | 0 <= i < j < |log|
      ensures Older(log[i], log[j])
    {
      if j == |s.w.log| && i < |s.w.log| - 1 {
        assert Older(log[i], Last(s.w));
      }
    }
  }

  lemma UserKeepsInv(spec: Spec, s: State)
    requires Inv(spec, s)
    ensures Inv(spec, Step(spec, s, Env(UserDeletes)))
  {
    var o := Last(s.w);
    if !o.deleting && !o.gone {
      StoreKeepsLog(s, o.(deleting := true, gone := !o.finalizer));
    }
  }

  lemma WakeKeepsInv(spec: Spec, s: State, version: nat)
    requires Inv(spec, s)
    ensures Inv(spec, Step(spec, s, Wake(version)))
  {
    if s.pc.Idle? && s.floor <= version < |s.w.log| {
      assert version < |s.w.log| - 1 ==> Older(s.w.log[version], Last(s.w));
    }
  }

  /** The finalizer's calls, which store a new version of the object. */
  lemma ObjectCallKeepsInv(spec: Spec, s: State, fault: Fault)
    requires Inv(spec, s) && (s.pc.AddFinalizer? || s.pc.RemoveFinalizer?)
    ensures Inv(spec, Step(spec, s, Next(fault)))
  {
    var o := Last(s.w);
    if !o.gone && s.pc.me.version == |s.w.log| - 1 {
      StoreKeepsLog(s, o.(finalizer := s.pc.AddFinalizer?, gone := o.deleting && s.pc.RemoveFinalizer?));
    }
  }

  lemma DeletingCallKeepsInv(spec: Spec, s: State, fault: Fault)
    requires Inv(spec, s) && (s.pc.LookToDelete? || s.pc.HaltToDelete? || s.pc.Remove? || s.pc.RemoveBootDisk?)
    ensures Inv(spec, Step(spec, s, Next(fault)))
  {
  }

  lemma ConvergingCallKeepsInv(spec: Spec, s: State, fault: Fault)
    requires Inv(spec, s) && (s.pc.Look? || s.pc.Make? || s.pc.Halt? || s.pc.Resize? || s.pc.Launch? || s.pc.ReadIps?)
    ensures Inv(spec, Step(spec, s, Next(fault)))
  {
  }

  lemma OxideCallKeepsInv(spec: Spec, s: State, fault: Fault)
    requires Inv(spec, s) && !s.pc.AddFinalizer? && !s.pc.RemoveFinalizer?
    ensures Inv(spec, Step(spec, s, Next(fault)))
  {
    if s.pc.LookToDelete? || s.pc.HaltToDelete? || s.pc.Remove? || s.pc.RemoveBootDisk? {
      DeletingCallKeepsInv(spec, s, fault);
    } else if !s.pc.Idle? {
      ConvergingCallKeepsInv(spec, s, fault);
    }
  }

  lemma StepKeepsInv(spec: Spec, s: State, a: Action)
    requires Inv(spec, s)
    ensures Inv(spec, Step(spec, s, a))
  {
    match a
    case Env(event) =>
      if event.UserDeletes? {
        UserKeepsInv(spec, s);
      }
    case Wake(version) => WakeKeepsInv(spec, s, version);
    case Next(fault) =>
      if s.pc.AddFinalizer? || s.pc.RemoveFinalizer? {
        ObjectCallKeepsInv(spec, s, fault);
      } else {
        OxideCallKeepsInv(spec, s, fault);
      }
    case Crash =>
  }

  lemma {:induction false} RunKeepsInv(spec: Spec, s: State, acts: seq<Action>)
    requires Inv(spec, s)
    ensures Inv(spec, Exec(spec, s, acts))
    decreases |acts|
  {
    if acts != [] {
      RunKeepsInv(spec, s, acts[..|acts| - 1]);
      StepKeepsInv(spec, Exec(spec, s, acts[..|acts| - 1]), acts[|acts| - 1]);
    }
  }

  /**
   In every run the finalizer comes before anything is created, and when the object is gone so are instance
   and boot disk.
   */
  lemma NothingOutlivesTheObject(spec: Spec, acts: seq<Action>)
    ensures var w := Exec(spec, Init(), acts).w;
            (!Last(w).finalizer || Last(w).gone) ==> Nothing(w)
  {
    RunKeepsInv(spec, Init(), acts);
  }

  /**
   What goes in one step: an instance only when stopped or failed, its boot disk only after it, the
   finalizer only after both.
   */
  predicate Ordered(w: World, w': World)
    requires w.log != [] && w'.log != []
  {
    && (w.inst.Some? && w'.inst.None? ==>
          (w.inst.value.run.Stopped? || w.inst.value.run.Failed?) && Last(w).deleting && w'.bootDisk == w.bootDisk)
    && (w.bootDisk && !w'.bootDisk ==> w.inst.None? && Last(w).deleting)
    && (Last(w).finalizer && !Last(w').finalizer ==> Nothing(w))
  }

  lemma DeletingIsDeleted(s: State, me: Copy)
    requires LogInv(s) && Deleting(s, me)
    ensures Last(s.w).deleting
  {
    assert me.version < |s.w.log| - 1 ==> Older(s.w.log[me.version], Last(s.w));
  }

  lemma CallIsOrdered(spec: Spec, s: State, fault: Fault)
    requires Inv(spec, s)
    ensures Ordered(s.w, Step(spec, s, Next(fault)).w)
  {
    if s.pc.Remove? || s.pc.RemoveBootDisk? {
      DeletingIsDeleted(s, s.pc.me);
    }
  }

  lemma StepIsOrdered(spec: Spec, s: State, a: Action)
    requires Inv(spec, s)
    ensures Ordered(s.w, Step(spec, s, a).w)
  {
    if a.Next? {
      CallIsOrdered(spec, s, a.fault);
    }
  }

  /**
   In every run, an instance goes only when stopped or failed, its boot disk only when the instance is gone,
   the finalizer only after both.
   */
  lemma DeletionIsOrdered(spec: Spec, acts: seq<Action>, a: Action)
    ensures Ordered(Exec(spec, Init(), acts).w, Step(spec, Exec(spec, Init(), acts), a).w)
  {
    RunKeepsInv(spec, Init(), acts);
    StepIsOrdered(spec, Exec(spec, Init(), acts), a);
  }

  /**
   The controller's part, whatever Oxide would accept: a boot disk is asked for when its instance is gone,
   the finalizer when both are.
   */
  lemma AsksInOrder(spec: Spec, acts: seq<Action>)
    ensures var s := Exec(spec, Init(), acts);
            && (CallAt(spec, s.pc).DeleteBootDisk? ==> s.w.inst.None?)
            && (CallAt(spec, s.pc).UpdateObject? && !CallAt(spec, s.pc).finalizer ==> Nothing(s.w))
  {
    RunKeepsInv(spec, Init(), acts);
  }

  /** Nobody but Oxide's own transitions and the controller changes run states. */
  predicate NoChanges(acts: seq<Action>) {
    forall i :: 0 <= i < |acts| ==> !(acts[i].Env? && acts[i].event.Changes?)
  }

  predicate GoneOrHalted(w: World) {
    w.inst.Some? ==> w.inst.value.run.Stopped? || w.inst.value.run.Failed?
  }

  lemma StepAsksHalted(spec: Spec, s: State, a: Action)
    requires s.w.log != [] && (s.pc.Remove? ==> GoneOrHalted(s.w)) && !(a.Env? && a.event.Changes?)
    ensures Step(spec, s, a).pc.Remove? ==> GoneOrHalted(Step(spec, s, a).w)
  {
  }

  /**
   In every run in which nobody else changes run states, the controller asks to delete an instance only when
   it is gone, stopped or failed.
   */
  lemma {:induction false} AsksToDeleteHalted(spec: Spec, acts: seq<Action>)
    requires NoChanges(acts)
    ensures var s := Exec(spec, Init(), acts);
            CallAt(spec, s.pc).Delete? ==> GoneOrHalted(s.w)
    decreases |acts|
  {
    if acts != [] {
      var front := acts[..|acts| - 1];
      AsksToDeleteHalted(spec, front);
      StepAsksHalted(spec, Exec(spec, Init(), front), acts[|acts| - 1]);
    }
  }

  // --- At most one stop, one resize and one start ---

  /** No outside interference and no deletion by the user. */
  predicate Calm(a: Action) {
    a.Env? ==> !a.event.Changes? && !a.event.UserDeletes? && !a.event.Readdresses?
  }

  predicate AllCalm(acts: seq<Action>) {
    forall i :: 0 <= i < |acts| ==> Calm(acts[i])
  }

  predicate Sound(w: World) {
    && w.log != [] && (forall i :: 0 <= i < |w.log| ==> !w.log[i].deleting && !w.log[i].gone)
    && (w.inst.None? ==> !w.bootDisk)
    && (w.inst.Some? ==> !w.inst.value.run.Failed? && !w.inst.value.run.Destroyed?)
  }

  /** Without interference, what the controller viewed still holds when it acts on it. */
  predicate Tracking(spec: Spec, s: State) {
    && Sound(s.w) && s.floor < |s.w.log|
    && match s.pc
       case Halt(cur) => s.w.inst == Some(cur) && cur.run.Running? && (!RightSize(spec, cur) || !spec.wantRunning)
       case Resize(cur) => s.w.inst == Some(cur) && cur.run.Stopped? && !RightSize(spec, cur)
       case Launch(cur) => s.w.inst == Some(cur) && cur.run.Stopped? && RightSize(spec, cur) && spec.wantRunning
       case ReadIps => Converged(spec, s.w)
       case Idle(outcome) => outcome.Nil? ==> Converged(spec, s.w)
       case AddFinalizer(_) => true
       case Look => true
       case Make => true
       case _ => false
  }

  /** The size and power state the spec asks for. */
  predicate Converged(spec: Spec, w: World) {
    w.inst.Some? && RightSize(spec, w.inst.value) && w.inst.value.run == (if spec.wantRunning then Running else Stopped)
  }

  datatype Kind = Stops | Resizes | Launches

  predicate Is(call: Call, kind: Kind) {
    match kind
    case Stops => call.Stop?
    case Resizes => call.Update?
    case Launches => call.Start?
  }

  /** This action is a call of the kind that takes effect. */
  predicate Applies(spec: Spec, s: State, a: Action, kind: Kind)
    requires s.w.log != []
  {
    a.Next? && !s.pc.Idle? && Is(CallAt(spec, s.pc), kind) && Step(spec, s, a).w != s.w
  }

  /** How many calls of the kind take effect along the run. */
  function Applied(spec: Spec, s: State, acts: seq<Action>, kind: Kind): nat
    requires s.w.log != []
    decreases |acts|
  {
    if acts == [] then 0 else
      var front := acts[..|acts| - 1];
      Applied(spec, s, front, kind) + (if Applies(spec, Exec(spec, s, front), acts[|acts| - 1], kind) then 1 else 0)
  }

  /** It will run, or does, unless stopped. */
  predicate HeadedToRun(run: RunState) {
    run.Running? || run.Starting? || run.Rebooting? || run.Migrating? || run.Repairing? || run == Creating(true)
  }

  /** How many calls of the kind the instance still needs. */
  function Budget(spec: Spec, inst: Option<Instance>, kind: Kind): nat {
    if inst.None? then 0 else
      var right, heads := RightSize(spec, inst.value), HeadedToRun(inst.value.run);
      match kind
      case Stops => if heads && (!right || !spec.wantRunning) then 1 else 0
      case Resizes => if right then 0 else 1
      case Launches => if spec.wantRunning && (!right || !heads) then 1 else 0
  }

  predicate Pays(spec: Spec, s: State, a: Action, kind: Kind)
    requires s.w.log != []
  {
    var s' := Step(spec, s, a);
    && Tracking(spec, s')
    && (if Applies(spec, s, a, kind) then 1 else 0) + Budget(spec, s'.w.inst, kind) == Budget(spec, s.w.inst, kind)
  }

  lemma ActPaysBudget(spec: Spec, s: State, fault: Fault, kind: Kind)
    requires Tracking(spec, s) && (s.pc.Halt? || s.pc.Resize? || s.pc.Launch?)
    ensures Pays(spec, s, Next(fault), kind)
  {
    if s.pc.Resize? {
      ResizeKeepsTheRest(spec, s.pc.cur);
    }
  }

  lemma LookPaysBudget(spec: Spec, s: State, fault: Fault, kind: Kind)
    requires Tracking(spec, s) && (s.pc.Look? || s.pc.Make?)
    ensures Pays(spec, s, Next(fault), kind)
  {
  }

  lemma CallPaysBudget(spec: Spec, s: State, fault: Fault, kind: Kind)
    requires Tracking(spec, s)
    ensures Pays(spec, s, Next(fault), kind)
  {
    if s.pc.Halt? || s.pc.Resize? || s.pc.Launch? {
      ActPaysBudget(spec, s, fault, kind);
    } else if s.pc.Look? || s.pc.Make? {
      LookPaysBudget(spec, s, fault, kind);
    }
  }

  lemma StepPaysBudget(spec: Spec, s: State, a: Action, kind: Kind)
    requires Tracking(spec, s) && Calm(a)
    ensures Pays(spec, s, a, kind)
  {
    if a.Next? {
      CallPaysBudget(spec, s, a.fault, kind);
    }
  }

  /**
   However calls fail or take effect late, however often the operator crashes: just the stops, resizes and
   starts that are needed take effect, so at most one each.
   */
  lemma {:induction false} AtMostOneOfEach(spec: Spec, s: State, acts: seq<Action>, kind: Kind)
    requires Tracking(spec, s) && AllCalm(acts)
    ensures Tracking(spec, Exec(spec, s, acts))
    ensures Applied(spec, s, acts, kind) + Budget(spec, Exec(spec, s, acts).w.inst, kind) ==
        Budget(spec, s.w.inst, kind) <= 1
    decreases |acts|
  {
    if acts != [] {
      var front := acts[..|acts| - 1];
      AtMostOneOfEach(spec, s, front, kind);
      StepPaysBudget(spec, Exec(spec, s, front), acts[|acts| - 1], kind);
    }
  }

  /** Only a stopped instance is ever resized, and only one of the wrong size. */
  lemma ResizesOnlyStopped(spec: Spec, s: State, acts: seq<Action>)
    requires Tracking(spec, s) && AllCalm(acts) && CallAt(spec, Exec(spec, s, acts).pc).Update?
    ensures var w := Exec(spec, s, acts).w;
            w.inst.Some? && w.inst.value.run.Stopped? && !RightSize(spec, w.inst.value)
  {
    AtMostOneOfEach(spec, s, acts, Resizes);
  }

  // --- Drift, as the watcher sees it ---

  function RunName(run: RunState): string {
    match run
    case Creating(_) => "creating"
    case Starting => "starting"
    case Running => "running"
    case Stopping => "stopping"
    case Stopped => "stopped"
    case Rebooting => "rebooting"
    case Migrating => "migrating"
    case Repairing => "repairing"
    case Failed => "failed"
    case Destroyed => "destroyed"
  }

  /** runState: in-flight transitions count as where they lead. */
  function PowerState(run: RunState): string {
    match run
    case Running => "Running"
    case Starting => "Running"
    case Rebooting => "Running"
    case Migrating => "Running"
    case Stopped => "Stopped"
    case Stopping => "Stopped"
    case _ => RunName(run)
  }

  datatype InstanceState = InstanceState(ncpus: int, memory: int, runState: string)

  function Desired(spec: Spec): InstanceState {
    InstanceState(spec.ncpus, spec.memory, if spec.wantRunning then "Running" else "Stopped")
  }

  function External(i: Instance): InstanceState {
    InstanceState(i.ncpus, i.memory, PowerState(i.run))
  }

  predicate Drifted(spec: Spec, i: Instance) {
    External(i) != Desired(spec)
  }

  /**
   An instance without drift needs no stop, resize or start any more, and gets none in any run without
   interference.
   */
  lemma NoDriftNoCalls(spec: Spec, s: State, acts: seq<Action>, kind: Kind)
    requires Tracking(spec, s) && AllCalm(acts) && s.w.inst.Some? && !Drifted(spec, s.w.inst.value)
    ensures Applied(spec, s, acts, kind) == 0
  {
    var i := s.w.inst.value;
    assert Budget(spec, s.w.inst, kind) == 0 by {
      assert PowerState(i.run)[0] == (if spec.wantRunning then 'R' else 'S');
    }
    AtMostOneOfEach(spec, s, acts, kind);
  }

  /** States that name neither Running nor Stopped: the watcher sees drift in them whatever the spec. */
  predicate NeverMatches(run: RunState) {
    run.Creating? || run.Repairing? || run.Failed? || run.Destroyed?
  }

  lemma PowerStateMatches(spec: Spec, run: RunState)
    ensures PowerState(run) == Desired(spec).runState <==> !NeverMatches(run) && HeadedToRun(run) == spec.wantRunning
  {
    assert "Running"[0] == 'R' && "Stopped"[0] == 'S';
    assert NeverMatches(run) ==> PowerState(run)[0] !in {'R', 'S'};
  }

  /** The watcher sees drift exactly in those states and when the instance needs a stop, resize or start. */
  lemma DriftIff(spec: Spec, i: Instance)
    ensures Drifted(spec, i) <==> NeverMatches(i.run) || exists kind :: Budget(spec, Some(i), kind) > 0
  {
    PowerStateMatches(spec, i.run);
    var b := kind => Budget(spec, Some(i), kind);
    assert b(Stops) > 0 || b(Resizes) > 0 || b(Launches) > 0 <==> exists kind :: Budget(spec, Some(i), kind) > 0;
  }

  /**
   An instance being created or repaired drifts though it is on its way to what the spec asks for and needs
   nothing.
   */
  lemma NeedlessDrift(spec: Spec, i: Instance)
    requires RightSize(spec, i) && (i.run == Creating(spec.wantRunning) || (i.run.Repairing? && spec.wantRunning))
    ensures Drifted(spec, i) && forall kind :: Budget(spec, Some(i), kind) == 0
  {
    PowerStateMatches(spec, i.run);
  }

  /** A running or stopped instance has drifted exactly when the controller has something to do to it. */
  lemma DriftMeansWork(spec: Spec, i: Instance)
    requires i.run.Running? || i.run.Stopped?
    ensures Drifted(spec, i) <==> Converge(spec, i).Halt? || Converge(spec, i).Resize? || Converge(spec, i).Launch?
  {
    assert "Running"[0] != "Stopped"[0];
  }
}
