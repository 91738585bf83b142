/**
 Deleting an unprotected Image. handleDelete deletes the import snapshot before the import disk, so
 a disk still being finalized into a snapshot can bring the snapshot back in between. Without that
 race, the object is never gone with anything left; with it, a leftover is possible.
 */
module ImageDeletion {
  import opened Common
  import opened ImportChunks
  import opened OxideRemote
  import opened ImageMachine
  import opened ImageInvariant
  import opened ImageSafety

  /** The object is gone and something of its import is still in Oxide. */
  predicate LeftBehind(s: State)
    requires s.w.log != []
  {
    Last(s.w).gone && !Empty(s.w.ox)
  }

  predicate DeletingSnapshot(s: State) {
    s.pc.CleanSnapshot? && s.pc.why.Deletion?
  }

  /** handleDelete's SnapshotDelete runs while the import disk is being finalized into a snapshot. */
  predicate Races(s: State, a: Action) {
    DeletingSnapshot(s) && Snapshotting(s.w.ox) && a.Next?
  }

  ghost predicate NeverRaces(c: Config, s: State, acts: seq<Action>)
    requires s.w.log != []
  {
    forall n {:trigger acts[..n]} :: 0 <= n < |acts| ==> !Races(Exec(c, s, acts[..n]), acts[n])
  }

  predicate DeletionPc(pc: Pc) {
    match pc
    case CleanSnapshot(_, why) => why.Deletion?
    case DropStop(_, why) => why.Deletion?
    case DropFinalize(_, why) => why.Deletion?
    case DropDisk(_, why) => why.Deletion?
    case FindInProject(_) => true
    case FindInSilo(_) => true
    case DeleteImage(_, _) => true
    case RemoveFinalizer(_) => true
    case _ => false
  }

  /** What each program point of handleDelete has made sure is gone. */
  predicate DeletionInv(s: State)
    requires s.w.log != []
  {
    var ox := s.w.ox;
    && !LeftBehind(s)
    && match s.pc
       case DropStop(_, Deletion) => ox.snapshot.None? && !Snapshotting(ox)
       case DropFinalize(_, Deletion) => ox.snapshot.None? && !Snapshotting(ox)
       case DropDisk(_, Deletion) => ox.snapshot.None? && !Snapshotting(ox)
       case FindInProject(_) => NoTemporaries(ox)
       case FindInSilo(_) => NoTemporaries(ox) && (ox.image.Some? ==> !ox.image.value.inProject)
       case DeleteImage(_, id) => NoTemporaries(ox) && (ox.image.Some? ==> ox.image.value.id == id)
       case RemoveFinalizer(_) => Empty(ox)
       case _ => true
  }

  lemma EnvKeepsDeletion(c: Config, s: State, event: Event)
    requires Inv(c, s) && DeletionInv(s)
    ensures DeletionInv(Step(c, s, Env(event)))
  {
    if !event.UserDeletes? {
      SettlingSettles(s.w.ox, event);
    }
  }

  /** Nothing is created for an object that is gone. */
  lemma CallKeepsGoneEmpty(c: Config, s: State, fault: Fault, stream: Stream)
    requires Inv(c, s) && DeletionInv(s) && !s.pc.Idle?
    ensures !LeftBehind(Step(c, s, Next(fault, stream)))
  {
    if s.pc.CreateDisk? {
      LiveObject(s, s.pc.me);
    } else if !ObjectCall(s.pc) {
      OxideCallKeepsIds(c, s, fault, stream);
    } else if s.pc.RecordStatus? {
      LiveObject(s, s.pc.me);
    }
  }

  lemma DeletionCallKeepsDeletion(c: Config, s: State, fault: Fault, stream: Stream)
    requires s.w.log != [] && OxideInv(s.w.ox) && DeletionInv(s) && DeletionPc(s.pc) && !Races(s, Next(fault, stream))
    requires !LeftBehind(Step(c, s, Next(fault, stream)))
    ensures DeletionInv(Step(c, s, Next(fault, stream)))
  {
  }

  lemma OtherCallKeepsDeletion(c: Config, pc: Pc, reply: Reply)
    requires !pc.Idle? && !DeletionPc(pc)
    ensures !DeletionPc(After(c, pc, reply))
  {
  }

  lemma NextKeepsDeletion(c: Config, s: State, fault: Fault, stream: Stream)
    requires Inv(c, s) && DeletionInv(s) && !Races(s, Next(fault, stream))
    ensures DeletionInv(Step(c, s, Next(fault, stream)))
  {
    if !s.pc.Idle? {
      CallKeepsGoneEmpty(c, s, fault, stream);
      if DeletionPc(s.pc) {
        DeletionCallKeepsDeletion(c, s, fault, stream);
      } else {
        OtherCallKeepsDeletion(c, s.pc, Serve(s.w, CallAt(c, s.pc), fault, stream).1);
      }
    }
  }

  lemma StepKeepsDeletion(c: Config, s: State, a: Action)
    requires Inv(c, s) && Allowed(c, a) && DeletionInv(s) && !Races(s, a)
    ensures DeletionInv(Step(c, s, a))
  {
    match a
    case Env(event) => EnvKeepsDeletion(c, s, event);
    case Next(fault, stream) => NextKeepsDeletion(c, s, fault, stream);
    case _ =>
  }

  lemma {:induction false} RunKeepsDeletion(c: Config, s: State, acts: seq<Action>)
    requires Inv(c, s) && AllAllowed(c, acts) && DeletionInv(s) && NeverRaces(c, s, acts)
    ensures DeletionInv(Exec(c, s, acts))
    decreases |acts|
  {
    if acts != [] {
      var front := acts[..|acts| - 1];
      forall n {:trigger front[..n]} | 0 <= n < |front|
        ensures !Races(Exec(c, s, front[..n]), front[n])
      {
        assert front[..n] == acts[..n];
      }
      RunKeepsDeletion(c, s, front);
      RunKeepsInv(c, s, front);
      assert front == acts[..|front|];
      StepKeepsDeletion(c, Exec(c, s, front), acts[|acts| - 1]);
    }
  }

  /** In every run without the race, when the object is gone so are its import snapshot, import disk and image. */
  lemma GoneMeansNothingLeft(c: Config, acts: seq<Action>)
    requires Fits(c) && AllAllowed(c, acts) && NeverRaces(c, Init(), acts)
    ensures !LeftBehind(Run(c, acts))
  {
    InitHasInv(c);
    RunKeepsDeletion(c, Init(), acts);
  }

  // --- The race, exactly ---

  /** The rest of one handleDelete: calls and what happens around them, no crash and no new reconcile. */
  predicate SameReconcile(acts: seq<Action>) {
    forall i :: 0 <= i < |acts| ==> acts[i].Env? || acts[i].Next?
  }

  /** Deleting without the race, or done with it. */
  predicate SafeDeletion(s: State)
    requires s.w.log != []
  {
    && DeletionInv(s) && (s.pc.Idle? || DeletionPc(s.pc))
    && (DeletingSnapshot(s) ==> !Snapshotting(s.w.ox))
  }

  lemma StepKeepsSafeDeletion(c: Config, s: State, a: Action)
    requires Inv(c, s) && Allowed(c, a) && SafeDeletion(s) && (a.Env? || a.Next?)
    ensures SafeDeletion(Step(c, s, a))
  {
    StepKeepsDeletion(c, s, a);
    if a.Env? && !a.event.UserDeletes? {
      SettlingSettles(s.w.ox, a.event);
    }
  }

  lemma {:induction false} WithoutRace(c: Config, s: State, acts: seq<Action>)
    requires Inv(c, s) && AllAllowed(c, acts) && SameReconcile(acts) && SafeDeletion(s)
    ensures SafeDeletion(Exec(c, s, acts))
    decreases |acts|
  {
    if acts != [] {
      var front := acts[..|acts| - 1];
      WithoutRace(c, s, front);
      RunKeepsInv(c, s, front);
      StepKeepsSafeDeletion(c, Exec(c, s, front), acts[|acts| - 1]);
    }
  }

  /**
   The last object version of a deletion that is about to succeed, with only a detached disk and its
   snapshot left.
   */
  predicate AboutToLeak(s: State) {
    && s.w.log != [] && s.pc.DropDisk? && s.pc.why.Deletion?
    && s.w.ox.snapshot.Some? && s.w.ox.image.None? && s.w.ox.disk.Some? && s.w.ox.disk.value.state.Detached?
    && s.pc.me.version == |s.w.log| - 1 && !Last(s.w).gone && Last(s.w).deleting
  }

  /** acts take s to s' within one reconcile. */
  ghost predicate Leads(c: Config, s: State, acts: seq<Action>, s': State) {
    s.w.log != [] && Exec(c, s, acts) == s' && AllAllowed(c, acts) && SameReconcile(acts)
  }

  lemma Extend(c: Config, s: State, acts: seq<Action>, s': State, a: Action) returns (acts': seq<Action>, s'': State)
    requires Leads(c, s, acts, s') && Allowed(c, a) && (a.Env? || a.Next?)
    ensures Leads(c, s, acts', s'') && s'' == Step(c, s', a)
  {
    acts', s'' := acts + [a], Step(c, s', a);
    ExecOne(c, s, acts, a);
  }

  lemma RefusedCalls(c: Config, s: State)
    requires s.w.log != [] && Snapshotting(s.w.ox) && s.w.ox.snapshot.None?
    ensures var s' := Step(c, s, Next(Clean, Whole(c)));
            && (DeletingSnapshot(s) ==> s' == s.(pc := DropStop(s.pc.me, Deletion)))
            && (s.pc.DropStop? ==> s' == s.(pc := DropFinalize(s.pc.me, s.pc.why)))
            && (s.pc.DropFinalize? ==> s' == s.(pc := DropDisk(s.pc.me, s.pc.why)))
  {
  }

  /** The disk refuses stop and finalize while it finalizes. */
  lemma RaceRefuses(c: Config, s: State) returns (acts: seq<Action>, s': State)
    requires s.w.log != [] && DeletingSnapshot(s) && Snapshotting(s.w.ox) && s.w.ox.snapshot.None?
    ensures Leads(c, s, acts, s') && s' == s.(pc := DropDisk(s.pc.me, Deletion))
  {
    RefusedCalls(c, s);
    acts, s' := Extend(c, s, [], s, Next(Clean, Whole(c)));
    RefusedCalls(c, s');
    acts, s' := Extend(c, s, acts, s', Next(Clean, Whole(c)));
    RefusedCalls(c, s');
    acts, s' := Extend(c, s, acts, s', Next(Clean, Whole(c)));
  }

  /** Then it finishes: a snapshot appears and the disk is detached. */
  lemma RaceReappears(c: Config, s: State) returns (acts: seq<Action>, s': State)
    requires s.w.log != [] && s.pc.DropDisk? && Snapshotting(s.w.ox) && s.w.ox.snapshot.None?
    ensures Leads(c, s, acts, s')
    ensures var disk := s.w.ox.disk.value;
            s' == s.(w := s.w.(ox := s.w.ox.(snapshot := Some(Snapshot(SnapshotCreating, disk.contents)),
                disk := Some(disk.(state := Detached)))))
  {
    acts, s' := Extend(c, s, [], s, Env(SnapshotAppears));
    acts, s' := Extend(c, s, acts, s', Env(DiskDetaches));
  }

  /** The detached disk is deleted and no image is found. */
  lemma RaceDropsDisk(c: Config, s: State) returns (acts: seq<Action>, s': State)
    requires AboutToLeak(s)
    ensures Leads(c, s, acts, s') && s' == s.(w := s.w.(ox := s.w.ox.(disk := None)), pc := RemoveFinalizer(s.pc.me))
  {
    var w := s.w.(ox := s.w.ox.(disk := None));
    acts, s' := Extend(c, s, [], s, Next(Clean, Whole(c)));
    assert s' == s.(w := w, pc := FindInProject(s.pc.me));
    var finds, s1 := FindsNoImage(c, s');
    ExecAppend(c, s, acts, finds);
    acts, s' := acts + finds, s1;
  }

  lemma FindsNoImage(c: Config, s: State) returns (acts: seq<Action>, s': State)
    requires s.w.log != [] && s.pc.FindInProject? && s.w.ox.image.None?
    ensures Leads(c, s, acts, s') && s' == s.(pc := RemoveFinalizer(s.pc.me))
  {
    acts, s' := Extend(c, s, [], s, Next(Clean, Whole(c)));
    assert s' == s.(pc := FindInSilo(s.pc.me));
    acts, s' := Extend(c, s, acts, s', Next(Clean, Whole(c)));
  }

  /** The finalizer goes, and the snapshot stays. */
  lemma RaceFinishes(c: Config, s: State) returns (acts: seq<Action>, s': State)
    requires s.w.log != [] && s.pc.RemoveFinalizer? && s.w.ox.snapshot.Some?
    requires s.pc.me.version == |s.w.log| - 1 && !Last(s.w).gone && Last(s.w).deleting
    ensures Leads(c, s, acts, s') && LeftBehind(s')
  {
    acts, s' := Extend(c, s, [], s, Next(Clean, Whole(c)));
  }

  /** From the start of the race there is a way to leave the snapshot behind. */
  lemma RaceLeaks(c: Config, s: State) returns (acts: seq<Action>, s': State)
    requires s.w.log != [] && DeletingSnapshot(s) && Snapshotting(s.w.ox) && s.w.ox.snapshot.None? && s.w.ox.image.None?
    requires s.pc.me.version == |s.w.log| - 1 && !Last(s.w).gone && Last(s.w).deleting
    ensures Leads(c, s, acts, s') && LeftBehind(s')
  {
    var refuses, s1 := RaceRefuses(c, s);
    var reappears, s2 := RaceReappears(c, s1);
    var drops, s3 := RaceDropsDisk(c, s2);
    var finishes, s4 := RaceFinishes(c, s3);
    ExecAppend(c, s, refuses, reappears);
    ExecAppend(c, s, refuses + reappears, drops);
    ExecAppend(c, s, refuses + reappears + drops, finishes);
    acts, s' := refuses + reappears + drops + finishes, s4;
  }

  /**
   From the moment handleDelete is about to delete the import snapshot, with its copy of the object
   current, that same reconcile can leave something behind if and only if the import disk is being
   finalized into a snapshot.
   */
  lemma LeavesBehindIffSnapshotting(c: Config, s: State)
    requires Inv(c, s) && !LeftBehind(s) && DeletingSnapshot(s)
    requires s.pc.me.version == |s.w.log| - 1 && !Last(s.w).gone
    ensures (exists acts :: AllAllowed(c, acts) && SameReconcile(acts) && LeftBehind(Exec(c, s, acts))) <==>
        Snapshotting(s.w.ox)
  {
    if Snapshotting(s.w.ox) {
      assert Doomed(s.pc.me, s);
      var acts, s' := RaceLeaks(c, s);
      assert LeftBehind(Exec(c, s, acts));
    } else {
      forall acts | AllAllowed(c, acts) && SameReconcile(acts)
        ensures !LeftBehind(Exec(c, s, acts))
      {
        WithoutRace(c, s, acts);
      }
    }
  }
}
