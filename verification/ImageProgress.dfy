/**
 How an import gets done. With calls that go through, whole downloads and Oxide settling its
 transient states, every reconcile or settling step that does anything brings the import closer to
 its end, and the only reconciles that do nothing wait for Oxide or have nothing left to do.
 */
module ImageProgress {
  import opened Common
  import opened ImportChunks
  import opened OxideRemote
  import opened ImageMachine
  import opened ImageInvariant
  import opened ImageVersions

  /**
   A body downloads can bring from the file that ends without breaking and matches spec.sha256, such as the
   whole file.
   */
  predicate Arrives(c: Config, body: Stream) {
    FromFile(c, body) && !body.ending.Broken? && ShaMatches(c, body.data)
  }

  /** Nothing faulted, and the object is not being deleted. */
  predicate Healthy(c: Config, body: Stream, w: World) {
    && Fits(c) && w.log != []
    && !Last(w).deleting && !Last(w).gone
    && (w.ox.disk.Some? ==> !w.ox.disk.value.state.Faulted?)
    && (w.ox.snapshot.Some? ==> !w.ox.snapshot.value.state.SnapshotFaulted?)
    && Arrives(c, body)
  }

  /** The next call goes through. */
  function CleanStep(c: Config, body: Stream, s: State): (s': State)
    requires Fits(c) && s.w.log != []
    ensures s'.w.log != []
  {
    Step(c, s, Next(Clean, body))
  }

  /** The reconcile runs to its return with every call going through. */
  function Finish(c: Config, body: Stream, s: State): (s': State)
    requires Fits(c) && s.w.log != []
    ensures s'.w.log != [] && s'.pc.Idle?
    decreases Phase(s.pc), BytesLeft(s.pc)
  {
    if s.pc.Idle? then s else
      CallsDecrease(c, s.pc, Serve(s.w, CallAt(c, s.pc), Clean, body).1);
      Finish(c, body, CleanStep(c, body, s))
  }

  /** One whole reconcile of a version the cache serves. */
  function Reconcile(c: Config, body: Stream, s: State, version: nat): (s': State)
    requires Fits(c) && s.w.log != []
    ensures s'.w.log != [] && s'.pc.Idle?
  {
    Finish(c, body, Step(c, s, Begin(version)))
  }

  function Newest(w: World): nat
    requires w.log != []
  {
    |w.log| - 1
  }

  // --- A reconcile is a run ---

  /** Every download along the run brings this body. */
  predicate OnlyBody(acts: seq<Action>, body: Stream) {
    forall i :: 0 <= i < |acts| && acts[i].Next? ==> acts[i].stream == body
  }

  lemma {:induction false} FinishIsRun(c: Config, body: Stream, s: State) returns (acts: seq<Action>)
    requires Fits(c) && s.w.log != []
    ensures OnlyBody(acts, body) && Exec(c, s, acts) == Finish(c, body, s)
    decreases Phase(s.pc), BytesLeft(s.pc)
  {
    if s.pc.Idle? {
      acts := [];
    } else {
      CallsDecrease(c, s.pc, Serve(s.w, CallAt(c, s.pc), Clean, body).1);
      var rest := FinishIsRun(c, body, CleanStep(c, body, s));
      var first := [Next(Clean, body)];
      acts := first + rest;
      ExecAppend(c, s, first, rest);
      assert first[..0] == [];
    }
  }

  lemma ReconcileIsRun(c: Config, body: Stream, s: State, version: nat) returns (acts: seq<Action>)
    requires Fits(c) && s.w.log != []
    ensures OnlyBody(acts, body) && Exec(c, s, acts) == Reconcile(c, body, s, version)
  {
    var first := [Begin(version)];
    var rest := FinishIsRun(c, body, Step(c, s, first[0]));
    acts := first + rest;
    ExecAppend(c, s, first, rest);
    assert first[..0] == [];
  }

  lemma ReconcileKeepsInv(c: Config, body: Stream, s: State, version: nat)
    requires FullInv(c, s) && FromFile(c, body)
    ensures FullInv(c, Reconcile(c, body, s, version))
  {
    var acts := ReconcileIsRun(c, body, s, version);
    RunKeepsFullInv(c, s, acts);
  }

  /** The next call of a reconcile under way. */
  lemma Unroll(c: Config, body: Stream, s: State) returns (s': State)
    requires Fits(c) && s.w.log != [] && !s.pc.Idle?
    ensures s' == CleanStep(c, body, s) && Finish(c, body, s) == Finish(c, body, s')
  {
    s' := CleanStep(c, body, s);
  }

  // --- Segments of a reconcile ---

  /** deleteImportDisk on a disk in each state, in one go. */
  function Dropped(disk: Option<Disk>): Option<Disk> {
    if disk.None? || disk.value.state.Detached? then None
    else if disk.value.state.Importing? || disk.value.state.ImportReady? then
      Some(disk.value.(state := Finalizing(false)))
    else disk
  }

  function Stopped(disk: Option<Disk>): Option<Disk> {
    if disk.Some? && disk.value.state.Importing? then Some(disk.value.(state := ImportReady)) else disk
  }

  function Unsnapshotted(disk: Option<Disk>): Option<Disk> {
    if disk.Some? && disk.value.state.ImportReady? then Some(disk.value.(state := Finalizing(false))) else disk
  }

  lemma StepDrop(c: Config, body: Stream, s: State)
    requires Fits(c) && s.w.log != []
    ensures s.pc.DropStop? ==>
      CleanStep(c, body, s) == s.(w := s.w.(ox := s.w.ox.(disk := Stopped(s.w.ox.disk))),
          pc := DropFinalize(s.pc.me, s.pc.why))
    ensures s.pc.DropFinalize? ==>
      CleanStep(c, body, s) == s.(w := s.w.(ox := s.w.ox.(disk := Unsnapshotted(s.w.ox.disk))),
          pc := DropDisk(s.pc.me, s.pc.why))
    ensures s.pc.DropDisk? ==>
      var disk := if s.w.ox.disk.Some? && s.w.ox.disk.value.state.Detached? then None else s.w.ox.disk;
      CleanStep(c, body, s) == s.(w := s.w.(ox := s.w.ox.(disk := disk)),
          pc := AfterDropDisk(s.pc.me, s.pc.why, disk.None?))
  {
  }

  lemma FinishDrop(c: Config, body: Stream, s: State)
    requires Fits(c) && s.w.log != [] && s.pc.DropStop?
    ensures var disk := Dropped(s.w.ox.disk);
            Finish(c, body, s) == Finish(c, body,
                s.(w := s.w.(ox := s.w.ox.(disk := disk)), pc := AfterDropDisk(s.pc.me, s.pc.why, disk.None?)))
  {
    StepDrop(c, body, s);
    var s1 := Unroll(c, body, s);
    StepDrop(c, body, s1);
    var s2 := Unroll(c, body, s1);
    StepDrop(c, body, s2);
    var s3 := Unroll(c, body, s2);
    assert s3 == s.(w := s.w.(ox := s.w.ox.(disk := Dropped(s.w.ox.disk))),
        pc := AfterDropDisk(s.pc.me, s.pc.why, Dropped(s.w.ox.disk).None?));
  }

  /** The image exists and its import is cleaned up: promote or demote if needed, and record the ID. */
  function Settled(c: Config, w: World, me: Copy): World
    requires w.log != [] && w.ox.image.Some?
  {
    var image := w.ox.image.value;
    var w' := w.(ox := w.ox.(image := Some(image.(inProject := !c.promote))));
    if me.obj.statusId == Some(image.id) then w' else Store(w', Last(w).(statusId := Some(image.id)))
  }

  lemma FinishPlace(c: Config, body: Stream, s: State)
    requires Fits(c) && s.w.log != [] && !Last(s.w).gone
    requires s.pc.Place? && s.w.ox.image == Some(s.pc.image)
    ensures Finish(c, body, s) == s.(w := Settled(c, s.w, s.pc.me), pc := Idle(Nil))
  {
    var s1 := Unroll(c, body, s);
    assert s1.pc == RecordStatus(s.pc.me, s.pc.image.id, Nil);
    assert s1.w.ox == Settled(c, s.w, s.pc.me).ox && s1.w.log == s.w.log;
    var s2 := Unroll(c, body, s1);
    assert s2 == s.(w := Settled(c, s.w, s.pc.me), pc := Idle(Nil));
    assert Finish(c, body, s2) == s2;
  }

  /** An image is there, its ID not yet recorded: the snapshot goes, then the disk as far as it lets itself. */
  lemma FinishCleanup(c: Config, body: Stream, s: State)
    requires Fits(c) && s.w.log != [] && !Last(s.w).gone
    requires s.pc.CleanSnapshot? && s.pc.why.Cleanup? && s.w.ox.image == Some(s.pc.why.image)
    ensures var disk := Dropped(s.w.ox.disk);
            var w := s.w.(ox := s.w.ox.(snapshot := None, disk := disk));
            Finish(c, body, s) == s.(w := if disk.None? then Settled(c, w, s.pc.me) else w,
                                       pc := Idle(if disk.None? then Nil else Erred))
  {
    var s1 := Unroll(c, body, s);
    assert s1 == s.(w := s.w.(ox := s.w.ox.(snapshot := None)), pc := DropStop(s.pc.me, s.pc.why));
    FinishDrop(c, body, s1);
    if Dropped(s.w.ox.disk).None? {
      FinishPlace(c, body, s1.(w := s1.w.(ox := s1.w.ox.(disk := None)), pc := Place(s.pc.me, s.pc.why.image)));
    }
  }

  /** One chunk of a pass, written or skipped. */
  lemma PassStep(c: Config, body: Stream, s: State) returns (s': State)
    requires Fits(c) && s.w.log != [] && s.pc.WriteChunk? && s.pc.stream == body
    requires s.w.ox.disk.Some? && s.w.ox.disk.value.state.Importing? && Holds(s.w.ox.disk.value.contents, body.data)
    ensures s'.pc == AfterChunk(c, s.pc.me, body, s.pc.k) && s'.w.log == s.w.log && s'.floor == s.floor
    ensures s'.w.ox.disk.Some? && s'.w.ox.disk.value.state.Importing? && Holds(s'.w.ox.disk.value.contents, body.data)
    ensures s'.w.ox == s.w.ox.(disk := s'.w.ox.disk)
    ensures Finish(c, body, s) == Finish(c, body, s')
  {
    var d := s.w.ox.disk.value;
    if Payload(body.data, s.pc.k, c.blockSize) != [] {
      WriteFits(d.contents, body.data, s.pc.k, c.blockSize);
    }
    s' := Unroll(c, body, s);
  }

  /** The disk was written and is being finalized into the snapshot; nothing else changed. */
  predicate Finalized(s: State, s': State) {
    && s'.pc == Idle(Progressing) && s'.w.log == s.w.log && s'.floor == s.floor
    && Snapshotting(s'.w.ox) && s'.w.ox == s.w.ox.(disk := s'.w.ox.disk)
  }

  lemma FinishStop(c: Config, body: Stream, s: State)
    requires Fits(c) && s.w.log != [] && s.pc.StopWrite?
    requires s.w.ox.disk.Some? && s.w.ox.disk.value.state.Importing?
    ensures Finalized(s, Finish(c, body, s))
  {
    var s1 := Unroll(c, body, s);
    assert s1.pc == FinalizeDisk(s.pc.me) && s1.w.ox.disk.value.state.ImportReady?;
    var s2 := Unroll(c, body, s1);
    assert s2.pc == Idle(Progressing);
  }

  /** A body that matches spec.sha256 is written to the end, however many chunks it takes. */
  lemma {:induction false} FinishPass(c: Config, body: Stream, s: State)
    requires Fits(c) && s.w.log != [] && Arrives(c, body)
    requires s.pc.WriteChunk? && s.pc.stream == body
    requires s.w.ox.disk.Some? && s.w.ox.disk.value.state.Importing? && Holds(s.w.ox.disk.value.contents, body.data)
    ensures Finalized(s, Finish(c, body, s))
    decreases BytesLeft(s.pc)
  {
    var s1 := PassStep(c, body, s);
    if LastChunk(body, s.pc.k) {
      FinishStop(c, body, s1);
    } else {
      FinishPass(c, body, s1);
    }
  }

  /** importDisk's step from each state of the import disk. */
  function Imported(c: Config, disk: Option<Disk>): Option<Disk>
    requires Fits(c)
  {
    if disk.None? then Some(Disk(Creating, Blank(DiskSize(c.length))))
    else if disk.value.state.Importing? || disk.value.state.Detached? then Dropped(disk)
    else disk
  }

  lemma FinishNewDisk(c: Config, body: Stream, s: State)
    requires Fits(c) && s.w.log != [] && FromFile(c, body) && s.pc.ViewDisk? && s.w.ox.disk.None?
    ensures Finish(c, body, s) == s.(w := s.w.(ox := s.w.ox.(disk := Imported(c, None))), pc := Idle(Progressing))
  {
    var s1 := Unroll(c, body, s);
    assert s1 == s.(pc := DownloadLength(s.pc.me));
    var s2 := Unroll(c, body, s1);
    assert s2 == s.(pc := CreateDisk(s.pc.me, DiskSize(c.length)));
    var s3 := Unroll(c, body, s2);
    assert s3.pc == Idle(Progressing);
  }

  lemma FinishStartWrite(c: Config, body: Stream, s: State)
    requires Fits(c) && s.w.log != [] && Arrives(c, body) && s.pc.StartWrite? && s.pc.stream == body
    requires s.w.ox.disk.Some? && s.w.ox.disk.value.state.ImportReady? && Holds(s.w.ox.disk.value.contents, body.data)
    ensures Finalized(s, Finish(c, body, s))
  {
    var s1 := Unroll(c, body, s);
    assert s1.pc == WriteChunk(s.pc.me, body, 0);
    FinishPass(c, body, s1);
  }

  lemma FinishReadyDisk(c: Config, body: Stream, s: State)
    requires Fits(c) && s.w.log != [] && Arrives(c, body) && s.pc.ViewDisk?
    requires s.w.ox.disk.Some? && s.w.ox.disk.value.state.ImportReady? && Holds(s.w.ox.disk.value.contents, body.data)
    requires c.length <= |s.w.ox.disk.value.contents|
    ensures Finalized(s, Finish(c, body, s))
  {
    var s1 := Unroll(c, body, s);
    assert s1 == s.(pc := DownloadBody(s.pc.me, |s.w.ox.disk.value.contents|));
    var s2 := Unroll(c, body, s1);
    assert s2 == s.(pc := StartWrite(s.pc.me, body));
    FinishStartWrite(c, body, s2);
  }

  lemma FinishOldDisk(c: Config, body: Stream, s: State)
    requires Fits(c) && s.w.log != [] && s.pc.ViewDisk?
    requires s.w.ox.disk.Some? && !s.w.ox.disk.value.state.ImportReady? && !s.w.ox.disk.value.state.Faulted?
    ensures var s' := Finish(c, body, s);
            && s'.w == s.w.(ox := s.w.ox.(disk := Imported(c, s.w.ox.disk))) && s'.floor == s.floor
            && s'.pc == Idle(if s.w.ox.disk.value.state.Importing? then Erred else Progressing)
  {
    var s1 := Unroll(c, body, s);
    if s1.pc.DropStop? {
      FinishDrop(c, body, s1);
    }
  }

  // --- Reconciles as a whole ---

  /** At viewImage, with a copy of some version that has its finalizer. */
  predicate Opened(s: State) {
    && s.w.log != [] && s.pc.ViewInProject?
    && s.pc.me.version < |s.w.log| && s.pc.me.obj == s.w.log[s.pc.me.version] && s.pc.me.obj.finalizer
    && Last(s.w).finalizer && !Last(s.w).gone && !Last(s.w).deleting
  }

  lemma AddsFinalizer(c: Config, body: Stream, s: State) returns (s': State)
    requires FullInv(c, s) && s.pc.AddFinalizer? && FromFile(c, body)
    requires s.pc.me.version == Newest(s.w) && !Last(s.w).gone && !Last(s.w).deleting
    ensures Opened(s') && FullInv(c, s') && Finish(c, body, s) == Finish(c, body, s')
    ensures s'.w == Store(s.w, Last(s.w).(finalizer := true)) && s'.pc.me.obj == Last(s'.w)
  {
    StepKeepsFullInv(c, s, Next(Clean, body));
    s' := Unroll(c, body, s);
  }

  /** A version the cache serves that has the finalizer, or can get it. */
  predicate Usable(s: State, version: nat) {
    && s.floor <= version < |s.w.log|
    && (version == |s.w.log| - 1 || s.w.log[version].finalizer)
  }

  lemma ReadsLiveObject(c: Config, body: Stream, s: State, version: nat)
    requires Inv(c, s) && Healthy(c, body, s.w) && version < |s.w.log|
    ensures !s.w.log[version].gone && !s.w.log[version].deleting
    ensures s.w.log[version].finalizer ==> Last(s.w).finalizer
  {
    assert version < Newest(s.w) ==> Follows(s.w.log[version], Last(s.w));
  }

  /** A reconcile first sees to the finalizer, and otherwise changes nothing before it looks for the image. */
  lemma ReconcileOpens(c: Config, body: Stream, s: State, version: nat) returns (s0: State)
    requires FullInv(c, s) && Healthy(c, body, s.w) && s.pc.Idle? && Usable(s, version)
    ensures Opened(s0) && FullInv(c, s0) && Reconcile(c, body, s, version) == Finish(c, body, s0)
    ensures s0.w == if Last(s.w).finalizer then s.w else Store(s.w, Last(s.w).(finalizer := true))
    ensures version == Newest(s.w) ==> s0.pc.me.obj == Last(s0.w)
  {
    ReadsLiveObject(c, body, s, version);
    StepKeepsFullInv(c, s, Begin(version));
    s0 := s.(floor := version, pc := Start(Copy(version, s.w.log[version])));
    assert s0 == Step(c, s, Begin(version));
    if !s.w.log[version].finalizer {
      s0 := AddsFinalizer(c, body, s0);
    }
  }

  /** An outdated version without the finalizer: the update conflicts, and that is all. */
  lemma OutdatedConflicts(c: Config, body: Stream, s: State, version: nat)
    requires Inv(c, s) && Healthy(c, body, s.w) && s.pc.Idle?
    requires s.floor <= version < |s.w.log| && !Usable(s, version)
    ensures Reconcile(c, body, s, version) == s.(floor := version, pc := Idle(Erred))
  {
    ReadsLiveObject(c, body, s, version);
    var s1 := Step(c, s, Begin(version));
    assert s1 == s.(floor := version, pc := AddFinalizer(Copy(version, s.w.log[version])));
    var s2 := Unroll(c, body, s1);
  }

  lemma FinishFound(c: Config, body: Stream, s: State)
    requires Fits(c) && Opened(s) && s.w.ox.image.Some?
    ensures Finish(c, body, s) == Finish(c, body, s.(pc := Found(s.pc.me, s.w.ox.image.value)))
  {
    var s1 := Unroll(c, body, s);
    if !s.w.ox.image.value.inProject {
      var s2 := Unroll(c, body, s1);
      assert s2 == s.(pc := Found(s.pc.me, s.w.ox.image.value));
    }
  }

  lemma FinishNotFound(c: Config, body: Stream, s: State)
    requires Fits(c) && Opened(s) && s.w.ox.image.None?
    ensures Finish(c, body, s) == Finish(c, body, s.(pc := ViewSnapshot(s.pc.me)))
  {
    var s1 := Unroll(c, body, s);
    var s2 := Unroll(c, body, s1);
    assert s2 == s.(pc := ViewSnapshot(s.pc.me));
  }

  /** The image a ready import snapshot turns into. */
  function Created(ox: Oxide): Oxide
    requires ox.snapshot.Some?
  {
    ox.(image := Some(OxideImage(ox.nextId, true, ox.snapshot.value.contents)), nextId := ox.nextId + 1)
  }

  lemma FinishCreate(c: Config, body: Stream, s: State)
    requires Fits(c) && s.w.log != [] && s.pc.ViewSnapshot? && s.w.ox.image.None?
    requires s.w.ox.snapshot.Some? && s.w.ox.snapshot.value.state.SnapshotReady?
    requires s.pc.me.obj.statusId != Some(s.w.ox.nextId)
    ensures var ox := Created(s.w.ox);
            Finish(c, body, s) == Finish(c, body,
                s.(w := s.w.(ox := ox), pc := CleanSnapshot(s.pc.me, Cleanup(ox.image.value))))
  {
    var s1 := Unroll(c, body, s);
    assert s1 == s.(pc := CreateImage(s.pc.me));
    var s2 := Unroll(c, body, s1);
    assert s2.w.ox == Created(s.w.ox);
  }

  // --- The measure ---

  /** How far the import is, from nothing at all down to an image recorded and placed. */
  function Stage(c: Config, w: World): nat
    requires w.log != []
  {
    var ox := w.ox;
    if ox.image.Some? then
      if Last(w).statusId == Some(ox.image.value.id) then if ox.image.value.inProject == !c.promote then 0 else 1
      else if ox.snapshot.None? then 2 else 3
    else if ox.snapshot.Some? then if ox.snapshot.value.state.SnapshotReady? then 4 else 5
    else if ox.disk.None? then 9
    else match ox.disk.value.state
         case Finalizing(snapshotting) => if snapshotting then 6 else 11
         case ImportReady => 7
         case Creating => 8
         case Detached => 10
         case Importing => 12
         case Faulted => 13
  }

  function Leftovers(ox: Oxide): (n: nat)
    ensures n <= 7
  {
    (if ox.disk.None? then 0 else if ox.disk.value.state.Detached? then 1
        else if ox.disk.value.state.Finalizing? then 2 else 3)
    + (if ox.snapshot.Some? && ox.snapshot.value.state.SnapshotCreating? then 4 else 0)
  }

  function Rank(c: Config, w: World): nat
    requires w.log != []
  {
    8 * Stage(c, w) + Leftovers(w.ox)
  }

  /** The image exists, is recorded and placed, and nothing temporary is left. */
  predicate Done(c: Config, w: World) {
    && w.log != [] && w.ox.image.Some? && NoTemporaries(w.ox)
    && Last(w).statusId == Some(w.ox.image.value.id) && w.ox.image.value.inProject == !c.promote
  }

  lemma RankZeroIsDone(c: Config, w: World)
    requires WorldInv(c, w)
    ensures Rank(c, w) == 0 <==> Done(c, w)
  {
  }

  predicate Settling(event: Event) {
    event.DiskReady? || event.DiskDetaches? || event.SnapshotAppears? || event.SnapshotBecomesReady?
  }

  /** Oxide is in the middle of something. */
  predicate CanSettle(ox: Oxide) {
    || (ox.disk.Some? && (ox.disk.value.state.Creating? || ox.disk.value.state.Finalizing?))
    || (ox.snapshot.Some? && ox.snapshot.value.state.SnapshotCreating?)
  }

  /**
   Settling brings the import closer whenever it changes anything, and can whenever Oxide is in the middle
   of something.
   */
  lemma SettlingDecreases(c: Config, body: Stream, s: State, event: Event)
    requires Inv(c, s) && Healthy(c, body, s.w) && Settling(event)
    ensures var w := Settle(s.w, event);
            Healthy(c, body, w) && (w == s.w || Rank(c, w) < Rank(c, s.w))
  {
  }

  lemma CanSettleMeansSome(c: Config, s: State)
    requires Inv(c, s)
    ensures CanSettle(s.w.ox) <==> exists event :: Settling(event) && Settle(s.w, event) != s.w
  {
    var ox := s.w.ox;
    if ox.disk.Some? && ox.disk.value.state.Creating? {
      assert Settle(s.w, DiskReady) != s.w;
    } else if Snapshotting(ox) {
      assert Settle(s.w, SnapshotAppears) != s.w;
    } else if ox.disk.Some? && ox.disk.value.state.Finalizing? {
      assert Settle(s.w, DiskDetaches) != s.w;
    } else if ox.snapshot.Some? && ox.snapshot.value.state.SnapshotCreating? {
      assert Settle(s.w, SnapshotBecomesReady) != s.w;
    }
  }

  /** What one reconcile may do: come closer, wait for Oxide, or find everything done. */
  predicate Advances(c: Config, body: Stream, w: World, s': State)
    requires w.log != [] && s'.w.log != []
  {
    && Healthy(c, body, s'.w)
    && (|| Rank(c, s'.w) < Rank(c, w)
        || (s'.w.ox == w.ox && CanSettle(w.ox) && Rank(c, s'.w) == Rank(c, w))
        || (s'.w.ox == w.ox && Done(c, w) && Done(c, s'.w)))
    && s'.pc == Idle(Reported(c, w, s'.w))
  }

  /**
   What a fault-free reconcile from w to w' returns: nil when all is done, an error while a disk that has to
   go cannot be deleted yet, and otherwise that it is progressing.
   */
  function Reported(c: Config, w: World, w': World): Outcome {
    if Done(c, w') then Nil
    else if w'.ox.image.Some? || (w.ox.snapshot.None? && w.ox.disk.Some? && w.ox.disk.value.state.Importing?) then Erred
    else Progressing
  }

  lemma RecordedAdvances(c: Config, body: Stream, s: State)
    requires Healthy(c, body, s.w) && RecordedClean(s.w.ox, Last(s.w))
    requires s.pc.Place? && s.w.ox.image == Some(s.pc.image)
    requires s.pc.me.obj.statusId == Last(s.w).statusId == Some(s.pc.image.id)
    ensures Advances(c, body, s.w, Finish(c, body, s))
  {
    FinishPlace(c, body, s);
  }

  lemma CleanupAdvances(c: Config, body: Stream, s: State)
    requires Healthy(c, body, s.w) && OxideInv(s.w.ox) && RecordedClean(s.w.ox, Last(s.w))
    requires s.pc.CleanSnapshot? && s.pc.why.Cleanup? && s.w.ox.image == Some(s.pc.why.image)
    requires s.pc.me.obj.statusId != Some(s.pc.why.image.id)
    ensures Advances(c, body, s.w, Finish(c, body, s))
  {
    FinishCleanup(c, body, s);
  }

  lemma FoundAdvances(c: Config, body: Stream, s: State)
    requires FullInv(c, s) && Healthy(c, body, s.w) && Opened(s) && s.w.ox.image.Some?
    ensures Advances(c, body, s.w, Finish(c, body, s))
  {
    assert RecordedClean(s.w.ox, Last(s.w));
    FinishFound(c, body, s);
    var found := s.(pc := Found(s.pc.me, s.w.ox.image.value));
    if found.pc.Place? {
      RecordedInNewest(c, s, s.pc.me.version);
      RecordedAdvances(c, body, found);
    } else {
      CleanupAdvances(c, body, found);
    }
  }

  lemma CreateAdvances(c: Config, body: Stream, s: State)
    requires Healthy(c, body, s.w) && OxideInv(s.w.ox)
    requires s.pc.ViewSnapshot? && RecordedClean(s.w.ox, s.pc.me.obj) && s.w.ox.snapshot.Some? && s.w.ox.image.None?
    ensures Advances(c, body, s.w, Finish(c, body, s))
  {
    if s.w.ox.snapshot.value.state.SnapshotReady? {
      FinishCreate(c, body, s);
      var ox := Created(s.w.ox);
      var s1 := s.(w := s.w.(ox := ox), pc := CleanSnapshot(s.pc.me, Cleanup(ox.image.value)));
      FinishCleanup(c, body, s1);
      assert Stage(c, s.w) == 4;
      assert Stage(c, Finish(c, body, s).w) <= 2;
    } else {
      var s1 := Unroll(c, body, s);
      assert s1 == s.(pc := Idle(Progressing));
    }
  }

  lemma ImportAdvances(c: Config, body: Stream, s: State)
    requires ContentsInv(c, s.w.ox) && Healthy(c, body, s.w)
    requires s.pc.ViewSnapshot? && s.w.ox.snapshot.None? && s.w.ox.image.None?
    ensures Advances(c, body, s.w, Finish(c, body, s))
  {
    var s1 := Unroll(c, body, s);
    DiskAdvances(c, body, s1);
  }

  lemma DiskAdvances(c: Config, body: Stream, s: State)
    requires ContentsInv(c, s.w.ox) && Healthy(c, body, s.w)
    requires s.pc.ViewDisk? && s.w.ox.snapshot.None? && s.w.ox.image.None?
    ensures Advances(c, body, s.w, Finish(c, body, s))
  {
    if s.w.ox.disk.None? {
      FinishNewDisk(c, body, s);
    } else if s.w.ox.disk.value.state.ImportReady? {
      FinishReadyDisk(c, body, s);
    } else {
      FinishOldDisk(c, body, s);
    }
  }

  lemma NotFoundAdvances(c: Config, body: Stream, s: State)
    requires FullInv(c, s) && Healthy(c, body, s.w) && Opened(s) && s.w.ox.image.None?
    ensures Advances(c, body, s.w, Finish(c, body, s))
  {
    FinishNotFound(c, body, s);
    var s1 := s.(pc := ViewSnapshot(s.pc.me));
    assert RecordedClean(s.w.ox, s.pc.me.obj);
    if s.w.ox.snapshot.Some? {
      CreateAdvances(c, body, s1);
    } else {
      ImportAdvances(c, body, s1);
    }
  }

  /**
   Every fault-free reconcile of a version with the finalizer, however old, or of the newest advances the
   import; one of any other version changes nothing.
   */
  lemma ReconcileAdvances(c: Config, body: Stream, s: State, version: nat)
    requires FullInv(c, s) && Healthy(c, body, s.w) && s.pc.Idle? && s.floor <= version < |s.w.log|
    ensures var s' := Reconcile(c, body, s, version);
            && FullInv(c, s')
            && (if Usable(s, version) then Advances(c, body, s.w, s') else s'.w == s.w && s'.pc == Idle(Erred))
  {
    ReconcileKeepsInv(c, body, s, version);
    if Usable(s, version) {
      var s0 := ReconcileOpens(c, body, s, version);
      assert s0.w.ox == s.w.ox && Rank(c, s0.w) == Rank(c, s.w);
      if s0.w.ox.image.Some? {
        FoundAdvances(c, body, s0);
      } else {
        NotFoundAdvances(c, body, s0);
      }
    } else {
      OutdatedConflicts(c, body, s, version);
    }
  }

  /** Once done, a further reconcile creates, promotes, demotes and records nothing, and returns nil again. */
  lemma DoneIsStable(c: Config, body: Stream, s: State)
    requires FullInv(c, s) && Healthy(c, body, s.w) && s.pc.Idle? && Done(c, s.w)
    ensures var s' := Reconcile(c, body, s, Newest(s.w));
            s'.w == s.w && s'.pc == Idle(Nil)
  {
    var s0 := ReconcileOpens(c, body, s, Newest(s.w));
    FinishFound(c, body, s0);
    FinishPlace(c, body, s0.(pc := Place(s0.pc.me, s0.w.ox.image.value)));
  }

  /** A ready snapshot left by an interrupted import becomes the image with its contents at the next reconcile. */
  lemma SnapshotBecomesImage(c: Config, body: Stream, s: State, version: nat)
    requires FullInv(c, s) && Healthy(c, body, s.w) && s.pc.Idle? && Usable(s, version)
    requires s.w.ox.image.None? && s.w.ox.snapshot.Some? && s.w.ox.snapshot.value.state.SnapshotReady?
    ensures var ox := Reconcile(c, body, s, version).w.ox;
            ox.image.Some? && ox.image.value.contents == s.w.ox.snapshot.value.contents
  {
    var s0 := ReconcileOpens(c, body, s, version);
    FinishNotFound(c, body, s0);
    assert RecordedClean(s0.w.ox, s0.pc.me.obj);
    CreateKeepsContents(c, body, s0.(pc := ViewSnapshot(s0.pc.me)));
  }

  lemma CreateKeepsContents(c: Config, body: Stream, s: State)
    requires Fits(c) && s.w.log != [] && !Last(s.w).gone && s.pc.ViewSnapshot? && s.w.ox.image.None?
    requires s.w.ox.snapshot.Some? && s.w.ox.snapshot.value.state.SnapshotReady?
    requires s.pc.me.obj.statusId != Some(s.w.ox.nextId)
    ensures var ox := Finish(c, body, s).w.ox;
            ox.image.Some? && ox.image.value.contents == s.w.ox.snapshot.value.contents
  {
    FinishCreate(c, body, s);
    var ox := Created(s.w.ox);
    FinishCleanup(c, body, s.(w := s.w.(ox := ox), pc := CleanSnapshot(s.pc.me, Cleanup(ox.image.value))));
  }
}
