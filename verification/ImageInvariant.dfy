/**
 What every step of an import keeps, and what follows for whole runs with crashes, lost calls and
 late effects anywhere: what an image can hold, when the temporaries are gone, and that a finished
 import is not thrown away.
 */
module ImageInvariant {
  import opened Common
  import opened ImportChunks
  import opened OxideRemote
  import opened ImageMachine

  // --- Contents ---

  /** A write pass that consumed the first n bytes of the file can be taken for a whole one. */
  predicate Accepted(c: Config, n: nat) {
    n <= |c.file| && (n == |c.file| || c.truncates) && ShaMatches(c, c.file[..n])
  }

  /** Contents an accepted pass leaves: some accepted prefix in place, and nothing but the file's bytes and zeros. */
  ghost predicate Good(c: Config, contents: seq<Byte>) {
    Compatible(c.file, contents) && exists n: nat :: Accepted(c, n) && StartsWith(c.file, n, contents)
  }

  predicate ImportDisk(c: Config, contents: seq<Byte>) {
    |contents| % IMPORT_CHUNK_SIZE == 0 && c.length <= |contents| && Compatible(c.file, contents)
  }

  /** The disk can take no more writes and will bring no snapshot. */
  predicate Spent(ox: Oxide) {
    ox.disk.Some? ==>
      ox.disk.value.state == Finalizing(false) || ox.disk.value.state.Detached? || ox.disk.value.state.Faulted?
  }

  ghost predicate ContentsInv(c: Config, ox: Oxide) {
    && (ox.disk.Some? ==> ImportDisk(c, ox.disk.value.contents))
    && (Snapshotting(ox) ==> Good(c, ox.disk.value.contents))
    && (ox.snapshot.Some? ==> Good(c, ox.snapshot.value.contents))
    && (ox.image.Some? ==> Good(c, ox.image.value.contents))
  }

  predicate OxideInv(ox: Oxide) {
    && (ox.snapshot.Some? ==> Spent(ox))
    && (ox.image.Some? ==> Spent(ox) && ox.image.value.id < ox.nextId)
  }

  // --- The object's versions ---

  predicate NoTemporaries(ox: Oxide) {
    ox.disk.None? && ox.snapshot.None?
  }

  /** The existing image's ID is recorded in this version only once its temporaries are gone. */
  predicate RecordedClean(ox: Oxide, o: Object) {
    && (o.statusId.Some? ==> o.statusId.value < ox.nextId)
    && (ox.image.Some? && o.statusId == Some(ox.image.value.id) ==> NoTemporaries(ox))
  }

  /** Deletion is for good; a finalizer goes only with the object, which then is the last version. */
  predicate Follows(o: Object, o': Object) {
    && (o.deleting ==> o'.deleting)
    && (o.finalizer ==> o'.finalizer || o'.gone)
    && !o.gone
  }

  predicate LogInv(log: seq<Object>) {
    && log != []
    && (forall i, j :: 0 <= i < j < |log| ==> Follows(log[i], log[j]))
    && (forall i :: 0 <= i < |log| && log[i].gone ==> log[i].deleting)
  }

  ghost predicate WorldInv(c: Config, w: World) {
    && OxideInv(w.ox) && ContentsInv(c, w.ox)
    && LogInv(w.log)
    && (forall i :: 0 <= i < |w.log| ==> RecordedClean(w.ox, w.log[i]))
    && (!Last(w).finalizer && !Last(w).gone ==> Empty(w.ox))
  }

  // --- Where the controller is ---

  predicate CopyOf(me: Copy, s: State) {
    s.floor <= me.version < |s.w.log| && s.w.log[me.version] == me.obj
  }

  /** Reconciling an object that was not being deleted when read: it is still there, with its finalizer. */
  predicate Live(me: Copy, s: State) {
    CopyOf(me, s) && me.obj.finalizer && !me.obj.deleting
  }

  predicate Doomed(me: Copy, s: State) {
    CopyOf(me, s) && me.obj.deleting && me.version == s.floor
  }

  /** No image and no snapshot, and an import disk in state st unless it faulted. */
  predicate Writing(ox: Oxide, st: DiskState) {
    ox.image.None? && ox.snapshot.None? && ox.disk.Some? && (ox.disk.value.state == st || ox.disk.value.state.Faulted?)
  }

  predicate IsImage(ox: Oxide, image: OxideImage) {
    image.id < ox.nextId && (ox.image.Some? ==>
        ox.image.value.id == image.id && ox.image.value.inProject == image.inProject)
  }

  predicate Placed(c: Config, ox: Oxide) {
    ox.image.Some? ==> ox.image.value.inProject == !c.promote
  }

  predicate WhyInv(me: Copy, why: Why, s: State) {
    match why
    case Deletion => Doomed(me, s)
    case Cleanup(image) => Live(me, s) && IsImage(s.w.ox, image) && Spent(s.w.ox)
    case _ => Live(me, s) && s.w.ox.image.None?
  }

  /** What each program point knows about which objects exist. */
  predicate PcInv(c: Config, s: State)
  {
    var ox := s.w.ox;
    match s.pc
    case Idle(outcome) => outcome.Nil? ==> Placed(c, ox)
    case AddFinalizer(me) => CopyOf(me, s) && !me.obj.deleting
    case ViewInProject(me) => Live(me, s)
    case ViewInSilo(me) => Live(me, s) && (ox.image.Some? ==> !ox.image.value.inProject)
    case ViewSnapshot(me) => Live(me, s) && ox.image.None?
    case CreateImage(me) => Live(me, s) && ox.image.None? && ox.snapshot.Some?
    case ViewDisk(me) => Live(me, s) && ox.image.None? && (ox.snapshot.Some? ==> ox.disk.Some?)
    case DownloadLength(me) => Live(me, s) && Empty(ox)
    case CreateDisk(me, size) => Live(me, s) && Empty(ox) && size == DiskSize(c.length)
    case DownloadBody(me, size) => Live(me, s) && Writing(ox, ImportReady) && size == |ox.disk.value.contents|
    case StartWrite(me, stream) => Live(me, s) && Writing(ox, ImportReady) && FromFile(c, stream)
    case WriteChunk(me, stream, _) => Live(me, s) && Writing(ox, Importing) && FromFile(c, stream)
    case StopWrite(me) => Live(me, s) && Writing(ox, Importing)
    case FinalizeDisk(me) => Live(me, s) && Writing(ox, ImportReady)
    case CleanSnapshot(me, why) => WhyInv(me, why, s) && (why.Cleanup? || why.Deletion?)
    case DropStop(me, why) => WhyInv(me, why, s) && (why.Cleanup? ==> ox.snapshot.None?)
    case DropFinalize(me, why) => WhyInv(me, why, s) && (why.Cleanup? ==> ox.snapshot.None?)
    case DropDisk(me, why) => WhyInv(me, why, s) && (why.Cleanup? ==> ox.snapshot.None?)
    case Place(me, image) => Live(me, s) && NoTemporaries(ox) && IsImage(ox, image)
    case RecordStatus(me, id, result) =>
      && Live(me, s) && NoTemporaries(ox) && id < ox.nextId && (ox.image.Some? ==> ox.image.value.id == id)
      && (result.Nil? ==> Placed(c, ox))
    case _ => Doomed(s.pc.me, s)
  }

  /** What the program points of a write pass know about the disk's contents. */
  ghost predicate PassInv(c: Config, ox: Oxide, pc: Pc) {
    match pc
    case WriteChunk(_, stream, k) =>
      ox.disk.Some? && StartsWith(stream.data, Reach(stream.data, k), ox.disk.value.contents)
    case StopWrite(_) => ox.disk.Some? && Good(c, ox.disk.value.contents)
    case FinalizeDisk(_) => ox.disk.Some? && Good(c, ox.disk.value.contents)
    case _ => true
  }

  /** The object is gone only after a reconcile read its deletion, or if it never had a finalizer. */
  predicate GoneInv(s: State)
    requires s.w.log != [] && s.floor < |s.w.log|
  {
    Last(s.w).gone ==> s.w.log[s.floor].deleting || forall i :: 0 <= i < |s.w.log| ==> !s.w.log[i].finalizer
  }

  ghost predicate Inv(c: Config, s: State) {
    && Fits(c)
    && WorldInv(c, s.w)
    && s.floor < |s.w.log| && GoneInv(s)
    && PcInv(c, s) && PassInv(c, s.w.ox, s.pc)
  }

  // --- Every step keeps it ---

  /** A live copy proves the object is still there with its finalizer. */
  lemma LiveObject(s: State, me: Copy)
    requires LogInv(s.w.log) && s.floor < |s.w.log| && GoneInv(s) && Live(me, s)
    ensures !Last(s.w).gone && Last(s.w).finalizer
  {
    if me.version < |s.w.log| - 1 {
      assert Follows(s.w.log[me.version], Last(s.w));
    }
    if s.floor < me.version {
      assert Follows(s.w.log[s.floor], s.w.log[me.version]);
    }
  }

  lemma StoreKeepsLog(w: World, o: Object)
    requires LogInv(w.log) && Follows(Last(w), o) && (o.gone ==> o.deleting)
    ensures LogInv(Store(w, o).log)
  {
    var log := Store(w, o).log;
    forall i, j | 0 <= i < j < |log|
      ensures Follows(log[i], log[j])
    {
      if j == |w.log| && i < |w.log| - 1 {
        assert Follows(log[i], Last(w));
      }
    }
  }

  lemma SettleKeepsWorld(c: Config, w: World, event: Event)
    requires WorldInv(c, w)
    ensures WorldInv(c, Settle(w, event))
  {
    if event.UserDeletes? {
      var o := Last(w);
      if !o.deleting && !o.gone {
        StoreKeepsLog(w, o.(deleting := true, gone := !o.finalizer));
      }
    }
  }

  /** What settling can change: an image vanishes, a snapshot appears out of a finalizing disk, a disk moves on. */
  predicate Settles(ox: Oxide, ox': Oxide) {
    && ox'.nextId == ox.nextId
    && (ox'.image == ox.image || ox'.image.None?)
    && ox'.disk.Some? == ox.disk.Some?
    && (ox.disk.Some? ==> |ox'.disk.value.contents| == |ox.disk.value.contents|)
    && (Spent(ox) ==> Spent(ox'))
    && (ox.snapshot.Some? ==> ox'.snapshot.Some?)
    && (ox'.snapshot.Some? ==> ox.snapshot.Some? || Snapshotting(ox))
    && (ox.disk.Some? && (ox.disk.value.state.ImportReady? || ox.disk.value.state.Importing?
        || ox.disk.value.state.Faulted?) ==>
          ox'.disk.value.state == ox.disk.value.state || ox'.disk.value.state.Faulted?)
  }

  lemma SettlingSettles(ox: Oxide, event: Event)
    requires !event.UserDeletes?
    ensures Settles(ox, SettleOxide(ox, event))
  {
  }

  lemma SettledPlan(c: Config, s: State, ox': Oxide)
    requires Fits(c) && PcInv(c, s) && Settles(s.w.ox, ox') && 18 <= Phase(s.pc)
    ensures PcInv(c, s.(w := s.w.(ox := ox')))
  {
  }

  lemma SettledWrite(c: Config, s: State, ox': Oxide)
    requires Fits(c) && PcInv(c, s) && Settles(s.w.ox, ox') && 14 <= Phase(s.pc) < 18
    ensures PcInv(c, s.(w := s.w.(ox := ox')))
  {
  }

  lemma SettledDrop(c: Config, s: State, ox': Oxide)
    requires Fits(c) && PcInv(c, s) && Settles(s.w.ox, ox') && 10 <= Phase(s.pc) < 14
    ensures PcInv(c, s.(w := s.w.(ox := ox')))
  {
  }

  lemma SettledRest(c: Config, s: State, ox': Oxide)
    requires Fits(c) && PcInv(c, s) && Settles(s.w.ox, ox') && Phase(s.pc) < 10
    ensures PcInv(c, s.(w := s.w.(ox := ox')))
  {
  }

  lemma SettledPc(c: Config, s: State, ox': Oxide)
    requires Fits(c) && PcInv(c, s) && Settles(s.w.ox, ox')
    ensures PcInv(c, s.(w := s.w.(ox := ox')))
  {
    if 18 <= Phase(s.pc) {
      SettledPlan(c, s, ox');
    } else if 14 <= Phase(s.pc) {
      SettledWrite(c, s, ox');
    } else if 10 <= Phase(s.pc) {
      SettledDrop(c, s, ox');
    } else {
      SettledRest(c, s, ox');
    }
  }

  lemma SettleKeepsPc(c: Config, s: State, event: Event)
    requires Fits(c) && s.w.log != [] && PcInv(c, s) && OxideInv(s.w.ox)
    ensures PcInv(c, Step(c, s, Env(event)))
  {
    if !event.UserDeletes? {
      SettlingSettles(s.w.ox, event);
      SettledPc(c, s, SettleOxide(s.w.ox, event));
    }
  }

  lemma SettleKeepsPass(c: Config, s: State, event: Event)
    requires s.w.log != [] && PassInv(c, s.w.ox, s.pc)
    ensures PassInv(c, Settle(s.w, event).ox, s.pc)
  {
    var ox, ox' := s.w.ox, Settle(s.w, event).ox;
    assert ox'.disk.Some? == ox.disk.Some?;
    assert ox.disk.Some? ==> ox'.disk.value.contents == ox.disk.value.contents;
  }

  lemma EnvKeepsInv(c: Config, s: State, event: Event)
    requires Inv(c, s)
    ensures Inv(c, Step(c, s, Env(event)))
  {
    SettleKeepsWorld(c, s.w, event);
    SettleKeepsPc(c, s, event);
    SettleKeepsPass(c, s, event);
    var s' := Step(c, s, Env(event));
    if Last(s'.w).gone && !Last(s.w).gone {
      assert forall i :: 0 <= i < |s.w.log| - 1 ==> Follows(s.w.log[i], Last(s.w));
    }
  }

  lemma BeginKeepsInv(c: Config, s: State, version: nat)
    requires Inv(c, s)
    ensures Inv(c, Step(c, s, Begin(version)))
  {
    if s.floor < version < |s.w.log| {
      assert Follows(s.w.log[s.floor], s.w.log[version]);
    }
  }

  // Calls, one concern at a time.

  predicate ObjectCall(pc: Pc) {
    pc.AddFinalizer? || pc.RecordStatus? || pc.RemoveFinalizer?
  }

  /** Facts about the object that Found relies on. */
  predicate Readable(s: State) {
    s.w.log != [] && OxideInv(s.w.ox) && (!s.pc.Idle? ==> RecordedClean(s.w.ox, s.pc.me.obj))
  }

  lemma ViewKeepsPc(c: Config, s: State, fault: Fault, stream: Stream)
    requires Fits(c) && Readable(s) && PcInv(c, s)
    requires s.pc.ViewInProject? || s.pc.ViewInSilo? || s.pc.FindInProject? || s.pc.FindInSilo?
    ensures PcInv(c, Step(c, s, Next(fault, stream)))
  {
  }

  lemma PlanKeepsPc(c: Config, s: State, fault: Fault, stream: Stream)
    requires Fits(c) && Readable(s) && PcInv(c, s) && FromFile(c, stream)
    requires s.pc.ViewSnapshot? || s.pc.ViewDisk? || s.pc.DownloadLength? || s.pc.DownloadBody?
    ensures PcInv(c, Step(c, s, Next(fault, stream)))
  {
  }

  lemma DiskKeepsPc(c: Config, s: State, fault: Fault, stream: Stream)
    requires Fits(c) && Readable(s) && PcInv(c, s)
    requires s.pc.CreateDisk? || s.pc.StartWrite?
    ensures PcInv(c, Step(c, s, Next(fault, stream)))
  {
  }

  lemma ChunkKeepsPc(c: Config, s: State, fault: Fault, stream: Stream)
    requires Fits(c) && Readable(s) && PcInv(c, s)
    requires s.pc.WriteChunk?
    ensures PcInv(c, Step(c, s, Next(fault, stream)))
  {
    var call := ChunkCall(c, s.pc.stream, s.pc.k);
    assert call.Local? || call.BulkWrite?;
  }

  lemma StopKeepsPc(c: Config, s: State, fault: Fault, stream: Stream)
    requires Fits(c) && Readable(s) && PcInv(c, s)
    requires s.pc.StopWrite? || s.pc.FinalizeDisk?
    ensures PcInv(c, Step(c, s, Next(fault, stream)))
  {
  }

  lemma DropKeepsPc(c: Config, s: State, fault: Fault, stream: Stream)
    requires Fits(c) && Readable(s) && PcInv(c, s)
    requires s.pc.DropStop? || s.pc.DropFinalize?
    ensures PcInv(c, Step(c, s, Next(fault, stream)))
  {
  }

  lemma DeleteKeepsPc(c: Config, s: State, fault: Fault, stream: Stream)
    requires Fits(c) && Readable(s) && PcInv(c, s)
    requires s.pc.CleanSnapshot? || s.pc.DropDisk?
    ensures PcInv(c, Step(c, s, Next(fault, stream)))
  {
  }

  lemma ImageKeepsPc(c: Config, s: State, fault: Fault, stream: Stream)
    requires Fits(c) && Readable(s) && PcInv(c, s)
    requires s.pc.CreateImage? || s.pc.Place? || s.pc.DeleteImage?
    ensures PcInv(c, Step(c, s, Next(fault, stream)))
  {
  }

  lemma ObjectKeepsPc(c: Config, s: State, fault: Fault, stream: Stream)
    requires Fits(c) && Readable(s) && PcInv(c, s) && ObjectCall(s.pc)
    ensures PcInv(c, Step(c, s, Next(fault, stream)))
  {
  }

  /** Oxide's own refusals keep a spent disk spent; only a disk is created, and only when nothing else is there. */
  lemma AnswerKeepsOxide(ox: Oxide, call: Call)
    requires OxideInv(ox) && (call.DiskCreate? ==> NoTemporaries(ox) && ox.image.None?)
    ensures OxideInv(AnswerOxide(ox, call).0)
  {
  }

  lemma OxideCallKeepsOxide(c: Config, s: State, fault: Fault, stream: Stream)
    requires s.w.log != [] && OxideInv(s.w.ox) && PcInv(c, s) && !s.pc.Idle? && !ObjectCall(s.pc)
    ensures OxideInv(Step(c, s, Next(fault, stream)).w.ox)
  {
    var call := CallAt(c, s.pc);
    if !call.Local? && !call.Download? {
      AnswerKeepsOxide(s.w.ox, call);
    }
  }

  lemma AnswerKeepsContents(c: Config, ox: Oxide, call: Call)
    requires ContentsInv(c, ox) && !call.BulkWrite?
    requires call.DiskCreate? ==> |c.file| <= c.length <= call.size && call.size % IMPORT_CHUNK_SIZE == 0
    requires call == FinalizeImport(true) && ox.disk.Some? ==> Good(c, ox.disk.value.contents)
    ensures ContentsInv(c, AnswerOxide(ox, call).0)
  {
  }

  lemma OxideCallKeepsContents(c: Config, s: State, fault: Fault, stream: Stream)
    requires Fits(c) && s.w.log != [] && ContentsInv(c, s.w.ox) && PcInv(c, s) && PassInv(c, s.w.ox, s.pc)
    requires !s.pc.Idle? && !ObjectCall(s.pc) && !s.pc.WriteChunk?
    ensures ContentsInv(c, Step(c, s, Next(fault, stream)).w.ox)
  {
    DiskSizeHolds(c.length);
    var call := CallAt(c, s.pc);
    if !call.Local? && !call.Download? {
      AnswerKeepsContents(c, s.w.ox, call);
    }
  }

  /** Only a write pass has to remember what it wrote. */
  lemma CallKeepsPass(c: Config, s: State, fault: Fault, stream: Stream)
    requires Fits(c) && s.w.log != [] && PcInv(c, s) && PassInv(c, s.w.ox, s.pc) && !s.pc.WriteChunk?
    ensures PassInv(c, Step(c, s, Next(fault, stream)).w.ox, Step(c, s, Next(fault, stream)).pc)
  {
  }

  /** The call at chunk k, when it goes through, does to the disk what Put does. */
  lemma ChunkCallPuts(c: Config, s: State, stream: Stream)
    requires s.w.log != [] && s.pc.WriteChunk? && Writing(s.w.ox, Importing) && FromFile(c, s.pc.stream)
    requires Holds(s.w.ox.disk.value.contents, c.file)
    ensures var st, k, d := s.pc.stream, s.pc.k, s.w.ox.disk.value;
            var call := ChunkCall(c, st, k);
            var (w, reply) := Answer(s.w, call, stream);
            if call.Local? then w == s.w && reply.Ok?
                && (!(LastChunk(st, k) && st.ending.Broken?) ==>
                    Put(d.contents, st.data, k, c.blockSize, true) == d.contents)
            else if reply.Ok? then
              w == s.w.(ox := s.w.ox.(disk := Some(d.(contents := Put(d.contents, st.data, k, c.blockSize, true)))))
            else w == s.w && reply.Error?
  {
    var st, k, d := s.pc.stream, s.pc.k, s.w.ox.disk.value;
    if Payload(st.data, k, c.blockSize) != [] {
      WriteFits(d.contents, st.data, k, c.blockSize);
    }
  }

  /** A body that ends without breaking and matches spec.sha256 was accepted. */
  lemma ConsumedIsAccepted(c: Config, stream: Stream)
    requires FromFile(c, stream) && !stream.ending.Broken? && ShaMatches(c, stream.data)
    ensures Accepted(c, |stream.data|)
  {
    assert c.file[..|stream.data|] == stream.data;
  }

  lemma ChunkKeepsInv(c: Config, s: State, fault: Fault, stream: Stream)
    requires Fits(c) && s.w.log != [] && ContentsInv(c, s.w.ox) && PcInv(c, s) && PassInv(c, s.w.ox, s.pc)
        && s.pc.WriteChunk?
    ensures var s' := Step(c, s, Next(fault, stream));
            ContentsInv(c, s'.w.ox) && PassInv(c, s'.w.ox, s'.pc)
  {
    var st, k, d := s.pc.stream, s.pc.k, s.w.ox.disk.value;
    var s' := Step(c, s, Next(fault, stream));
    ChunkCallPuts(c, s, stream);
    PutKeeps(c.file, st.data, d.contents, k, c.blockSize, true);
    var d' := s'.w.ox.disk.value;
    assert d'.contents == d.contents || d'.contents == Put(d.contents, st.data, k, c.blockSize, true);
    if s'.pc.StopWrite? {
      ConsumedIsAccepted(c, st);
      assert StartsWith(c.file, |st.data|, d'.contents);
    }
  }

  /** An image keeps its ID and stays clean of temporaries, or is new with a fresh ID; nothing else appears unasked. */
  predicate KeepsIds(ox: Oxide, ox': Oxide) {
    && ox.nextId <= ox'.nextId
    && (ox'.image.Some? ==>
          (ox.image.Some? && ox'.image.value.id == ox.image.value.id && (NoTemporaries(ox) ==> NoTemporaries(ox'))) ||
          ox'.image.value.id == ox.nextId)
  }

  lemma OxideCallKeepsIds(c: Config, s: State, fault: Fault, stream: Stream)
    requires Fits(c) && s.w.log != [] && PcInv(c, s) && !s.pc.Idle? && !ObjectCall(s.pc)
    ensures var s' := Step(c, s, Next(fault, stream));
            && s'.w.log == s.w.log && KeepsIds(s.w.ox, s'.w.ox)
            && (Empty(s.w.ox) && !s.pc.CreateDisk? ==> Empty(s'.w.ox))
  {
  }

  lemma OxideCallKeepsLog(c: Config, s: State, fault: Fault, stream: Stream)
    requires Inv(c, s) && !s.pc.Idle? && !ObjectCall(s.pc)
    ensures var s' := Step(c, s, Next(fault, stream));
            && s'.w.log == s.w.log
            && (forall i :: 0 <= i < |s'.w.log| ==> RecordedClean(s'.w.ox, s'.w.log[i]))
            && (!Last(s'.w).finalizer && !Last(s'.w).gone ==> Empty(s'.w.ox))
  {
    OxideCallKeepsIds(c, s, fault, stream);
    if s.pc.CreateDisk? {
      LiveObject(s, s.pc.me);
    }
    var s' := Step(c, s, Next(fault, stream));
    forall i | 0 <= i < |s'.w.log|
      ensures RecordedClean(s'.w.ox, s'.w.log[i])
    {
      assert RecordedClean(s.w.ox, s.w.log[i]);
    }
  }

  lemma ObjectCallKeepsWorld(c: Config, s: State, fault: Fault, stream: Stream)
    requires Inv(c, s) && ObjectCall(s.pc)
    ensures var s' := Step(c, s, Next(fault, stream));
            WorldInv(c, s'.w) && GoneInv(s') && s.floor < |s'.w.log|
  {
    if s.pc.RecordStatus? {
      RecordingKeepsWorld(c, s, fault, stream);
    } else {
      FinalizerCallKeepsWorld(c, s, fault, stream);
    }
  }

  lemma RecordingKeepsWorld(c: Config, s: State, fault: Fault, stream: Stream)
    requires Inv(c, s) && s.pc.RecordStatus?
    ensures var s' := Step(c, s, Next(fault, stream));
            WorldInv(c, s'.w) && GoneInv(s') && s.floor < |s'.w.log|
  {
    var s' := Step(c, s, Next(fault, stream));
    if s'.w.log != s.w.log {
      StoreKeepsLog(s.w, Last(s'.w));
    }
    LiveObject(s, s.pc.me);
  }

  lemma FinalizerCallKeepsWorld(c: Config, s: State, fault: Fault, stream: Stream)
    requires Inv(c, s) && (s.pc.AddFinalizer? || s.pc.RemoveFinalizer?)
    ensures var s' := Step(c, s, Next(fault, stream));
            WorldInv(c, s'.w) && GoneInv(s') && s.floor < |s'.w.log|
  {
    var s' := Step(c, s, Next(fault, stream));
    if s'.w.log != s.w.log {
      StoreKeepsLog(s.w, Last(s'.w));
    }
  }

  lemma PlanCallKeepsPc(c: Config, s: State, fault: Fault, stream: Stream)
    requires Fits(c) && Readable(s) && PcInv(c, s) && FromFile(c, stream)
    requires s.pc.ViewSnapshot? || 18 <= Phase(s.pc) < 20
    ensures PcInv(c, Step(c, s, Next(fault, stream)))
  {
    if s.pc.CreateImage? {
      ImageKeepsPc(c, s, fault, stream);
    } else {
      PlanKeepsPc(c, s, fault, stream);
    }
  }

  lemma WriteCallKeepsPc(c: Config, s: State, fault: Fault, stream: Stream)
    requires Fits(c) && Readable(s) && PcInv(c, s)
    requires 14 <= Phase(s.pc) < 18
    ensures PcInv(c, Step(c, s, Next(fault, stream)))
  {
    if s.pc.WriteChunk? {
      ChunkKeepsPc(c, s, fault, stream);
    } else if s.pc.StopWrite? || s.pc.FinalizeDisk? {
      StopKeepsPc(c, s, fault, stream);
    } else {
      DiskKeepsPc(c, s, fault, stream);
    }
  }

  lemma OtherCallKeepsPc(c: Config, s: State, fault: Fault, stream: Stream)
    requires Fits(c) && Readable(s) && PcInv(c, s) && !s.pc.Idle?
    requires Phase(s.pc) < 14 || Phase(s.pc) >= 21
    ensures PcInv(c, Step(c, s, Next(fault, stream)))
  {
    if ObjectCall(s.pc) {
      ObjectKeepsPc(c, s, fault, stream);
    } else if s.pc.Place? || s.pc.DeleteImage? {
      ImageKeepsPc(c, s, fault, stream);
    } else if s.pc.DropStop? || s.pc.DropFinalize? {
      DropKeepsPc(c, s, fault, stream);
    } else if s.pc.CleanSnapshot? || s.pc.DropDisk? {
      DeleteKeepsPc(c, s, fault, stream);
    } else {
      ViewKeepsPc(c, s, fault, stream);
    }
  }

  lemma CallKeepsPc(c: Config, s: State, fault: Fault, stream: Stream)
    requires Fits(c) && Readable(s) && PcInv(c, s) && FromFile(c, stream) && !s.pc.Idle?
    ensures PcInv(c, Step(c, s, Next(fault, stream)))
  {
    if 18 <= Phase(s.pc) < 21 {
      PlanCallKeepsPc(c, s, fault, stream);
    } else if 14 <= Phase(s.pc) < 18 {
      WriteCallKeepsPc(c, s, fault, stream);
    } else {
      OtherCallKeepsPc(c, s, fault, stream);
    }
  }

  lemma PcHasCopy(c: Config, s: State)
    requires Fits(c) && PcInv(c, s) && !s.pc.Idle?
    ensures CopyOf(s.pc.me, s)
  {
  }

  lemma ObjectCallKeepsInv(c: Config, s: State, fault: Fault, stream: Stream)
    requires Inv(c, s) && ObjectCall(s.pc) && PcInv(c, Step(c, s, Next(fault, stream)))
    ensures Inv(c, Step(c, s, Next(fault, stream)))
  {
    ObjectCallKeepsWorld(c, s, fault, stream);
    CallKeepsPass(c, s, fault, stream);
  }

  lemma OxideCallKeepsBytes(c: Config, s: State, fault: Fault, stream: Stream)
    requires Inv(c, s) && !s.pc.Idle? && !ObjectCall(s.pc)
    ensures var s' := Step(c, s, Next(fault, stream));
            ContentsInv(c, s'.w.ox) && PassInv(c, s'.w.ox, s'.pc)
  {
    if s.pc.WriteChunk? {
      ChunkKeepsInv(c, s, fault, stream);
    } else {
      OxideCallKeepsContents(c, s, fault, stream);
      CallKeepsPass(c, s, fault, stream);
    }
  }

  lemma OxideCallKeepsWorld(c: Config, s: State, fault: Fault, stream: Stream)
    requires Inv(c, s) && !s.pc.Idle? && !ObjectCall(s.pc)
    ensures var s' := Step(c, s, Next(fault, stream));
            WorldInv(c, s'.w) && s'.w.log == s.w.log && PassInv(c, s'.w.ox, s'.pc)
  {
    OxideCallKeepsBytes(c, s, fault, stream);
    OxideCallKeepsOxide(c, s, fault, stream);
    OxideCallKeepsLog(c, s, fault, stream);
  }

  lemma Assemble(c: Config, s: State, s': State)
    requires Inv(c, s) && WorldInv(c, s'.w) && s'.w.log == s.w.log && s'.floor == s.floor
    requires PcInv(c, s') && PassInv(c, s'.w.ox, s'.pc)
    ensures Inv(c, s')
  {
  }

  lemma NextKeepsInv(c: Config, s: State, fault: Fault, stream: Stream)
    requires Inv(c, s) && FromFile(c, stream)
    ensures Inv(c, Step(c, s, Next(fault, stream)))
  {
    if !s.pc.Idle? {
      PcHasCopy(c, s);
      CallKeepsPc(c, s, fault, stream);
      if ObjectCall(s.pc) {
        ObjectCallKeepsInv(c, s, fault, stream);
      } else {
        OxideCallKeepsWorld(c, s, fault, stream);
        Assemble(c, s, Step(c, s, Next(fault, stream)));
      }
    }
  }

  /** Every action keeps the invariant. */
  lemma StepKeepsInv(c: Config, s: State, a: Action)
    requires Inv(c, s) && Allowed(c, a)
    ensures Inv(c, Step(c, s, a))
  {
    match a
    case Env(event) => EnvKeepsInv(c, s, event);
    case Begin(version) => BeginKeepsInv(c, s, version);
    case Next(fault, stream) => NextKeepsInv(c, s, fault, stream);
    case Crash =>
  }

  /** So it holds after every run, from any state where it holds. */
  lemma {:induction false} RunKeepsInv(c: Config, s: State, acts: seq<Action>)
    requires Inv(c, s) && AllAllowed(c, acts)
    ensures Inv(c, Exec(c, s, acts))
    decreases |acts|
  {
    if acts != [] {
      RunKeepsInv(c, s, acts[..|acts| - 1]);
      StepKeepsInv(c, Exec(c, s, acts[..|acts| - 1]), acts[|acts| - 1]);
    }
  }

  lemma InitHasInv(c: Config)
    requires Fits(c)
    ensures Inv(c, Init())
  {
  }
}
