/**
 The image controller as a state machine. Each reconcile restarts from what it reads; between
 two calls Oxide may settle, users may act, and the operator may crash. Every action is labelled,
 so a run is a sequence of labels and a statement about all label sequences is one about all runs.
 */
module ImageMachine {
  import opened Common
  import opened ImportChunks
  import opened OxideRemote

  /**
   One Image with a url: the file there and the length its server declares, spec.sha256 with the
   digest function it is checked by, spec.blockSize and spec.promote; and whether downloads may be
   cut short unnoticed.
   */
  datatype Config = Config(file: seq<Byte>, length: Length, sha: Option<int>, digest: seq<Byte> -> int,
                           blockSize: BlockSize, promote: bool, truncates: bool)

  /** The copy of the object a reconcile works on, and which version it is. */
  datatype Copy = Copy(version: nat, obj: Object)

  /** Who called deleteImportDisk, and so what follows it. */
  datatype Why = Restarting | WriteFailed(failed: bool) | Cleanup(image: OxideImage) | Deletion

  /** How the last reconcile ended; Ignored when there was nothing to reconcile. */
  datatype Outcome = Ignored | Crashed | Nil | Progressing | Erred | Failed | Deleted

  /** The next call of the controller, with the local variables still needed. */
  datatype Pc =
    | Idle(outcome: Outcome)
    | AddFinalizer(me: Copy)
    | ViewInProject(me: Copy) | ViewInSilo(me: Copy)
    | ViewSnapshot(me: Copy) | CreateImage(me: Copy)
    | ViewDisk(me: Copy) | DownloadLength(me: Copy) | CreateDisk(me: Copy, size: nat)
    | DownloadBody(me: Copy, size: nat) | StartWrite(me: Copy, stream: Stream)
    | WriteChunk(me: Copy, stream: Stream, k: nat) | StopWrite(me: Copy) | FinalizeDisk(me: Copy)
    | CleanSnapshot(me: Copy, why: Why)
    | DropStop(me: Copy, why: Why) | DropFinalize(me: Copy, why: Why) | DropDisk(me: Copy, why: Why)
    | Place(me: Copy, image: OxideImage) | RecordStatus(me: Copy, id: nat, result: Outcome)
    | FindInProject(me: Copy) | FindInSilo(me: Copy) | DeleteImage(me: Copy, id: nat) | RemoveFinalizer(me: Copy)

  /** floor is the newest version the cache has served: reads never go back. */
  datatype State = State(w: World, floor: nat, pc: Pc)

  datatype Action =
    | Env(event: Event)
    | Begin(version: nat)
    | Next(fault: Fault, stream: Stream)
    | Crash

  // --- Control flow of the controller ---

  /** Reconcile up to its first call. */
  function Start(me: Copy): Pc {
    var o := me.obj;
    if o.gone then Idle(Ignored)
    else if o.deleting then if o.finalizer then CleanSnapshot(me, Deletion) else Idle(Ignored)
    else if o.finalizer then ViewInProject(me)
    else AddFinalizer(me)
  }

  /** ReadFull did not fill the buffer at chunk k, so it is the last. */
  predicate LastChunk(stream: Stream, k: nat) {
    |stream.data| < (k + 1) * IMPORT_CHUNK_SIZE
  }

  /** The write of chunk k, unless the body breaks in it or it is all zeros. */
  function ChunkCall(c: Config, stream: Stream, k: nat): Call {
    var p := Payload(stream.data, k, c.blockSize);
    if (LastChunk(stream, k) && stream.ending.Broken?) || Zeros(p) then Local
    else BulkWrite(k * IMPORT_CHUNK_SIZE, p)
  }

  predicate ShaMatches(c: Config, data: seq<Byte>) {
    c.sha.None? || c.digest(data) == c.sha.value
  }

  /** After chunk k went well. */
  function AfterChunk(c: Config, me: Copy, stream: Stream, k: nat): Pc {
    if !LastChunk(stream, k) then WriteChunk(me, stream, k + 1)
    else if stream.ending.Broken? then DropStop(me, WriteFailed(false))
    else if !ShaMatches(c, stream.data) then DropStop(me, WriteFailed(true))
    else StopWrite(me)
  }

  /** An image was found or made: clean up its import first if its ID is news. */
  function Found(me: Copy, image: OxideImage): Pc {
    if me.obj.statusId == Some(image.id) then Place(me, image) else CleanSnapshot(me, Cleanup(image))
  }

  function PlaceCall(c: Config, image: OxideImage): Call {
    if c.promote && image.inProject then ImagePromote(image.id)
    else if !c.promote && !image.inProject then ImageDemote(image.id)
    else Local
  }

  function CallAt(c: Config, pc: Pc): Call {
    match pc
    case Idle(_) => Local
    case AddFinalizer(me) => UpdateObject(me.version, true)
    case ViewInProject(_) => ImageView(true)
    case ViewInSilo(_) => ImageView(false)
    case ViewSnapshot(_) => SnapshotView
    case CreateImage(_) => ImageCreate
    case ViewDisk(_) => DiskView
    case DownloadLength(_) => Download
    case CreateDisk(_, size) => DiskCreate(size)
    case DownloadBody(_, _) => Download
    case StartWrite(_, _) => BulkStart
    case WriteChunk(_, stream, k) => ChunkCall(c, stream, k)
    case StopWrite(_) => BulkStop
    case FinalizeDisk(_) => FinalizeImport(true)
    case CleanSnapshot(_, _) => SnapshotDelete
    case DropStop(_, _) => BulkStop
    case DropFinalize(_, _) => FinalizeImport(false)
    case DropDisk(_, _) => DiskDelete
    case Place(_, image) => PlaceCall(c, image)
    case RecordStatus(me, id, _) => PatchStatus(me.obj.statusId, id)
    case FindInProject(_) => ImageView(true)
    case FindInSilo(_) => ImageView(false)
    case DeleteImage(_, id) => ImageDelete(id)
    case RemoveFinalizer(me) => UpdateObject(me.version, false)
  }

  predicate GoneOk(reply: Reply) {
    reply.Ok? || reply.NotFound?
  }

  function AfterViewDisk(me: Copy, reply: Reply): Pc {
    match reply
    case NotFound => DownloadLength(me)
    case GotDisk(ImportReady, size) => DownloadBody(me, size)
    case GotDisk(Importing, _) => DropStop(me, Restarting)
    case GotDisk(Detached, _) => DropStop(me, Restarting)
    case GotDisk(Creating, _) => Idle(Progressing)
    case GotDisk(Finalizing(_), _) => Idle(Progressing)
    case _ => Idle(Erred)
  }

  /** deleteImportDisk returned nil (ok) or DiskDelete's error. */
  function AfterDropDisk(me: Copy, why: Why, ok: bool): Pc {
    match why
    case Restarting => Idle(if ok then Progressing else Erred)
    case WriteFailed(failed) => Idle(if failed then Failed else Erred)
    case Cleanup(image) => if ok then Place(me, image) else Idle(Erred)
    case Deletion => if ok then FindInProject(me) else Idle(Failed)
  }

  function AfterDownload(c: Config, pc: Pc, reply: Reply): Pc
    requires pc.DownloadLength? || pc.DownloadBody?
  {
    match reply
    case Body(stream) =>
      if pc.DownloadLength? then CreateDisk(pc.me, DiskSize(stream.declared))
      else if stream.declared > pc.size then Idle(Erred)
      else StartWrite(pc.me, stream)
    case Refused => Idle(Failed)
    case _ => Idle(Erred)
  }

  /** Where the controller is after the reply to CallAt. */
  function After(c: Config, pc: Pc, reply: Reply): Pc {
    match pc
    case Idle(_) => pc
    case AddFinalizer(_) =>
      if reply.Updated? then ViewInProject(Copy(reply.version, reply.obj)) else Idle(Erred)
    case ViewInProject(me) =>
      if reply.GotImage? then Found(me, reply.image) else if reply.NotFound? then ViewInSilo(me) else Idle(Erred)
    case ViewInSilo(me) =>
      if reply.GotImage? then Found(me, reply.image) else if reply.NotFound? then ViewSnapshot(me) else Idle(Erred)
    case ViewSnapshot(me) =>
      if reply.NotFound? then ViewDisk(me)
      else if !reply.GotSnapshot? then Idle(Erred)
      else if reply.snapshotState.SnapshotCreating? then Idle(Progressing)
      else CreateImage(me)
    case CreateImage(me) => if reply.GotImage? then Found(me, reply.image) else Idle(Erred)
    case ViewDisk(me) => AfterViewDisk(me, reply)
    case DownloadLength(_) => AfterDownload(c, pc, reply)
    case DownloadBody(_, _) => AfterDownload(c, pc, reply)
    case CreateDisk(_, _) => Idle(if reply.Ok? then Progressing else Erred)
    case StartWrite(me, stream) => if reply.Ok? then WriteChunk(me, stream, 0) else Idle(Erred)
    case WriteChunk(me, stream, k) =>
      if reply.Ok? then AfterChunk(c, me, stream, k) else DropStop(me, WriteFailed(false))
    case StopWrite(me) => if reply.Ok? then FinalizeDisk(me) else DropStop(me, WriteFailed(false))
    case FinalizeDisk(_) => Idle(if reply.Ok? then Progressing else Erred)
    case CleanSnapshot(me, why) =>
      if GoneOk(reply) then DropStop(me, why) else Idle(if why.Deletion? then Failed else Erred)
    case DropStop(me, why) => DropFinalize(me, why)
    case DropFinalize(me, why) => DropDisk(me, why)
    case DropDisk(me, why) => AfterDropDisk(me, why, GoneOk(reply))
    case Place(me, image) => RecordStatus(me, image.id, if reply.Ok? then Nil else Erred)
    case RecordStatus(_, _, result) => Idle(if GoneOk(reply) then result else Erred)
    case FindInProject(me) =>
      if reply.GotImage? then DeleteImage(me, reply.image.id) else if reply.NotFound? then FindInSilo(me)
          else Idle(Failed)
    case FindInSilo(me) =>
      if reply.GotImage? then DeleteImage(me, reply.image.id) else if reply.NotFound? then RemoveFinalizer(me)
          else Idle(Failed)
    case DeleteImage(me, _) => if GoneOk(reply) then RemoveFinalizer(me) else Idle(Failed)
    case RemoveFinalizer(_) => Idle(if reply.Updated? || reply.NotFound? then Deleted else Erred)
  }

  // --- Runs ---

  function Step(c: Config, s: State, a: Action): (s': State)
    requires s.w.log != []
    ensures s'.w.log != []
  {
    match a
    case Env(event) => s.(w := Settle(s.w, event))
    case Crash => s.(pc := Idle(Crashed))
    case Begin(version) =>
      if s.pc.Idle? && s.floor <= version < |s.w.log|
      then s.(floor := version, pc := Start(Copy(version, s.w.log[version]))) else s
    case Next(fault, stream) =>
      if s.pc.Idle? then s else
        var (w, reply) := Serve(s.w, CallAt(c, s.pc), fault, stream);
        s.(w := w, pc := After(c, s.pc, reply))
  }

  /** A fresh object, and nothing of its name in Oxide. */
  function Init(): State {
    State(World(Oxide(None, None, None, 0), [Object(false, false, false, None)]), 0, Idle(Ignored))
  }

  function Exec(c: Config, s: State, acts: seq<Action>): (s': State)
    requires s.w.log != []
    ensures s'.w.log != []
    decreases |acts|
  {
    if acts == [] then s else Step(c, Exec(c, s, acts[..|acts| - 1]), acts[|acts| - 1])
  }

  /** The file at the url is fixed: a body is a prefix of it, all of it unless the body is cut short or breaks. */
  predicate FromFile(c: Config, stream: Stream) {
    && stream.declared == c.length
    && stream.data <= c.file
    && (stream.ending.Complete? ==> stream.data == c.file)
    && (stream.ending.Truncated? ==> c.truncates)
  }

  predicate Allowed(c: Config, a: Action) {
    a.Next? ==> FromFile(c, a.stream)
  }

  predicate AllAllowed(c: Config, acts: seq<Action>) {
    forall i :: 0 <= i < |acts| ==> Allowed(c, acts[i])
  }

  /** The declared length covers the file and can be rounded up to whole GiB in int64 arithmetic. */
  predicate Fits(c: Config) {
    |c.file| <= c.length && c.length + GIB - 1 <= MAX_INT64
  }

  /** A download that arrives whole. */
  function Whole(c: Config): (stream: Stream)
    ensures FromFile(c, stream)
  {
    Stream(c.length, c.file, Complete)
  }

  lemma ExecOne(c: Config, s: State, acts: seq<Action>, a: Action)
    requires s.w.log != []
    ensures Exec(c, s, acts + [a]) == Step(c, Exec(c, s, acts), a)
  {
    assert (acts + [a])[..|acts|] == acts;
  }

  lemma {:induction false} ExecAppend(c: Config, s: State, a: seq<Action>, b: seq<Action>)
    requires s.w.log != []
    ensures Exec(c, s, a + b) == Exec(c, Exec(c, s, a), b)
    decreases |b|
  {
    if b == [] {
      assert a + b == a;
    } else {
      var b0 := b[..|b| - 1];
      assert (a + b)[..|a + b| - 1] == a + b0;
      ExecAppend(c, s, a, b0);
    }
  }

  // --- Every reconcile ends ---

  function Phase(pc: Pc): nat {
    match pc
    case Idle(_) => 0
    case AddFinalizer(_) => 23
    case ViewInProject(_) => 22
    case ViewInSilo(_) => 21
    case ViewSnapshot(_) => 20
    case CreateImage(_) => 19
    case ViewDisk(_) => 19
    case DownloadLength(_) => 18
    case DownloadBody(_, _) => 18
    case CreateDisk(_, _) => 17
    case StartWrite(_, _) => 17
    case WriteChunk(_, _, _) => 16
    case StopWrite(_) => 15
    case FinalizeDisk(_) => 14
    case CleanSnapshot(_, _) => 13
    case DropStop(_, _) => 12
    case DropFinalize(_, _) => 11
    case DropDisk(_, _) => 10
    case Place(_, _) => 9
    case RecordStatus(_, _, _) => 8
    case FindInProject(_) => 7
    case FindInSilo(_) => 6
    case DeleteImage(_, _) => 5
    case RemoveFinalizer(_) => 4
  }

  function BytesLeft(pc: Pc): nat {
    if pc.WriteChunk? && pc.k * IMPORT_CHUNK_SIZE <= |pc.stream.data|
        then |pc.stream.data| - pc.k * IMPORT_CHUNK_SIZE else 0
  }

  /**
   Whatever the replies, each call brings a reconcile closer to its return: (phase, bytes left) decreases
   lexicographically.
   */
  lemma CallsDecrease(c: Config, pc: Pc, reply: Reply)
    requires !pc.Idle?
    ensures Phase(After(c, pc, reply)) < Phase(pc) ||
            (Phase(After(c, pc, reply)) == Phase(pc) && BytesLeft(After(c, pc, reply)) < BytesLeft(pc))
  {
  }
}
