/**
 What the image controller talks to: the Oxide API, with the import disk, import snapshot and image
 of one Image object, and the Kubernetes API server, with every version of that object. A call is
 one atomic step; it may be lost, or take effect and still report an error.
 */
module OxideRemote {
  import opened Common
  import opened ImportChunks

  /** Finalizing records whether the finalize request named a snapshot to take. */
  datatype DiskState = Creating | ImportReady | Importing | Finalizing(snapshotting: bool) | Detached | Faulted

  datatype Disk = Disk(state: DiskState, contents: seq<Byte>)

  datatype SnapshotState = SnapshotCreating | SnapshotReady | SnapshotFaulted

  datatype Snapshot = Snapshot(state: SnapshotState, contents: seq<Byte>)

  /** An image lives in the project, or in the silo once promoted. IDs are never reused. */
  datatype OxideImage = OxideImage(id: nat, inProject: bool, contents: seq<Byte>)

  datatype Oxide = Oxide(disk: Option<Disk>, snapshot: Option<Snapshot>, image: Option<OxideImage>, nextId: nat)

  /** One version of the Kubernetes Image object, as far as the protocol reads or writes it. */
  datatype Object = Object(finalizer: bool, deleting: bool, gone: bool, statusId: Option<nat>)

  /** log holds every version of the object, the newest last. */
  datatype World = World(ox: Oxide, log: seq<Object>)

  function Last(w: World): Object
    requires w.log != []
  {
    w.log[|w.log| - 1]
  }

  function Store(w: World, o: Object): World {
    w.(log := w.log + [o])
  }

  predicate Empty(ox: Oxide) {
    ox.disk.None? && ox.snapshot.None? && ox.image.None?
  }

  // --- What happens without the controller ---

  datatype Event =
    | DiskReady | DiskDetaches | DiskFaults
    | SnapshotAppears | SnapshotBecomesReady | SnapshotFaults
    | ImageVanishes // Deleted outside Kubernetes.
    | UserDeletes   // The object gets a deletion timestamp.

  function SettleDisk(d: Disk, event: Event): Disk {
    match (event, d.state)
    case (DiskReady, Creating) => d.(state := ImportReady)
    case (DiskDetaches, Finalizing(false)) => d.(state := Detached)
    case (DiskFaults, _) => d.(state := Faulted)
    case _ => d
  }

  function SettleSnapshot(s: Snapshot, event: Event): Snapshot {
    match (event, s.state)
    case (SnapshotBecomesReady, SnapshotCreating) => s.(state := SnapshotReady)
    case (SnapshotFaults, SnapshotCreating) => s.(state := SnapshotFaulted)
    case _ => s
  }

  predicate Snapshotting(ox: Oxide) {
    ox.disk.Some? && ox.disk.value.state == Finalizing(true)
  }

  function SettleOxide(ox: Oxide, event: Event): Oxide {
    match event
    case SnapshotAppears =>
      if Snapshotting(ox) && ox.snapshot.None? then
        ox.(snapshot := Some(Snapshot(SnapshotCreating, ox.disk.value.contents)),
            disk := Some(ox.disk.value.(state := Finalizing(false))))
      else ox
    case ImageVanishes => ox.(image := None)
    case _ =>
      ox.(disk := if ox.disk.Some? then Some(SettleDisk(ox.disk.value, event)) else None,
          snapshot := if ox.snapshot.Some? then Some(SettleSnapshot(ox.snapshot.value, event)) else None)
  }

  /** The world after one event; an event that cannot happen now changes nothing. */
  function Settle(w: World, event: Event): World
    requires w.log != []
  {
    if event.UserDeletes? then
      var o := Last(w);
      if o.deleting || o.gone then w else Store(w, o.(deleting := true, gone := !o.finalizer))
    else
      w.(ox := SettleOxide(w.ox, event))
  }

  // --- Calls ---

  datatype Call =
    | Local // A step of the controller that calls nothing.
    | Download
    | ImageView(inProject: bool) | ImageCreate | ImagePromote(id: nat) | ImageDemote(id: nat) | ImageDelete(id: nat)
    | SnapshotView | SnapshotDelete
    | DiskView | DiskCreate(size: nat) | BulkStart | BulkWrite(offset: nat, bytes: seq<Byte>) | BulkStop
    | FinalizeImport(snapshot: bool) | DiskDelete
    | UpdateObject(version: nat, finalizer: bool)       // Optimistic: only the newest version can be updated.
    | PatchStatus(base: Option<nat>, id: nat)           // A merge patch: writes an ID that differs from the base.

  datatype Reply =
    | Ok | NotFound | Error
    | Refused // A download error that retrying cannot fix.
    | GotImage(image: OxideImage) | GotSnapshot(snapshotState: SnapshotState) | GotDisk(state: DiskState, size: nat)
    | Body(stream: Stream)
    | Updated(version: nat, obj: Object)

  datatype Fault = Clean | Lost | Late | Refuse

  function AnswerDisk(d: Disk, call: Call): (Option<Disk>, Reply) {
    match call
    case BulkStart => if d.state.ImportReady? then (Some(d.(state := Importing)), Ok) else (Some(d), Error)
    case BulkWrite(offset, bytes) =>
      if d.state.Importing? && offset + |bytes| <= |d.contents|
      then (Some(d.(contents := Overwrite(d.contents, offset, bytes))), Ok) else (Some(d), Error)
    case BulkStop => if d.state.Importing? then (Some(d.(state := ImportReady)), Ok) else (Some(d), Error)
    case FinalizeImport(snapshot) =>
      if d.state.ImportReady? then (Some(d.(state := Finalizing(snapshot))), Ok) else (Some(d), Error)
    case DiskDelete => if d.state.Detached? then (None, Ok) else (Some(d), Error)
    case _ => (Some(d), GotDisk(d.state, |d.contents|))
  }

  function AnswerOxide(ox: Oxide, call: Call): (Oxide, Reply) {
    match call
    case ImageView(inProject) =>
      (ox, if ox.image.Some? && ox.image.value.inProject == inProject then GotImage(ox.image.value) else NotFound)
    case ImageCreate =>
      if ox.snapshot.Some? && ox.snapshot.value.state.SnapshotReady? && ox.image.None? then
        var image := OxideImage(ox.nextId, true, ox.snapshot.value.contents);
        (ox.(image := Some(image), nextId := ox.nextId + 1), GotImage(image))
      else (ox, Error)
    case ImagePromote(id) =>
      if ox.image.Some? && ox.image.value.id == id && ox.image.value.inProject
      then (ox.(image := Some(ox.image.value.(inProject := false))), Ok) else (ox, Error)
    case ImageDemote(id) =>
      if ox.image.Some? && ox.image.value.id == id && !ox.image.value.inProject
      then (ox.(image := Some(ox.image.value.(inProject := true))), Ok) else (ox, Error)
    case ImageDelete(id) =>
      if ox.image.Some? && ox.image.value.id == id then (ox.(image := None), Ok) else (ox, NotFound)
    case SnapshotView =>
      (ox, if ox.snapshot.Some? then GotSnapshot(ox.snapshot.value.state) else NotFound)
    case SnapshotDelete =>
      if ox.snapshot.Some? then (ox.(snapshot := None), Ok) else (ox, NotFound)
    case DiskCreate(size) =>
      if ox.disk.None? then (ox.(disk := Some(Disk(Creating, Blank(size)))), Ok) else (ox, Error)
    case _ =>
      if ox.disk.None? then (ox, NotFound) else
        var (disk, reply) := AnswerDisk(ox.disk.value, call);
        (ox.(disk := disk), reply)
  }

  /** The effect and reply of a call that goes through. */
  function Answer(w: World, call: Call, stream: Stream): (World, Reply)
    requires w.log != []
  {
    match call
    case Local => (w, Ok)
    case Download => (w, Body(stream))
    case UpdateObject(version, finalizer) =>
      var o := Last(w);
      if o.gone then (w, NotFound)
      else if version != |w.log| - 1 then (w, Error)
      else
        var o' := o.(finalizer := finalizer, gone := o.deleting && !finalizer);
        (Store(w, o'), Updated(|w.log|, o'))
    case PatchStatus(base, id) =>
      if Last(w).gone then (w, NotFound)
      else if base == Some(id) then (w, Ok)
      else (Store(w, Last(w).(statusId := Some(id))), Ok)
    case _ =>
      var (ox, reply) := AnswerOxide(w.ox, call);
      (w.(ox := ox), reply)
  }

  /** A call under a fault: Lost never reaches the server, Late takes effect but reports an error. */
  function Serve(w: World, call: Call, fault: Fault, stream: Stream): (World, Reply)
    requires w.log != []
  {
    var (w', reply) := Answer(w, call, stream);
    if call.Local? then (w, Ok) else
      match fault
      case Clean => (w', reply)
      case Lost => (w, Error)
      case Late => (w', Error)
      case Refuse => (w, if call.Download? then Refused else Error)
  }
}
