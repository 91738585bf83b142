/**
 Why the image controller makes a call: in every run, each one is warranted by replies of the same
 reconcile. So nothing is created that a lookup did not miss, written to a disk too small for the body,
 deleted while it may still be needed, or moved that is where it should be.
 */
module ImageAsks {
  import opened Common
  import opened ImportChunks
  import opened OxideRemote
  import opened ImageMachine
  import opened ImageInvariant
  import opened ImageSafety
  import opened ImageTalk

  // --- What a call rests on ---

  predicate Missing(said: seq<Exchange>) {
    Heard(said, ImageView(true), NotFound) && Heard(said, ImageView(false), NotFound)
  }

  /** The image was found, or made, in this reconcile. */
  predicate Saw(said: seq<Exchange>, image: OxideImage) {
    || Heard(said, ImageView(true), GotImage(image)) || Heard(said, ImageView(false), GotImage(image))
    || Heard(said, ImageCreate, GotImage(image))
  }

  ghost predicate SawId(said: seq<Exchange>, id: nat) {
    exists image :: Saw(said, image) && image.id == id
  }

  predicate WentThrough(said: seq<Exchange>, call: Call) {
    Heard(said, call, Ok) || Heard(said, call, NotFound)
  }

  ghost predicate Tried(said: seq<Exchange>, call: Call) {
    exists reply :: Heard(said, call, reply)
  }

  /** Nothing temporary is left, as far as this reconcile made sure. */
  predicate Cleaned(said: seq<Exchange>) {
    WentThrough(said, SnapshotDelete) && WentThrough(said, DiskDelete)
  }

  ghost predicate SnapshotSeen(said: seq<Exchange>) {
    exists state :: Heard(said, SnapshotView, GotSnapshot(state)) && !state.SnapshotCreating?
  }

  ghost predicate SizedFor(said: seq<Exchange>, size: nat) {
    exists stream :: Heard(said, Download, Body(stream)) && size == DiskSize(stream.declared)
  }

  /** The disk is ready for writes and no smaller than the body says it is. */
  ghost predicate FitsDisk(said: seq<Exchange>, stream: Stream) {
    exists size :: Heard(said, DiskView, GotDisk(ImportReady, size)) && stream.declared <= size
  }

  ghost predicate ReadyToStart(said: seq<Exchange>) {
    exists stream :: Heard(said, Download, Body(stream)) && FitsDisk(said, stream)
  }

  ghost predicate WrittenWhole(c: Config, said: seq<Exchange>) {
    && !WriteFails(said)
    && exists stream :: Started(said, stream) && !stream.ending.Broken? && ShaMatches(c, stream.data)
  }

  ghost predicate WrittenInVain(c: Config, said: seq<Exchange>) {
    || WriteFails(said) || Heard(said, BulkStop, Error) || Heard(said, BulkStop, NotFound)
    || exists stream :: Started(said, stream) && (stream.ending.Broken? || !ShaMatches(c, stream.data))
  }

  ghost predicate Interrupted(said: seq<Exchange>) {
    exists state, size :: Heard(said, DiskView, GotDisk(state, size)) && (state.Importing? || state.Detached?)
  }

  /** The disk was left by an interrupted write, or this write came to nothing. */
  ghost predicate Useless(c: Config, said: seq<Exchange>) {
    Interrupted(said) || (Heard(said, BulkStart, Ok) && WrittenInVain(c, said))
  }

  /** The import disk has to go: with the object, after the image, or because its contents are no good. */
  ghost predicate MayDrop(c: Config, t: Talk)
    requires t.read.Some?
  {
    || (t.read.value.deleting && WentThrough(t.said, SnapshotDelete))
    || (UnrecordedSeen(t) && WentThrough(t.said, SnapshotDelete))
    || Useless(c, t.said)
  }

  /** An image is there whose ID the version read does not record. */
  ghost predicate UnrecordedSeen(t: Talk)
    requires t.read.Some?
  {
    exists image :: Saw(t.said, image) && t.read.value.statusId != Some(image.id)
  }

  ghost predicate MayAsk(c: Config, t: Talk, call: Call)
    requires t.read.Some?
  {
    var o, said := t.read.value, t.said;
    match call
    case Local => true
    case Download =>
      && !o.deleting
      && (Heard(said, DiskView, NotFound) || exists size :: Heard(said, DiskView, GotDisk(ImportReady, size)))
    case ImageView(inProject) => inProject || Heard(said, ImageView(true), NotFound)
    case ImageCreate => !o.deleting && Missing(said) && SnapshotSeen(said)
    case ImagePromote(id) => c.promote && exists image :: Saw(said, image) && image.id == id && image.inProject
    case ImageDemote(id) => !c.promote && exists image :: Saw(said, image) && image.id == id && !image.inProject
    case ImageDelete(id) => o.deleting && SawId(said, id) && Cleaned(said)
    case SnapshotView => !o.deleting && Missing(said)
    case SnapshotDelete => o.deleting || UnrecordedSeen(t)
    case DiskView => !o.deleting && Missing(said) && Heard(said, SnapshotView, NotFound)
    case DiskCreate(size) => !o.deleting && Heard(said, DiskView, NotFound) && SizedFor(said, size)
    case BulkStart => !o.deleting && ReadyToStart(said)
    case BulkWrite(_, _) => !o.deleting && Heard(said, BulkStart, Ok) && !WriteFails(said)
    case BulkStop => WrittenWhole(c, said) || MayDrop(c, t)
    case FinalizeImport(snapshot) =>
      if snapshot then !o.deleting && WrittenWhole(c, said) && Heard(said, BulkStop, Ok)
      else MayDrop(c, t) && Tried(said, BulkStop)
    case DiskDelete => MayDrop(c, t) && Tried(said, BulkStop) && Tried(said, FinalizeImport(false))
    case UpdateObject(_, finalizer) =>
      if finalizer then !o.deleting && !o.finalizer && said == []
      else o.deleting && !DeletionFails(said) && Cleaned(said) && ImageGone(said)
    case PatchStatus(base, id) => base == o.statusId && SawId(said, id) && (base == Some(id) || Cleaned(said))
  }

  // --- What a return rests on ---

  /** The import is not to be carried further now, or the disk turned out too small. */
  ghost predicate DiskEnds(said: seq<Exchange>, e: Exchange) {
    match e.reply
    case GotDisk(state, _) => state.Creating? || state.Finalizing? || state.Faulted?
    case Body(stream) => exists size: nat :: Heard(said, DiskView, GotDisk(ImportReady, size)) && size < stream.declared
    case _ => !e.reply.NotFound?
  }

  /** The image was moved to where it should be, or was there. */
  predicate Placed(c: Config, call: Call, image: OxideImage) {
    call == if image.inProject == !c.promote then Local
            else if c.promote then ImagePromote(image.id) else ImageDemote(image.id)
  }

  /** Its ID was recorded after that was tried. */
  ghost predicate RecordEnds(c: Config, said: seq<Exchange>, id: nat) {
    && |said| >= 2
    && exists image :: Saw(said, image) && image.id == id && Placed(c, said[|said| - 2].call, image)
  }

  /** The call and reply with which a reconcile may return. */
  ghost predicate MayEnd(c: Config, t: Talk)
    requires t.read.Some?
  {
    && t.said != []
    && var said, e := t.said, t.said[|t.said| - 1];
       if t.read.value.deleting then
         e.call.UpdateObject? || (e.reply.Error? && Decides(e.call))
       else
         match e.call
         case Download => DiskEnds(said, e)
         case DiskView => DiskEnds(said, e)
         case ImageView(_) => e.reply.Error?
         case ImageCreate => e.reply.Error?
         case SnapshotView => e.reply.Error? || e.reply == GotSnapshot(SnapshotCreating)
         case SnapshotDelete => e.reply.Error?
         case DiskCreate(_) => true
         case BulkStart => !e.reply.Ok?
         case FinalizeImport(snapshot) => snapshot
         case DiskDelete => e.reply.Error? || Useless(c, said)
         case UpdateObject(_, _) => !e.reply.Updated?
         case PatchStatus(_, id) => RecordEnds(c, said, id)
         case _ => false
  }

  ghost predicate ImageGone(said: seq<Exchange>) {
    Missing(said) || exists id :: WentThrough(said, ImageDelete(id))
  }

  // --- What each program point remembers ---

  ghost predicate DropRests(c: Config, t: Talk, why: Why)
    requires t.read.Some?
  {
    match why
    case Restarting => Interrupted(t.said)
    case WriteFailed(_) => Heard(t.said, BulkStart, Ok) && WrittenInVain(c, t.said)
    case Cleanup(image) =>
      Saw(t.said, image) && t.read.value.statusId != Some(image.id) && WentThrough(t.said, SnapshotDelete)
    case Deletion => t.read.value.deleting && WentThrough(t.said, SnapshotDelete)
  }

  ghost predicate Recordable(t: Talk, image: OxideImage)
    requires t.read.Some?
  {
    Saw(t.said, image) && (t.read.value.statusId == Some(image.id) || Cleaned(t.said))
  }

  ghost predicate Remembers(c: Config, pc: Pc, t: Talk)
    requires t.read.Some?
  {
    var o, said := t.read.value, t.said;
    match pc
    case Idle(_) => MayEnd(c, t)
    case AddFinalizer(me) => me.obj == o && !o.finalizer && said == []
    case ViewInProject(_) => true
    case ViewInSilo(_) => Heard(said, ImageView(true), NotFound)
    case ViewSnapshot(_) => Missing(said)
    case CreateImage(_) => Missing(said) && SnapshotSeen(said)
    case ViewDisk(_) => Missing(said) && Heard(said, SnapshotView, NotFound)
    case DownloadLength(_) => Heard(said, DiskView, NotFound)
    case CreateDisk(_, size) => Heard(said, DiskView, NotFound) && SizedFor(said, size)
    case DownloadBody(_, size) => Heard(said, DiskView, GotDisk(ImportReady, size))
    case StartWrite(_, stream) => Heard(said, Download, Body(stream)) && FitsDisk(said, stream)
    case FinalizeDisk(_) => Heard(said, BulkStop, Ok)
    case CleanSnapshot(_, why) =>
      why.Deletion? || (why.Cleanup? && Saw(said, why.image) && o.statusId != Some(why.image.id))
    case DropStop(_, why) => DropRests(c, t, why)
    case DropFinalize(_, why) => DropRests(c, t, why) && Tried(said, BulkStop)
    case DropDisk(_, why) => DropRests(c, t, why) && Tried(said, BulkStop) && Tried(said, FinalizeImport(false))
    case Place(_, image) => Recordable(t, image)
    case RecordStatus(_, id, _) =>
      && said != []
      && exists image :: Recordable(t, image) && image.id == id && Placed(c, said[|said| - 1].call, image)
    case FindInProject(_) => Cleaned(said)
    case FindInSilo(_) => Cleaned(said) && Heard(said, ImageView(true), NotFound)
    case DeleteImage(_, id) => Cleaned(said) && SawId(said, id)
    case RemoveFinalizer(_) => Cleaned(said) && ImageGone(said)
    case _ => true
  }

  /** A reconcile has run to its end. */
  predicate Returned(pc: Pc) {
    pc.Idle? && !pc.outcome.Crashed? && !pc.outcome.Ignored?
  }

  ghost predicate AskInv(c: Config, pc: Pc, t: Talk) {
    && PcTells(c, pc, t) && RightPart(pc, t)
    && (Returned(pc) ==> t.read.Some? && Remembers(c, pc, t))
    && (!pc.Idle? ==> t.read.Some? && Remembers(c, pc, t) && pc.me.obj.statusId == t.read.value.statusId)
  }

  /** What a program point remembers warrants its call. */
  lemma CallIsWarranted(c: Config, pc: Pc, t: Talk)
    requires !pc.Idle? && AskInv(c, pc, t)
    ensures MayAsk(c, t, CallAt(c, pc))
  {
  }

  // --- Every step keeps it ---

  ghost predicate Hears(c: Config, pc: Pc, t: Talk, reply: Reply) {
    !pc.Idle? && !pc.AddFinalizer? && CanReply(CallAt(c, pc), reply) && AskInv(c, pc, t)
  }

  ghost predicate RemembersOn(c: Config, pc: Pc, t: Talk, reply: Reply)
    requires t.read.Some?
  {
    var pc', t' := After(c, pc, reply), Further(c, pc, t, reply);
    Remembers(c, pc', t') && (!pc'.Idle? ==> pc'.me.obj.statusId == t.read.value.statusId)
  }

  /** What was heard stays heard. */
  lemma StillHeard(c: Config, pc: Pc, t: Talk, reply: Reply)
    ensures var e, said, said' := Exchange(CallAt(c, pc), reply), t.said, Further(c, pc, t, reply).said;
            && Heard(said', CallAt(c, pc), reply)
            && (forall call, r :: Heard(said, call, r) ==> Heard(said', call, r))
            && (forall image :: Saw(said, image) ==> Saw(said', image))
            && (WriteFails(said) || (e.call.BulkWrite? && !e.reply.Ok?) ==> WriteFails(said'))
  {
    Said(t.said, Exchange(CallAt(c, pc), reply));
  }

  lemma LookRemembers(c: Config, pc: Pc, t: Talk, reply: Reply)
    requires Hears(c, pc, t, reply) && (pc.ViewInProject? || pc.ViewInSilo?)
    ensures RemembersOn(c, pc, t, reply)
  {
    StillHeard(c, pc, t, reply);
  }

  lemma SnapshotRemembers(c: Config, pc: Pc, t: Talk, reply: Reply)
    requires Hears(c, pc, t, reply) && (pc.ViewSnapshot? || pc.CreateImage?)
    ensures RemembersOn(c, pc, t, reply)
  {
    StillHeard(c, pc, t, reply);
  }

  lemma DiskRemembers(c: Config, pc: Pc, t: Talk, reply: Reply)
    requires Hears(c, pc, t, reply) && pc.ViewDisk?
    ensures RemembersOn(c, pc, t, reply)
  {
    StillHeard(c, pc, t, reply);
  }

  lemma DownloadRemembers(c: Config, pc: Pc, t: Talk, reply: Reply)
    requires Hears(c, pc, t, reply) && (pc.DownloadLength? || pc.DownloadBody? || pc.CreateDisk? || pc.StartWrite?)
    ensures RemembersOn(c, pc, t, reply)
  {
    StillHeard(c, pc, t, reply);
  }

  lemma ChunkRemembers(c: Config, pc: Pc, t: Talk, reply: Reply)
    requires Hears(c, pc, t, reply) && pc.WriteChunk?
    ensures RemembersOn(c, pc, t, reply)
  {
    StillHeard(c, pc, t, reply);
    assert Started(Further(c, pc, t, reply).said, pc.stream);
  }

  lemma FinalizeRemembers(c: Config, pc: Pc, t: Talk, reply: Reply)
    requires Hears(c, pc, t, reply) && (pc.StopWrite? || pc.FinalizeDisk?)
    ensures RemembersOn(c, pc, t, reply)
  {
    StillHeard(c, pc, t, reply);
    assert Heard(t.said, BulkStart, Ok);
  }

  lemma CleanRemembers(c: Config, pc: Pc, t: Talk, reply: Reply)
    requires Hears(c, pc, t, reply) && pc.CleanSnapshot?
    ensures RemembersOn(c, pc, t, reply)
  {
    StillHeard(c, pc, t, reply);
  }

  lemma DropRemembers(c: Config, pc: Pc, t: Talk, reply: Reply)
    requires Hears(c, pc, t, reply) && (pc.DropStop? || pc.DropFinalize?)
    ensures RemembersOn(c, pc, t, reply)
  {
    StillHeard(c, pc, t, reply);
    assert forall stream :: Started(t.said, stream) ==> Started(Further(c, pc, t, reply).said, stream);
  }

  lemma DropDiskRemembers(c: Config, pc: Pc, t: Talk, reply: Reply)
    requires Hears(c, pc, t, reply) && pc.DropDisk?
    ensures RemembersOn(c, pc, t, reply)
  {
    StillHeard(c, pc, t, reply);
  }

  lemma RestRemembers(c: Config, pc: Pc, t: Talk, reply: Reply)
    requires Hears(c, pc, t, reply) && Phase(pc) <= 9
    ensures RemembersOn(c, pc, t, reply)
  {
    StillHeard(c, pc, t, reply);
  }

  lemma CallRemembers(c: Config, pc: Pc, t: Talk, reply: Reply)
    requires Hears(c, pc, t, reply)
    ensures RemembersOn(c, pc, t, reply)
  {
    if Phase(pc) <= 9 {
      RestRemembers(c, pc, t, reply);
    } else if pc.DropDisk? {
      DropDiskRemembers(c, pc, t, reply);
    } else if pc.DropStop? || pc.DropFinalize? {
      DropRemembers(c, pc, t, reply);
    } else if pc.CleanSnapshot? {
      CleanRemembers(c, pc, t, reply);
    } else if pc.StopWrite? || pc.FinalizeDisk? {
      FinalizeRemembers(c, pc, t, reply);
    } else if pc.WriteChunk? {
      ChunkRemembers(c, pc, t, reply);
    } else if pc.ViewInProject? || pc.ViewInSilo? {
      LookRemembers(c, pc, t, reply);
    } else if pc.ViewSnapshot? || pc.CreateImage? {
      SnapshotRemembers(c, pc, t, reply);
    } else if pc.ViewDisk? {
      DiskRemembers(c, pc, t, reply);
    } else {
      DownloadRemembers(c, pc, t, reply);
    }
  }

  /** The update that adds the finalizer goes through only for the newest version, and keeps the recorded ID. */
  lemma AddRemembers(c: Config, s: State, t: Talk, fault: Fault, stream: Stream)
    requires Inv(c, s) && s.pc.AddFinalizer? && AskInv(c, s.pc, t)
    ensures var reply := Serve(s.w, CallAt(c, s.pc), fault, stream).1;
            RemembersOn(c, s.pc, t, reply)
  {
  }

  lemma StepAsks(c: Config, s: State, t: Talk, a: Action)
    requires Inv(c, s) && AskInv(c, s.pc, t)
    ensures AskInv(c, Step(c, s, a).pc, TalkAfter(c, s, t, a))
  {
    StepTells(c, s, t, a);
    if a.Next? && !s.pc.Idle? {
      var reply := Serve(s.w, CallAt(c, s.pc), a.fault, a.stream).1;
      RepliesFit(s.w, CallAt(c, s.pc), a.fault, a.stream);
      if s.pc.AddFinalizer? {
        AddRemembers(c, s, t, a.fault, a.stream);
      } else {
        CallRemembers(c, s.pc, t, reply);
      }
    }
  }

  lemma {:induction false} RunAsks(c: Config, acts: seq<Action>)
    requires Fits(c) && AllAllowed(c, acts)
    ensures AskInv(c, Run(c, acts).pc, TalkOf(c, acts))
    decreases |acts|
  {
    if acts != [] {
      var front := acts[..|acts| - 1];
      RunAsks(c, front);
      RunHasInv(c, front);
      StepAsks(c, Run(c, front), TalkOf(c, front), acts[|acts| - 1]);
    }
  }

  /** In every run, whatever the faults, each call is warranted by the replies of its own reconcile. */
  lemma EveryCallIsWarranted(c: Config, acts: seq<Action>)
    requires Fits(c) && AllAllowed(c, acts) && !Run(c, acts).pc.Idle?
    ensures TalkOf(c, acts).read.Some? && MayAsk(c, TalkOf(c, acts), CallAt(c, Run(c, acts).pc))
  {
    RunAsks(c, acts);
    CallIsWarranted(c, Run(c, acts).pc, TalkOf(c, acts));
  }

  /**
   In every run no reconcile returns before it has to: the disk of a write that failed, broke off or has the
   wrong digest was put away first, an image was placed before its ID was recorded, and a deletion that got
   through its calls went on to the finalizer.
   */
  lemma EveryReturnIsWarranted(c: Config, acts: seq<Action>)
    requires Fits(c) && AllAllowed(c, acts) && Returned(Run(c, acts).pc)
    ensures TalkOf(c, acts).read.Some? && MayEnd(c, TalkOf(c, acts))
  {
    RunAsks(c, acts);
  }
}
