/**
 What the image controller says to Oxide and the API server in one reconcile, and what its outcome and
 each of its calls have to do with the replies: told from the conversation alone, in every run.
 */
module ImageTalk {
  import opened Common
  import opened ImportChunks
  import opened OxideRemote
  import opened ImageMachine
  import opened ImageInvariant
  import opened ImageSafety

  datatype Exchange = Exchange(call: Call, reply: Reply)

  /** One reconcile: the version it read, and the calls so far with their replies. */
  datatype Talk = Talk(read: Option<Object>, said: seq<Exchange>)

  function TalkAfter(c: Config, s: State, t: Talk, a: Action): Talk
    requires s.w.log != []
  {
    match a
    case Begin(version) =>
      if s.pc.Idle? && s.floor <= version < |s.w.log| then Talk(Some(s.w.log[version]), []) else t
    case Next(fault, stream) =>
      if s.pc.Idle? then t else
        var call := CallAt(c, s.pc);
        t.(said := t.said + [Exchange(call, Serve(s.w, call, fault, stream).1)])
    case _ => t
  }

  /** The conversation of the last reconcile of a run. */
  function TalkOf(c: Config, acts: seq<Action>): Talk
    decreases |acts|
  {
    if acts == [] then Talk(None, []) else
      var front := acts[..|acts| - 1];
      TalkAfter(c, Run(c, front), TalkOf(c, front), acts[|acts| - 1])
  }

  // --- What a conversation tells ---

  predicate Heard(said: seq<Exchange>, call: Call, reply: Reply) {
    Exchange(call, reply) in said
  }

  /** A download was refused in a way that retrying cannot fix. */
  ghost predicate RefusedForGood(said: seq<Exchange>) {
    exists e :: e in said && e.reply.Refused?
  }

  ghost predicate WriteFails(said: seq<Exchange>) {
    exists e :: e in said && e.call.BulkWrite? && !e.reply.Ok?
  }

  /** The import disk was started for this body. */
  predicate Started(said: seq<Exchange>, stream: Stream) {
    Heard(said, Download, Body(stream)) && Heard(said, BulkStart, Ok)
  }

  /** A body came to its end, all its writes went through, and its digest is not spec.sha256. */
  ghost predicate Mismatched(c: Config, said: seq<Exchange>) {
    !WriteFails(said) && exists stream :: Started(said, stream) && !stream.ending.Broken? && !ShaMatches(c, stream.data)
  }

  /** The last reply promises that there will be something to do later. */
  predicate Waits(said: seq<Exchange>) {
    && said != []
    && var e := said[|said| - 1];
       || (e.call.SnapshotView? && e.reply == GotSnapshot(SnapshotCreating))
       || (e.call.DiskView? && e.reply.GotDisk? && (e.reply.state.Creating? || e.reply.state.Finalizing?))
       || (e.call.DiskCreate? && e.reply.Ok?)
       || (e.call == FinalizeImport(true) && e.reply.Ok?)
       || (e.call.DiskDelete? && GoneOk(e.reply) && !Heard(said, BulkStart, Ok))
  }

  /** A deletion hangs on these calls; stopping and finalizing the disk may fail. */
  predicate Decides(call: Call) {
    call.SnapshotDelete? || call.DiskDelete? || call.ImageView? || call.ImageDelete?
  }

  ghost predicate DeletionFails(said: seq<Exchange>) {
    exists e :: e in said && e.reply.Error? && Decides(e.call)
  }

  ghost predicate LiveOutcome(c: Config, said: seq<Exchange>, o: Outcome) {
    var n := |said|;
    && (o.Nil? || o.Progressing? || o.Erred? || o.Failed?)
    && (o.Failed? <==> RefusedForGood(said) || Mismatched(c, said))
    && (o.Progressing? <==> Waits(said))
    && (o.Nil? <==> n >= 2 && said[n - 1].call.PatchStatus? && GoneOk(said[n - 1].reply) && said[n - 2].reply.Ok?)
  }

  ghost predicate DeletionOutcome(said: seq<Exchange>, o: Outcome) {
    var n := |said|;
    && n > 0 && (o.Deleted? || o.Erred? || o.Failed?)
    && (o.Failed? <==> DeletionFails(said))
    && (o.Deleted? <==> said[n - 1].call.UpdateObject? && (said[n - 1].reply.Updated? || said[n - 1].reply.NotFound?))
  }

  predicate NothingToDo(o: Object) {
    o.gone || (o.deleting && !o.finalizer)
  }

  /** How a reconcile that was not cut short by a crash must have ended. */
  ghost predicate Tells(c: Config, t: Talk, o: Outcome) {
    if t.read.None? || NothingToDo(t.read.value) then o.Ignored? && t.said == []
    else if t.read.value.deleting then DeletionOutcome(t.said, o)
    else LiveOutcome(c, t.said, o)
  }

  // --- What each program point knows of its conversation ---

  /** Nothing said so far decides the outcome. */
  ghost predicate Open(said: seq<Exchange>) {
    && !RefusedForGood(said) && !WriteFails(said)
    && (forall e :: e in said ==> !e.call.BulkStart?)
    && (forall e :: e in said ==> !e.reply.Body?)
  }

  ghost predicate Writes(c: Config, said: seq<Exchange>, stream: Stream) {
    && !RefusedForGood(said) && !WriteFails(said) && Started(said, stream)
    && forall e :: e in said && e.reply.Body? ==> e.reply.stream == stream
  }

  ghost predicate DropTells(c: Config, t: Talk, why: Why) {
    match why
    case WriteFailed(failed) =>
      && !RefusedForGood(t.said) && Heard(t.said, BulkStart, Ok) && (failed <==> Mismatched(c, t.said))
    case Deletion => !DeletionFails(t.said)
    case _ => Open(t.said)
  }

  ghost predicate PcTells(c: Config, pc: Pc, t: Talk) {
    match pc
    case Idle(o) => o.Crashed? || Tells(c, t, o)
    case CreateDisk(_, _) => !RefusedForGood(t.said) && forall e :: e in t.said ==> !e.call.BulkStart?
    case StartWrite(_, stream) =>
      && !RefusedForGood(t.said) && !WriteFails(t.said) && Heard(t.said, Download, Body(stream))
      && (forall e :: e in t.said ==> !e.call.BulkStart?)
      && (forall e :: e in t.said && e.reply.Body? ==> e.reply.stream == stream)
    case WriteChunk(_, stream, _) => Writes(c, t.said, stream)
    case StopWrite(_) =>
      exists stream :: Writes(c, t.said, stream) && !stream.ending.Broken? && ShaMatches(c, stream.data)
    case FinalizeDisk(_) =>
      exists stream :: Writes(c, t.said, stream) && !stream.ending.Broken? && ShaMatches(c, stream.data)
    case CleanSnapshot(_, why) => DropTells(c, t, why) && (why.Cleanup? || why.Deletion?)
    case DropStop(_, why) => DropTells(c, t, why)
    case DropFinalize(_, why) => DropTells(c, t, why)
    case DropDisk(_, why) => DropTells(c, t, why)
    case FindInProject(_) => !DeletionFails(t.said)
    case FindInSilo(_) => !DeletionFails(t.said)
    case DeleteImage(_, _) => !DeletionFails(t.said)
    case RemoveFinalizer(_) => !DeletionFails(t.said)
    case RecordStatus(_, _, result) =>
      && Open(t.said) && t.said != [] && (result.Nil? || result.Erred?)
      && (result.Nil? <==> t.said[|t.said| - 1].reply.Ok?)
    case _ => Open(t.said)
  }

  predicate Removing(pc: Pc) {
    match pc
    case CleanSnapshot(_, why) => why.Deletion?
    case DropStop(_, why) => why.Deletion?
    case DropFinalize(_, why) => why.Deletion?
    case DropDisk(_, why) => why.Deletion?
    case _ => pc.FindInProject? || pc.FindInSilo? || pc.DeleteImage? || pc.RemoveFinalizer?
  }

  /** The version read fits the part of the controller that is at work. */
  predicate RightPart(pc: Pc, t: Talk) {
    !pc.Idle? ==> t.read.Some? && !NothingToDo(t.read.value) && (Removing(pc) <==> t.read.value.deleting)
  }

  ghost predicate TalkInv(c: Config, s: State, t: Talk) {
    PcTells(c, s.pc, t) && RightPart(s.pc, t)
  }

  // --- Every step keeps it ---

  /** The replies a call can get. */
  predicate CanReply(call: Call, reply: Reply) {
    match call
    case Local => reply.Ok?
    case Download => reply.Body? || reply.Refused? || reply.Error?
    case ImageView(_) => reply.GotImage? || reply.NotFound? || reply.Error?
    case ImageCreate => reply.GotImage? || reply.Error?
    case SnapshotView => reply.GotSnapshot? || reply.NotFound? || reply.Error?
    case DiskView => reply.GotDisk? || reply.NotFound? || reply.Error?
    case UpdateObject(_, _) => reply.Updated? || reply.NotFound? || reply.Error?
    case _ => reply.Ok? || reply.NotFound? || reply.Error?
  }

  lemma RepliesFit(w: World, call: Call, fault: Fault, stream: Stream)
    requires w.log != []
    ensures CanReply(call, Serve(w, call, fault, stream).1)
  {
  }

  /** One more exchange. */
  lemma Said(said: seq<Exchange>, e: Exchange)
    ensures var next := said + [e];
            && (RefusedForGood(next) <==> RefusedForGood(said) || e.reply.Refused?)
            && (WriteFails(next) <==> WriteFails(said) || (e.call.BulkWrite? && !e.reply.Ok?))
            && (DeletionFails(next) <==> DeletionFails(said) || (e.reply.Error? && Decides(e.call)))
            && (forall call, reply :: Heard(next, call, reply) <==>
                Heard(said, call, reply) || e == Exchange(call, reply))
  {
    var next := said + [e];
    assert forall x :: x in next <==> x in said || x == e;
    assert e in next;
  }

  /** An exchange that neither writes nor downloads nor starts leaves a mismatch what it was. */
  lemma SameMismatch(c: Config, said: seq<Exchange>, e: Exchange)
    requires !e.call.BulkWrite? && !e.call.Download? && !e.call.BulkStart?
    ensures Mismatched(c, said + [e]) <==> Mismatched(c, said)
  {
    Said(said, e);
    assert forall stream :: Started(said + [e], stream) <==> Started(said, stream);
  }

  /** No mismatch where nothing was started. */
  lemma NoStartNoMismatch(c: Config, said: seq<Exchange>)
    requires !Heard(said, BulkStart, Ok)
    ensures !Mismatched(c, said)
  {
  }

  /** The conversation with one more call and its reply. */
  function Further(c: Config, pc: Pc, t: Talk, reply: Reply): Talk {
    t.(said := t.said + [Exchange(CallAt(c, pc), reply)])
  }

  ghost predicate Keeps(c: Config, pc: Pc, t: Talk, reply: Reply) {
    var pc', t' := After(c, pc, reply), Further(c, pc, t, reply);
    PcTells(c, pc', t') && RightPart(pc', t')
  }

  ghost predicate Speaks(c: Config, pc: Pc, t: Talk, reply: Reply) {
    !pc.Idle? && CanReply(CallAt(c, pc), reply) && PcTells(c, pc, t) && RightPart(pc, t)
  }

  /** The exchange leaves the talk without a started disk. */
  lemma NotStarted(c: Config, pc: Pc, t: Talk, reply: Reply)
    requires !Heard(Further(c, pc, t, reply).said, BulkStart, Ok)
    ensures !Mismatched(c, Further(c, pc, t, reply).said)
  {
    NoStartNoMismatch(c, Further(c, pc, t, reply).said);
  }

  lemma AddTells(c: Config, pc: Pc, t: Talk, reply: Reply)
    requires Speaks(c, pc, t, reply) && pc.AddFinalizer?
    ensures Keeps(c, pc, t, reply)
  {
    Said(t.said, Exchange(CallAt(c, pc), reply));
    NotStarted(c, pc, t, reply);
  }

  lemma LookTells(c: Config, pc: Pc, t: Talk, reply: Reply)
    requires Speaks(c, pc, t, reply) && (pc.ViewInProject? || pc.ViewInSilo?)
    ensures Keeps(c, pc, t, reply)
  {
    Said(t.said, Exchange(CallAt(c, pc), reply));
    NotStarted(c, pc, t, reply);
  }

  lemma SnapshotTells(c: Config, pc: Pc, t: Talk, reply: Reply)
    requires Speaks(c, pc, t, reply) && (pc.ViewSnapshot? || pc.CreateImage?)
    ensures Keeps(c, pc, t, reply)
  {
    Said(t.said, Exchange(CallAt(c, pc), reply));
    NotStarted(c, pc, t, reply);
  }

  lemma DiskTells(c: Config, pc: Pc, t: Talk, reply: Reply)
    requires Speaks(c, pc, t, reply) && pc.ViewDisk?
    ensures Keeps(c, pc, t, reply)
  {
    Said(t.said, Exchange(CallAt(c, pc), reply));
    NotStarted(c, pc, t, reply);
  }

  lemma DownloadTells(c: Config, pc: Pc, t: Talk, reply: Reply)
    requires Speaks(c, pc, t, reply) && (pc.DownloadLength? || pc.DownloadBody? || pc.CreateDisk?)
    ensures Keeps(c, pc, t, reply)
  {
    Said(t.said, Exchange(CallAt(c, pc), reply));
    NotStarted(c, pc, t, reply);
  }

  lemma StartTells(c: Config, pc: Pc, t: Talk, reply: Reply)
    requires Speaks(c, pc, t, reply) && pc.StartWrite?
    ensures Keeps(c, pc, t, reply)
  {
    Said(t.said, Exchange(CallAt(c, pc), reply));
    if !reply.Ok? {
      NotStarted(c, pc, t, reply);
    }
  }

  lemma ChunkTells(c: Config, pc: Pc, t: Talk, reply: Reply)
    requires Speaks(c, pc, t, reply) && pc.WriteChunk?
    ensures Keeps(c, pc, t, reply)
  {
    var said := Further(c, pc, t, reply).said;
    Said(t.said, Exchange(CallAt(c, pc), reply));
    assert forall stream :: Started(said, stream) <==> stream == pc.stream;
    assert Mismatched(c, said) <==>
        !WriteFails(said) && !pc.stream.ending.Broken? && !ShaMatches(c, pc.stream.data);
  }

  lemma FinalizeTells(c: Config, pc: Pc, t: Talk, reply: Reply)
    requires Speaks(c, pc, t, reply) && (pc.StopWrite? || pc.FinalizeDisk?)
    ensures Keeps(c, pc, t, reply)
  {
    Said(t.said, Exchange(CallAt(c, pc), reply));
    SameMismatch(c, t.said, Exchange(CallAt(c, pc), reply));
  }

  lemma CleanTells(c: Config, pc: Pc, t: Talk, reply: Reply)
    requires Speaks(c, pc, t, reply) && pc.CleanSnapshot?
    ensures Keeps(c, pc, t, reply)
  {
    Said(t.said, Exchange(CallAt(c, pc), reply));
    SameMismatch(c, t.said, Exchange(CallAt(c, pc), reply));
    if pc.why.Cleanup? {
      NoStartNoMismatch(c, t.said);
    }
  }

  lemma DropTellsOn(c: Config, pc: Pc, t: Talk, reply: Reply)
    requires Speaks(c, pc, t, reply) && (pc.DropStop? || pc.DropFinalize?)
    ensures Keeps(c, pc, t, reply)
  {
    Said(t.said, Exchange(CallAt(c, pc), reply));
    SameMismatch(c, t.said, Exchange(CallAt(c, pc), reply));
  }

  lemma DropDiskTells(c: Config, pc: Pc, t: Talk, reply: Reply)
    requires Speaks(c, pc, t, reply) && pc.DropDisk?
    ensures Keeps(c, pc, t, reply)
  {
    Said(t.said, Exchange(CallAt(c, pc), reply));
    SameMismatch(c, t.said, Exchange(CallAt(c, pc), reply));
    if pc.why.Cleanup? || pc.why.Restarting? {
      NoStartNoMismatch(c, t.said);
    }
  }

  lemma PlaceTells(c: Config, pc: Pc, t: Talk, reply: Reply)
    requires Speaks(c, pc, t, reply) && pc.Place?
    ensures Keeps(c, pc, t, reply)
  {
    Said(t.said, Exchange(CallAt(c, pc), reply));
    NotStarted(c, pc, t, reply);
  }

  lemma RecordTells(c: Config, pc: Pc, t: Talk, reply: Reply)
    requires Speaks(c, pc, t, reply) && pc.RecordStatus?
    ensures Keeps(c, pc, t, reply)
  {
    Said(t.said, Exchange(CallAt(c, pc), reply));
    NotStarted(c, pc, t, reply);
  }

  lemma FindTells(c: Config, pc: Pc, t: Talk, reply: Reply)
    requires Speaks(c, pc, t, reply) && (pc.FindInProject? || pc.FindInSilo?)
    ensures Keeps(c, pc, t, reply)
  {
    Said(t.said, Exchange(CallAt(c, pc), reply));
  }

  lemma RemoveTells(c: Config, pc: Pc, t: Talk, reply: Reply)
    requires Speaks(c, pc, t, reply) && (pc.DeleteImage? || pc.RemoveFinalizer?)
    ensures Keeps(c, pc, t, reply)
  {
    Said(t.said, Exchange(CallAt(c, pc), reply));
  }

  lemma PlanTells(c: Config, pc: Pc, t: Talk, reply: Reply)
    requires Speaks(c, pc, t, reply) && 18 <= Phase(pc)
    ensures Keeps(c, pc, t, reply)
  {
    if pc.ViewSnapshot? || pc.CreateImage? {
      SnapshotTells(c, pc, t, reply);
    } else if pc.ViewDisk? {
      DiskTells(c, pc, t, reply);
    } else if pc.AddFinalizer? {
      AddTells(c, pc, t, reply);
    } else if Phase(pc) >= 21 {
      LookTells(c, pc, t, reply);
    } else {
      DownloadTells(c, pc, t, reply);
    }
  }

  lemma WriteTells(c: Config, pc: Pc, t: Talk, reply: Reply)
    requires Speaks(c, pc, t, reply) && 14 <= Phase(pc) <= 17
    ensures Keeps(c, pc, t, reply)
  {
    if pc.CreateDisk? {
      DownloadTells(c, pc, t, reply);
    } else if pc.StartWrite? {
      StartTells(c, pc, t, reply);
    } else if pc.WriteChunk? {
      ChunkTells(c, pc, t, reply);
    } else {
      FinalizeTells(c, pc, t, reply);
    }
  }

  lemma CleanupTells(c: Config, pc: Pc, t: Talk, reply: Reply)
    requires Speaks(c, pc, t, reply) && Phase(pc) <= 13
    ensures Keeps(c, pc, t, reply)
  {
    if pc.CleanSnapshot? {
      CleanTells(c, pc, t, reply);
    } else if pc.DropDisk? {
      DropDiskTells(c, pc, t, reply);
    } else if Phase(pc) > 10 {
      DropTellsOn(c, pc, t, reply);
    } else if pc.RecordStatus? {
      RecordTells(c, pc, t, reply);
    } else if pc.Place? {
      PlaceTells(c, pc, t, reply);
    } else if Phase(pc) >= 6 {
      FindTells(c, pc, t, reply);
    } else {
      RemoveTells(c, pc, t, reply);
    }
  }

  lemma CallTells(c: Config, pc: Pc, t: Talk, reply: Reply)
    requires Speaks(c, pc, t, reply)
    ensures Keeps(c, pc, t, reply)
  {
    if 18 <= Phase(pc) {
      PlanTells(c, pc, t, reply);
    } else if 14 <= Phase(pc) {
      WriteTells(c, pc, t, reply);
    } else {
      CleanupTells(c, pc, t, reply);
    }
  }

  lemma StepTells(c: Config, s: State, t: Talk, a: Action)
    requires s.w.log != [] && TalkInv(c, s, t)
    ensures TalkInv(c, Step(c, s, a), TalkAfter(c, s, t, a))
  {
    if a.Next? && !s.pc.Idle? {
      RepliesFit(s.w, CallAt(c, s.pc), a.fault, a.stream);
      CallTells(c, s.pc, t, Serve(s.w, CallAt(c, s.pc), a.fault, a.stream).1);
    }
  }

  lemma {:induction false} RunTells(c: Config, acts: seq<Action>)
    ensures TalkInv(c, Run(c, acts), TalkOf(c, acts))
    decreases |acts|
  {
    if acts != [] {
      var front := acts[..|acts| - 1];
      RunTells(c, front);
      StepTells(c, Run(c, front), TalkOf(c, front), acts[|acts| - 1]);
    }
  }

  /**
   In every run, with any faults, the outcome of a reconcile that returned is told by its conversation:
   Failed exactly when a download was refused for good or a body was read to its end and written in full
   but has the wrong digest; Progressing exactly when the last reply promises more to do; Nil exactly
   when placing and recording went through; Erred otherwise, and a deletion as DeletionOutcome says.
   */
  lemma OutcomesAreTold(c: Config, acts: seq<Action>)
    ensures var s := Run(c, acts);
            s.pc.Idle? && !s.pc.outcome.Crashed? ==> Tells(c, TalkOf(c, acts), s.pc.outcome)
  {
    RunTells(c, acts);
  }
}
