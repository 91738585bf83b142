/**
 The image controller as it is written: methods that call Oxide and the API server one after the
 other and branch on the replies. Each method is proved to follow the state machine whatever the
 replies, faults and interference, so every reconcile is part of a run of ImageMachine and all that
 is proved of runs holds of it.
 */
module ImageController {
  import opened Common
  import opened ImportChunks
  import opened OxideRemote
  import opened ImageMachine
  import opened ImageInvariant
  import opened ImageSafety
  import opened ImageTalk

  datatype ReadError = NoError | Eof | UnexpectedEof | OtherError

  /** A response body being read through io.TeeReader: consumed collects what the digest has seen. */
  class BodyReader {
    var rest: seq<Byte>
    var consumed: seq<Byte>
    const ending: Ending

    constructor (stream: Stream)
      ensures rest == stream.data && consumed == [] && ending == stream.ending
    {
      rest, consumed, ending := stream.data, [], stream.ending;
    }

    /** io.ReadFull: fills the buffer, or reports how the body ended and how far it got. */
    method ReadFull(buf: array<Byte>) returns (n: nat, err: ReadError)
      requires buf.Length > 0
      modifies this, buf
      ensures n == Min(buf.Length, |old(rest)|)
      ensures buf[..n] == old(rest)[..n] && rest == old(rest)[n..] && consumed == old(consumed) + old(rest)[..n]
      ensures err == if n == buf.Length then NoError
                     else match ending
                          case Complete => if n == 0 then Eof else UnexpectedEof
                          case Truncated => UnexpectedEof
                          case Broken => OtherError
    {
      n := Min(buf.Length, |rest|);
      for i := 0 to n
        invariant buf[..i] == old(rest)[..i] && rest == old(rest) && consumed == old(consumed)
      {
        buf[i] := rest[i];
      }
      consumed, rest := consumed + rest[..n], rest[n..];
      if n == buf.Length {
        err := NoError;
      } else {
        match ending {
          case Complete => err := if n == 0 then Eof else UnexpectedEof;
          case Truncated => err := UnexpectedEof;
          case Broken => err := OtherError;
        }
      }
    }
  }

  /** The k-th ReadFull of a body that brings data. */
  method ReadChunk(r: BodyReader, buf: array<Byte>, ghost data: seq<Byte>, ghost k: nat)
      returns (n: nat, err: ReadError)
    requires buf.Length == IMPORT_CHUNK_SIZE && k * IMPORT_CHUNK_SIZE <= |data|
    requires r.rest == data[Reach(data, k)..] && r.consumed == data[..Reach(data, k)]
    modifies r, buf
    ensures n <= buf.Length && buf[..n] == Chunk(data, k)
    ensures r.rest == data[Reach(data, k + 1)..] && r.consumed == data[..Reach(data, k + 1)]
    ensures n < IMPORT_CHUNK_SIZE <==> |data| < (k + 1) * IMPORT_CHUNK_SIZE
    ensures err.NoError? <==> n == IMPORT_CHUNK_SIZE
    ensures err.OtherError? <==> n < IMPORT_CHUNK_SIZE && r.ending.Broken?
    ensures err.Eof? ==> |data| == k * IMPORT_CHUNK_SIZE && r.ending.Complete?
  {
    n, err := r.ReadFull(buf);
  }

  /** bytes.Equal(buf[:n], zeros[:n]). */
  method IsZero(buf: array<Byte>, n: nat) returns (zero: bool)
    requires n <= buf.Length
    ensures zero == Zeros(buf[..n])
  {
    for i := 0 to n
      invariant forall j :: 0 <= j < i ==> buf[j] == 0
    {
      if buf[i] != 0 {
        assert buf[..n][i] != 0;
        return false;
      }
    }
    zero := true;
  }

  datatype Lookup = Here(image: OxideImage) | Missing | Unknown

  class ImageReconciler {
    const c: Config
    var w: World
    var floor: nat
    ghost var pc: Pc
    ghost var acts: seq<Action>

    /** What has happened so far is a run of the machine that ends here. */
    ghost predicate Valid()
      reads this
    {
      w.log != [] && Reaches(c, acts, State(w, floor, pc))
    }

    constructor (c: Config)
      ensures Valid() && this.c == c && pc.Idle? && acts == []
    {
      var s := Init();
      this.c, w, floor, pc, acts := c, s.w, s.floor, s.pc, [];
      assert Traced(c, [], [s]);
    }

    // --- The outside world ---

    ghost method Log(a: Action)
      requires Valid() && Allowed(c, a) && Step(c, State(w, floor, pc), a).w == w
          && Step(c, State(w, floor, pc), a).floor == floor
      modifies this`pc, this`acts
      ensures Valid() && acts == old(acts) + [a] && pc == Step(c, State(w, floor, old(pc)), a).pc
    {
      ghost var next := Step(c, State(w, floor, pc), a);
      RunExtends(c, acts, a, State(w, floor, pc), next);
      pc, acts := next.pc, acts + [a];
    }

    /** Anything may happen between two calls. */
    method Interfere()
      requires Valid()
      modifies this`w, this`acts
      ensures Valid() && old(acts) <= acts
      ensures var ox, ox' := old(w.ox), w.ox;
              && ox'.disk.Some? == ox.disk.Some?
              && (ox.disk.Some? ==> ox'.disk.value.contents == ox.disk.value.contents)
    {
      var n: nat := *;
      while n > 0
        invariant Valid() && old(acts) <= acts
        invariant w.ox.disk.Some? == old(w.ox.disk.Some?)
        invariant w.ox.disk.Some? ==> w.ox.disk.value.contents == old(w.ox.disk.value.contents)
      {
        var event: Event := *;
        RunExtends(c, acts, Env(event), State(w, floor, pc), State(Settle(w, event), floor, pc));
        w := Settle(w, event);
        acts := acts + [Env(event)];
        n := n - 1;
      }
    }

    /** One call: interference first, then the call under any fault, with any body the file allows. */
    method Send(call: Call) returns (reply: Reply)
      requires Valid() && !pc.Idle? && call == CallAt(c, pc)
      modifies this`w, this`pc, this`acts
      ensures Valid() && old(acts) < acts && pc == After(c, old(pc), reply)
      ensures reply.Body? ==> FromFile(c, reply.stream)
      ensures call.BulkWrite? && old(w.ox.disk.Some?) ==>
                WriteEffect(old(w.ox.disk.value.contents), call.offset, call.bytes, w.ox.disk, reply)
      ensures call.ImageCreate? && reply.GotImage? ==> MadeFromSnapshot(w.ox, reply.image)
    {
      Interfere();
      var fault: Fault := *;
      var body: Stream := *;
      if !FromFile(c, body) {
        body := Whole(c);
      }
      ServeEffects(w, call, fault, body);
      var served := Serve(w, call, fault, body);
      RunExtends(c, acts, Next(fault, body), State(w, floor, pc), State(served.0, floor, After(c, pc, served.1)));
      w, reply := served.0, served.1;
      pc, acts := After(c, pc, reply), acts + [Next(fault, body)];
    }

    // --- writeChunks ---

    /** Go on past a chunk that is not written. */
    ghost method Skip()
      requires Valid() && pc.WriteChunk? && CallAt(c, pc).Local?
      modifies this`pc, this`acts
      ensures Valid() && old(acts) < acts && pc == After(c, old(pc), Ok)
    {
      Log(Next(Clean, Whole(c)));
    }

    /**
     Writes chunk k, which is not all zeros: the k-th step of a pass over the data, or an error with it done
     or not.
     */
    method BulkWriteChunk(ghost k: nat, offset: nat, bytes: seq<Byte>, ghost before: seq<Byte>) returns (ok: bool)
      requires Valid() && pc.WriteChunk? && pc.k == k && CallAt(c, pc) == BulkWrite(offset, bytes)
      requires Holds(before, pc.stream.data)
      requires w.ox.disk.Some? && w.ox.disk.value.contents == Written(before, pc.stream.data, k, c.blockSize, true)
      modifies this`w, this`pc, this`acts
      ensures Valid() && old(acts) < acts && pc == After(c, old(pc), if ok then Ok else Error)
      ensures var data, d := old(pc.stream.data), w.ox.disk;
              && d.Some?
              && (ok ==> d.value.contents == Written(before, data, k + 1, c.blockSize, true))
              && (d.value.contents == Written(before, data, k, c.blockSize, true)
                  || d.value.contents == Written(before, data, k + 1, c.blockSize, true))
    {
      ghost var data := pc.stream.data;
      WriteFits(before, data, k, c.blockSize);
      var reply := Send(BulkWrite(offset, bytes));
      ok := reply.Ok?;
    }

    /** The k-th chunk, n bytes of it in the buffer: pad it in place, and write it unless it is all zeros. */
    method WritePadded(buf: array<Byte>, n: nat, offset: nat, ghost k: nat, ghost before: seq<Byte>) returns (ok: bool)
      requires Valid() && pc.WriteChunk? && pc.k == k && offset == k * IMPORT_CHUNK_SIZE
      requires buf.Length == IMPORT_CHUNK_SIZE && n <= buf.Length && buf[..n] == Chunk(pc.stream.data, k)
      requires !(LastChunk(pc.stream, k) && pc.stream.ending.Broken?)
      requires Holds(before, pc.stream.data)
      requires w.ox.disk.Some? && w.ox.disk.value.contents == Written(before, pc.stream.data, k, c.blockSize, true)
      modifies this`w, this`pc, this`acts, buf
      ensures Valid() && old(acts) < acts && pc == After(c, old(pc), if ok then Ok else Error)
      ensures var data, d := old(pc.stream.data), w.ox.disk;
              && d.Some?
              && (ok ==> d.value.contents == Written(before, data, k + 1, c.blockSize, true))
              && (d.value.contents == Written(before, data, k, c.blockSize, true)
                  || d.value.contents == Written(before, data, k + 1, c.blockSize, true))
    {
      var padded := (n + c.blockSize - 1) / c.blockSize * c.blockSize;
      PaddingFits(n, c.blockSize);
      forall i | n <= i < padded {
        buf[i] := 0;
      }
      assert buf[..padded] == Payload(pc.stream.data, k, c.blockSize);
      var zero := IsZero(buf, padded);
      if zero {
        Skip();
        ok := true;
      } else {
        ok := BulkWriteChunk(k, offset, buf[..padded], before);
      }
    }

    /** io.EOF at a chunk boundary: nothing is left to write. */
    ghost method EndAtBoundary(k: nat, before: seq<Byte>)
      requires Valid() && pc.WriteChunk? && pc.k == k && |pc.stream.data| == k * IMPORT_CHUNK_SIZE
          && !pc.stream.ending.Broken?
      requires Holds(before, pc.stream.data)
      modifies this`pc, this`acts
      ensures Valid() && old(acts) < acts && pc == AfterChunk(c, old(pc.me), old(pc.stream), k)
      ensures Written(before, old(pc.stream.data), k, c.blockSize, true) ==
          Pass(before, old(pc.stream.data), c.blockSize, true)
    {
      LastPayloadIsNothing(pc.stream.data, k, c.blockSize);
      FinishedPass(before, pc.stream.data, k, c.blockSize);
      Skip();
    }

    /** The write pass is at chunk k, and the disk is as far. */
    ghost predicate AtChunk(me: Copy, stream: Stream, k: nat, before: seq<Byte>)
      reads this
    {
      && Valid() && pc == WriteChunk(me, stream, k) && k * IMPORT_CHUNK_SIZE <= |stream.data|
      && Holds(before, stream.data)
      && w.ox.disk.Some? && w.ox.disk.value.contents == Written(before, stream.data, k, c.blockSize, true)
    }

    /** How a write pass that began on `before` ended. */
    ghost predicate PassEnded(me: Copy, stream: Stream, before: seq<Byte>, err: bool)
      requires Holds(before, stream.data)
      reads this
    {
      && Valid() && w.ox.disk.Some?
      && pc == (if err then DropStop(me, WriteFailed(false))
                else if ShaMatches(c, stream.data) then StopWrite(me) else DropStop(me, WriteFailed(true)))
      && (err ==> exists k :: w.ox.disk.value.contents == Written(before, stream.data, k, c.blockSize, true))
      && (!err ==> !stream.ending.Broken? && w.ox.disk.value.contents == Pass(before, stream.data, c.blockSize, true))
    }

    /** What was read is written; the last chunk ends the pass. */
    method WriteRead(ghost me: Copy, ghost stream: Stream, buf: array<Byte>, n: nat, last: bool,
                     offset: nat, ghost k: nat, ghost before: seq<Byte>)
      returns (more: bool, err: bool)
      requires AtChunk(me, stream, k, before) && offset == k * IMPORT_CHUNK_SIZE
      requires buf.Length == IMPORT_CHUNK_SIZE && n <= buf.Length && buf[..n] == Chunk(stream.data, k)
      requires (last <==> LastChunk(stream, k)) && !(last && stream.ending.Broken?)
      modifies this`w, this`pc, this`acts, buf
      ensures old(acts) <= acts
      ensures more ==> !last && AtChunk(me, stream, k + 1, before)
      ensures !more ==> PassEnded(me, stream, before, err) && (!err ==> last)
    {
      var ok := WritePadded(buf, n, offset, k, before);
      if !ok {
        return false, true;
      }
      if last {
        FinishedPass(before, stream.data, k + 1, c.blockSize);
        return false, false;
      }
      return true, false;
    }

    /** One turn of the loop in WriteChunks. */
    method WriteNext(ghost me: Copy, r: BodyReader, ghost stream: Stream, buf: array<Byte>, offset: nat,
        ghost k: nat, ghost before: seq<Byte>)
      returns (more: bool, err: bool)
      requires AtChunk(me, stream, k, before) && offset == k * IMPORT_CHUNK_SIZE && buf.Length == IMPORT_CHUNK_SIZE
      requires r.rest == stream.data[Reach(stream.data, k)..] && r.consumed == stream.data[..Reach(stream.data, k)]
      requires r.ending == stream.ending
      modifies this`w, this`pc, this`acts, r, buf
      ensures old(acts) <= acts && r.consumed == stream.data[..Reach(stream.data, k + 1)]
      ensures more ==> AtChunk(me, stream, k + 1, before) && r.rest == stream.data[Reach(stream.data, k + 1)..]
      ensures !more ==> PassEnded(me, stream, before, err) && (!err ==> r.consumed == stream.data)
    {
      var n, readErr := ReadChunk(r, buf, stream.data, k);
      if readErr == Eof {
        EndAtBoundary(k, before);
        return false, false;
      }
      if readErr == OtherError {
        Skip();
        return false, true;
      }
      more, err := WriteRead(me, stream, buf, n, readErr != NoError, offset, k, before);
    }

    /**
     No error: the body did not break, the digest has seen all of it, and the disk is as one whole pass
     over it leaves it. An error: the disk is as some first chunks of such a pass leave it.
     */
    method WriteChunks(ghost me: Copy, r: BodyReader, ghost stream: Stream) returns (err: bool)
      requires Valid() && pc == WriteChunk(me, stream, 0)
      requires r.rest == stream.data && r.consumed == [] && r.ending == stream.ending
      requires w.ox.disk.Some? && Holds(w.ox.disk.value.contents, stream.data)
      modifies this`w, this`pc, this`acts, r
      ensures old(acts) <= acts
      ensures PassEnded(me, stream, old(w.ox.disk.value.contents), err)
      ensures !err ==> r.consumed == stream.data
    {
      var buf := new Byte[IMPORT_CHUNK_SIZE];
      var offset := 0;
      ghost var before, k := w.ox.disk.value.contents, 0;
      PassBegins(before, stream.data, c.blockSize);
      while true
        invariant AtChunk(me, stream, k, before) && old(acts) <= acts && offset == k * IMPORT_CHUNK_SIZE
        invariant r.rest == stream.data[Reach(stream.data, k)..] && r.consumed == stream.data[..Reach(stream.data, k)]
        decreases |stream.data| - offset
      {
        var more, failure := WriteNext(me, r, stream, buf, offset, k, before);
        if !more {
          return failure;
        }
        offset := offset + IMPORT_CHUNK_SIZE;
        k := k + 1;
      }
    }

    // --- importDisk and what it is made of ---

    /** Three calls, of which only the third decides: ok when it found nothing or nothing is left. */
    method DeleteImportDisk(ghost me: Copy, ghost why: Why) returns (ok: bool)
      requires Valid() && pc == DropStop(me, why)
      modifies this`w, this`pc, this`acts
      ensures Valid() && old(acts) <= acts && pc == AfterDropDisk(me, why, ok)
    {
      var _ := Send(BulkStop);
      var _ := Send(FinalizeImport(false));
      var reply := Send(DiskDelete);
      ok := GoneOk(reply);
    }

    /** Failed exactly when the download was refused for good, Erred when anything else went wrong. */
    method CreateImportDisk(ghost me: Copy) returns (err: Outcome)
      requires Valid() && pc == DownloadLength(me)
      modifies this`w, this`pc, this`acts
      ensures Valid() && old(acts) <= acts && pc == Idle(err) && !err.Nil? && !err.Crashed?
      ensures Tells(c, TalkOf(c, acts), err)
    {
      err := CreateSized(me);
      OutcomeIsTold();
    }

    method CreateSized(ghost me: Copy) returns (err: Outcome)
      requires Valid() && pc == DownloadLength(me)
      modifies this`w, this`pc, this`acts
      ensures Valid() && old(acts) <= acts && pc == Idle(err) && !err.Nil? && !err.Crashed?
    {
      var reply := Send(Download);
      if !reply.Body? {
        return if reply.Refused? then Failed else Erred;
      }
      reply := Send(DiskCreate(DiskSize(reply.stream.declared)));
      err := if reply.Ok? then Progressing else Erred;
    }

    /** The body to write, unless it can't be had, can't fit or the disk can't be started. */
    method StartWriting(ghost me: Copy, size: nat) returns (stream: Option<Stream>, err: Outcome)
      requires Valid() && pc == DownloadBody(me, size)
      modifies this`w, this`pc, this`acts
      ensures Valid() && old(acts) <= acts
      ensures if stream.Some? then pc == WriteChunk(me, stream.value, 0)
              else pc == Idle(err) && !err.Nil? && !err.Crashed?
    {
      stream := None;
      var reply := Send(Download);
      if !reply.Body? {
        return None, if reply.Refused? then Failed else Erred;
      }
      var body := reply.stream;
      if body.declared > size {
        return None, Erred;
      }
      reply := Send(BulkStart);
      if !reply.Ok? {
        return None, Erred;
      }
      return Some(body), Nil;
    }

    /**
     Never nil: the import is not done yet. Failed exactly when the download was refused for good, or the body
     came to its end, every write went through, and its digest is not spec.sha256; all else is retried.
     */
    method WriteDisk(ghost me: Copy, size: nat) returns (err: Outcome)
      requires Valid() && pc == DownloadBody(me, size) && Fits(c)
      modifies this`w, this`pc, this`acts
      ensures Valid() && old(acts) <= acts && pc == Idle(err) && !err.Nil? && !err.Crashed?
      ensures Tells(c, TalkOf(c, acts), err)
    {
      err := WriteAndFinalize(me, size);
      OutcomeIsTold();
    }

    method WriteAndFinalize(ghost me: Copy, size: nat) returns (err: Outcome)
      requires Valid() && pc == DownloadBody(me, size) && Fits(c)
      modifies this`w, this`pc, this`acts
      ensures Valid() && old(acts) <= acts && pc == Idle(err) && !err.Nil? && !err.Crashed?
    {
      var started, startErr := StartWriting(me, size);
      if started.None? {
        return startErr;
      }
      var stream := started.value;
      ghost var _ := DiskIsWritable();
      var body := new BodyReader(stream);
      var writeErr := WriteChunks(me, body, stream);
      var shaErr := !writeErr && !ShaMatches(c, body.consumed);
      err := FinalizeOrDrop(me, !writeErr && !shaErr, shaErr);
    }

    /** After the write pass: finalize a disk that is written, drop one that isn't. */
    method FinalizeOrDrop(ghost me: Copy, written: bool, shaErr: bool) returns (err: Outcome)
      requires Valid() && (written ==> !shaErr)
      requires pc == if written then StopWrite(me) else DropStop(me, WriteFailed(shaErr))
      modifies this`w, this`pc, this`acts
      ensures Valid() && old(acts) <= acts && pc == Idle(err) && !err.Nil? && !err.Crashed?
    {
      if written {
        var reply := Send(BulkStop);
        if reply.Ok? {
          reply := Send(FinalizeImport(true));
          return if reply.Ok? then Progressing else Erred;
        }
      }
      var _ := DeleteImportDisk(me, WriteFailed(shaErr));
      err := if shaErr then Failed else Erred;
    }

    /** What the invariant knows when a write pass begins. */
    ghost method DiskIsWritable() returns (disk: Disk)
      requires Valid() && Fits(c) && pc.WriteChunk?
      ensures w.ox.disk == Some(disk) && Holds(disk.contents, pc.stream.data)
    {
      ReachesByRun(c, acts, State(w, floor, pc));
      RunHasInv(c, acts);
      disk := w.ox.disk.value;
    }

    /** What the disk's state calls for; the result is never nil, so the caller never takes an image for made. */
    method ImportDisk(ghost me: Copy) returns (err: Outcome)
      requires Valid() && pc == ViewDisk(me) && Fits(c)
      modifies this`w, this`pc, this`acts
      ensures Valid() && old(acts) <= acts && pc == Idle(err) && !err.Nil? && !err.Crashed?
    {
      var reply := Send(DiskView);
      match reply {
        case NotFound =>
          err := CreateImportDisk(me);
        case GotDisk(state, size) =>
          match state {
            case ImportReady =>
              err := WriteDisk(me, size);
            case Importing =>
              var ok := DeleteImportDisk(me, Restarting);
              err := if ok then Progressing else Erred;
            case Detached =>
              var ok := DeleteImportDisk(me, Restarting);
              err := if ok then Progressing else Erred;
            case Creating => err := Progressing;
            case Finalizing(_) => err := Progressing;
            case Faulted => err := Erred;
          }
        case _ => err := Erred;
      }
    }

    /** An image returned is in the project and has the contents of the import snapshot, which is ready. */
    method CreateImage(ghost me: Copy) returns (image: Option<OxideImage>, err: Outcome)
      requires Valid() && pc == ViewSnapshot(me) && Fits(c)
      modifies this`w, this`pc, this`acts
      ensures Valid() && old(acts) <= acts
      ensures if image.Some? then pc == Found(me, image.value) else pc == Idle(err) && !err.Nil? && !err.Crashed?
      ensures image.Some? ==> MadeFromSnapshot(w.ox, image.value)
    {
      image := None;
      var reply := Send(SnapshotView);
      if reply.NotFound? {
        err := ImportDisk(me);
        return;
      }
      if !reply.GotSnapshot? {
        return None, Erred;
      }
      if reply.snapshotState.SnapshotCreating? {
        return None, Progressing;
      }
      reply := Send(ImageCreate);
      if reply.GotImage? {
        return Some(reply.image), Nil;
      }
      return None, Erred;
    }

    /** Missing means neither the project nor the silo has it, unknown that a lookup failed. */
    method ViewImage(ghost me: Copy, ghost deleting: bool) returns (found: Lookup)
      requires Valid() && pc == if deleting then FindInProject(me) else ViewInProject(me)
      modifies this`w, this`pc, this`acts
      ensures Valid() && old(acts) <= acts
      ensures pc == match found
                    case Here(image) => if deleting then Pc.DeleteImage(me, image.id) else Found(me, image)
                    case Missing => if deleting then RemoveFinalizer(me) else ViewSnapshot(me)
                    case Unknown => Idle(if deleting then Failed else Erred)
    {
      var reply := Send(ImageView(true));
      if reply.NotFound? {
        reply := Send(ImageView(false));
      }
      found := if reply.GotImage? then Here(reply.image) else if reply.NotFound? then Missing else Unknown;
    }

    /** The disk is touched only once the snapshot's delete went through or found nothing. */
    method DeleteImport(ghost me: Copy, ghost why: Why) returns (ok: bool)
      requires Valid() && pc == CleanSnapshot(me, why) && (why.Cleanup? || why.Deletion?)
      modifies this`w, this`pc, this`acts
      ensures Valid() && old(acts) <= acts && pc == AfterDropDisk(me, why, ok)
    {
      var reply := Send(SnapshotDelete);
      if !GoneOk(reply) {
        return false;
      }
      ok := DeleteImportDisk(me, why);
    }

    // --- Reconcile ---

    method FindOrCreate(ghost me: Copy) returns (image: Option<OxideImage>, err: Outcome)
      requires Valid() && pc == ViewInProject(me) && Fits(c)
      modifies this`w, this`pc, this`acts
      ensures Valid() && old(acts) <= acts
      ensures if image.Some? then pc == Found(me, image.value) else pc == Idle(err) && !err.Nil? && !err.Crashed?
    {
      var found := ViewImage(me, false);
      match found {
        case Unknown => return None, Erred;
        case Here(cur) => return Some(cur), Nil;
        case Missing => image, err := CreateImage(me);
      }
    }

    /** There is an ID to record exactly when an image was found or made and its import is cleaned up, placed or not. */
    method HandleImageOperations(me: Copy) returns (id: Option<nat>, err: Outcome)
      requires Valid() && pc == ViewInProject(me) && Fits(c)
      modifies this`w, this`pc, this`acts
      ensures Valid() && old(acts) <= acts && !err.Crashed?
      ensures pc == if id.Some? then RecordStatus(me, id.value, err) else Idle(err)
      ensures id.None? ==> !err.Nil?
    {
      var found, findErr := FindOrCreate(me);
      if found.None? {
        return None, findErr;
      }
      var cur := found.value;
      if Some(cur.id) != me.obj.statusId {
        var ok := DeleteImport(me, Cleanup(cur));
        if !ok {
          return None, Erred;
        }
      }
      err := PlaceImage(me, cur);
      id := Some(cur.id);
    }

    /** Promotes or demotes an image that is not where spec.promote wants it. */
    method PlaceImage(ghost me: Copy, cur: OxideImage) returns (err: Outcome)
      requires Valid() && pc == Place(me, cur)
      modifies this`w, this`pc, this`acts
      ensures Valid() && old(acts) <= acts && pc == RecordStatus(me, cur.id, err) && !err.Crashed?
    {
      var reply: Reply;
      if c.promote && cur.inProject {
        reply := Send(ImagePromote(cur.id));
      } else if !c.promote && !cur.inProject {
        reply := Send(ImageDemote(cur.id));
      } else {
        reply := Send(Local);
      }
      err := if reply.Ok? then Nil else Erred;
    }

    method DeleteOxideImage(ghost me: Copy) returns (ok: bool)
      requires Valid() && pc == FindInProject(me)
      modifies this`w, this`pc, this`acts
      ensures Valid() && old(acts) <= acts && pc == if ok then RemoveFinalizer(me) else Idle(Failed)
    {
      var found := ViewImage(me, true);
      if !found.Here? {
        return found.Missing?;
      }
      var reply := Send(ImageDelete(found.image.id));
      ok := GoneOk(reply);
    }

    /** Deletes the image and any leftover import, and removes the finalizer. */
    method HandleDelete(me: Copy) returns (err: Outcome)
      requires Valid() && pc == CleanSnapshot(me, Deletion)
      modifies this`w, this`pc, this`acts
      ensures Valid() && old(acts) <= acts && pc == Idle(err) && !err.Crashed?
      ensures Tells(c, TalkOf(c, acts), err)
    {
      var ok := DeleteImport(me, Deletion);
      if ok {
        ok := DeleteOxideImage(me);
      }
      err := Failed;
      if ok {
        var reply := Send(UpdateObject(me.version, false));
        err := if reply.Updated? || reply.NotFound? then Deleted else Erred;
      }
      OutcomeIsTold();
    }

    /**
     One whole reconcile of the version the cache serves. Its calls, with whatever happens around them,
     extend the run.
     */
    method Reconcile(version: nat) returns (err: Outcome)
      requires Valid() && pc.Idle? && floor <= version < |w.log| && Fits(c)
      modifies this
      ensures Valid() && old(acts) < acts && pc == Idle(err)
      ensures Tells(c, TalkOf(c, acts), err)
    {
      err := ReconcileVersion(version);
      OutcomeIsTold();
    }

    method ReconcileVersion(version: nat) returns (err: Outcome)
      requires Valid() && pc.Idle? && floor <= version < |w.log| && Fits(c)
      modifies this
      ensures Valid() && old(acts) < acts && pc == Idle(err) && !err.Crashed?
    {
      var me := Copy(version, w.log[version]);
      RunExtends(c, acts, Begin(version), State(w, floor, pc), State(w, version, Start(me)));
      floor := version;
      pc, acts := Start(me), acts + [Begin(version)];
      if me.obj.gone {
        return Ignored;
      }
      if me.obj.deleting {
        if !me.obj.finalizer {
          return Ignored;
        }
        err := HandleDelete(me);
        return;
      }
      err := ReconcileLive(me);
    }

    /** The finalizer first, then the image, and then its ID. */
    method ReconcileLive(read: Copy) returns (err: Outcome)
      requires Valid() && Fits(c) && pc == if read.obj.finalizer then ViewInProject(read) else AddFinalizer(read)
      modifies this`w, this`pc, this`acts
      ensures Valid() && old(acts) <= acts && pc == Idle(err) && !err.Crashed?
    {
      var me := read;
      if !me.obj.finalizer {
        var reply := Send(UpdateObject(me.version, true));
        if !reply.Updated? {
          return Erred;
        }
        me := Copy(reply.version, reply.obj);
      }
      var id, result := HandleImageOperations(me);
      err := result;
      if id.Some? {
        var reply := Send(PatchStatus(me.obj.statusId, id.value));
        if !GoneOk(reply) {
          err := Erred;
        }
      }
    }

    /** What has just been returned is told by the conversation that led to it. */
    lemma OutcomeIsTold()
      requires Valid() && pc.Idle? && !pc.outcome.Crashed?
      ensures Tells(c, TalkOf(c, acts), pc.outcome)
    {
      ReachesByRun(c, acts, State(w, floor, pc));
      OutcomesAreTold(c, acts);
    }

    /** What the runs' theorems say of the controller at any moment. */
    lemma HoldsInEveryRun()
      requires Valid() && Fits(c)
      ensures SafeSpec(c) && w.ox.image.Some? ==> IsFile(c.file, w.ox.image.value.contents)
      ensures pc == Idle(Nil) ==> Placed(c, w.ox)
      ensures forall i :: 0 <= i < |w.log| ==> RecordedClean(w.ox, w.log[i])
    {
      ReachesByRun(c, acts, State(w, floor, pc));
      RunHasInv(c, acts);
      if SafeSpec(c) {
        ImageHoldsFile(c, acts);
      }
    }

    /** The operator restarts: whatever it was doing is forgotten. */
    ghost method CrashNow()
      requires Valid()
      modifies this`pc, this`acts
      ensures Valid() && pc == Idle(Crashed) && acts == old(acts) + [Crash]
    {
      Log(Crash);
    }
  }

  /** The states a run of allowed actions goes through. */
  ghost predicate Traced(c: Config, acts: seq<Action>, states: seq<State>) {
    && |states| == |acts| + 1 && states[0] == Init() && (forall s :: s in states ==> s.w.log != [])
    && forall i {:trigger Step(c, states[i], acts[i])} :: 0 <= i < |acts| ==>
         Allowed(c, acts[i]) && Step(c, states[i], acts[i]) == states[i + 1]
  }

  ghost predicate Reaches(c: Config, acts: seq<Action>, s: State) {
    exists states: seq<State> :: Traced(c, acts, states) && states[|acts|] == s
  }

  lemma RunExtends(c: Config, acts: seq<Action>, a: Action, s: State, next: State)
    requires Reaches(c, acts, s) && s.w.log != [] && Allowed(c, a) && Step(c, s, a) == next
    ensures Reaches(c, acts + [a], next)
  {
    var states: seq<State> :| Traced(c, acts, states) && states[|acts|] == s;
    var acts', states' := acts + [a], states + [next];
    forall i | 0 <= i < |acts'|
      ensures Allowed(c, acts'[i]) && states'[i].w.log != [] && Step(c, states'[i], acts'[i]) == states'[i + 1]
    {
      if i < |acts| {
        assert Step(c, states[i], acts[i]) == states[i + 1];
      }
    }
    assert Traced(c, acts', states');
  }

  lemma TracedBefore(c: Config, acts: seq<Action>, states: seq<State>)
    requires Traced(c, acts, states) && acts != []
    ensures var k := |acts| - 1;
            && Traced(c, acts[..k], states[..k + 1]) && Allowed(c, acts[k]) && states[k].w.log != []
            && Step(c, states[k], acts[k]) == states[k + 1]
  {
    var k := |acts| - 1;
    assert states[k].w.log != [] && Step(c, states[k], acts[k]) == states[k + 1];
    forall i | 0 <= i < k
      ensures states[i].w.log != [] && Step(c, states[i], acts[i]) == states[i + 1] && Allowed(c, acts[i])
    {
    }
  }

  lemma {:induction false} ReachesByRun(c: Config, acts: seq<Action>, s: State)
    requires Reaches(c, acts, s)
    ensures AllAllowed(c, acts) && Run(c, acts) == s
    decreases |acts|
  {
    var states: seq<State> :| Traced(c, acts, states) && states[|acts|] == s;
    if acts != [] {
      var k := |acts| - 1;
      TracedBefore(c, acts, states);
      ReachesByRun(c, acts[..k], states[k]);
      assert AllAllowed(c, acts) && Run(c, acts) == Step(c, Run(c, acts[..k]), acts[k]);
    }
  }

  /**
   A bulk write leaves the disk's contents alone or overwrites its range, and does the latter if it reports
   no error.
   */
  predicate WriteEffect(before: seq<Byte>, offset: nat, bytes: seq<Byte>, disk: Option<Disk>, reply: Reply) {
    && disk.Some?
    && (reply.Ok? || disk.value.contents == before
        || (offset + |bytes| <= |before| && disk.value.contents == Overwrite(before, offset, bytes)))
    && (reply.Ok? ==> offset + |bytes| <= |before| && disk.value.contents == Overwrite(before, offset, bytes))
  }

  /** The image is there, in the project, with the contents of the ready import snapshot. */
  predicate MadeFromSnapshot(ox: Oxide, image: OxideImage) {
    && ox.image == Some(image) && image.inProject
    && ox.snapshot.Some? && ox.snapshot.value.state.SnapshotReady? && image.contents == ox.snapshot.value.contents
  }

  lemma ServeEffects(w: World, call: Call, fault: Fault, body: Stream)
    requires w.log != []
    ensures var (w', reply) := Serve(w, call, fault, body);
            && (reply.Body? ==> reply.stream == body)
            && (call.BulkWrite? && w.ox.disk.Some? ==>
                  WriteEffect(w.ox.disk.value.contents, call.offset, call.bytes, w'.ox.disk, reply))
            && (call.ImageCreate? && reply.GotImage? ==> MadeFromSnapshot(w'.ox, reply.image))
  {
  }

  lemma PassBegins(disk: seq<Byte>, data: seq<Byte>, blockSize: BlockSize)
    requires Holds(disk, data)
    ensures Reach(data, 0) == 0 && data[Reach(data, 0)..] == data && data[..Reach(data, 0)] == []
    ensures Written(disk, data, 0, blockSize, true) == disk
  {
  }

  lemma LastPayloadIsNothing(data: seq<Byte>, k: nat, blockSize: BlockSize)
    requires |data| <= k * IMPORT_CHUNK_SIZE
    ensures Payload(data, k, blockSize) == []
  {
    NothingToPad(blockSize);
  }

  /** Chunks past the last change nothing. */
  lemma FinishedPass(disk: seq<Byte>, data: seq<Byte>, k: nat, blockSize: BlockSize)
    requires Holds(disk, data) && |data| <= k * IMPORT_CHUNK_SIZE
    requires k == 0 || (k - 1) * IMPORT_CHUNK_SIZE <= |data|
    ensures Written(disk, data, k, blockSize, true) == Pass(disk, data, blockSize, true)
  {
    if k > 0 && (k - 1) * IMPORT_CHUNK_SIZE == |data| {
      LastPayloadIsNothing(data, k - 1, blockSize);
      assert Chunks(data) == k - 1;
    } else {
      assert Chunks(data) == k;
    }
  }
}
