/**
 Which bulk writes the image controller makes: in every run, exactly those of the body's chunks that are not
 all zeros, in order, up to the first that fails.
 */
module ImageWrites {
  import opened Common
  import opened ImportChunks
  import opened OxideRemote
  import opened ImageMachine
  import opened ImageInvariant
  import opened ImageSafety
  import opened ImageTalk

  /** The bulk writes of a conversation, in order. */
  function WritesIn(said: seq<Exchange>): seq<Call> {
    if said == [] then [] else
      var front, last := said[..|said| - 1], said[|said| - 1];
      WritesIn(front) + if last.call.BulkWrite? then [last.call] else []
  }

  function WriteOf(c: Config, stream: Stream, k: nat): seq<Call> {
    var p := Payload(stream.data, k, c.blockSize);
    if Zeros(p) then [] else [BulkWrite(k * IMPORT_CHUNK_SIZE, p)]
  }

  /** The writes of the first k chunks of a body. */
  function WritesOf(c: Config, stream: Stream, k: nat): seq<Call> {
    if k == 0 then [] else WritesOf(c, stream, k - 1) + WriteOf(c, stream, k - 1)
  }

  /** How many chunks there are to write: what was read of the last one is dropped if the body broke in it. */
  function ToWrite(stream: Stream): nat {
    if stream.ending.Broken? then |stream.data| / IMPORT_CHUNK_SIZE else Chunks(stream.data)
  }

  /** All writes of the first k chunks were made, and no other; over means that the pass is over. */
  ghost predicate Wrote(c: Config, said: seq<Exchange>, stream: Stream, k: nat, over: bool) {
    && Started(said, stream) && k <= ToWrite(stream) && WritesIn(said) == WritesOf(c, stream, k)
    && (over && k < ToWrite(stream) ==> WriteFails(said))
  }

  ghost predicate WritesAreTold(c: Config, said: seq<Exchange>, over: bool) {
    if Heard(said, BulkStart, Ok) then exists stream, k :: Wrote(c, said, stream, k, over) else WritesIn(said) == []
  }

  ghost predicate PcWrites(c: Config, pc: Pc, t: Talk) {
    match pc
    case Idle(o) => o.Crashed? || WritesAreTold(c, t.said, true)
    case WriteChunk(_, stream, k) => Wrote(c, t.said, stream, k, false) && k * IMPORT_CHUNK_SIZE <= |stream.data|
    case _ =>
      if Phase(pc) >= 17 then WritesIn(t.said) == [] && !Heard(t.said, BulkStart, Ok)
      else WritesAreTold(c, t.said, true)
  }

  lemma OneMore(said: seq<Exchange>, e: Exchange)
    ensures WritesIn(said + [e]) == WritesIn(said) + (if e.call.BulkWrite? then [e.call] else [])
  {
    assert (said + [e])[..|said|] == said;
  }

  /** An exchange that neither writes nor starts leaves the writes as they are. */
  lemma SameWrites(c: Config, said: seq<Exchange>, e: Exchange)
    requires !e.call.BulkWrite? && !e.call.BulkStart?
    ensures WritesAreTold(c, said, true) ==> WritesAreTold(c, said + [e], true)
  {
    OneMore(said, e);
    Said(said, e);
    forall stream, k | Wrote(c, said, stream, k, true)
      ensures Wrote(c, said + [e], stream, k, true)
    {
    }
  }

  /** The last chunk is the last that there is to write. */
  lemma LastOne(c: Config, stream: Stream, k: nat)
    requires k * IMPORT_CHUNK_SIZE <= |stream.data| && LastChunk(stream, k)
    ensures stream.ending.Broken? ==> ToWrite(stream) == k
    ensures !stream.ending.Broken? ==> k <= ToWrite(stream) <= k + 1
    ensures !stream.ending.Broken? && ToWrite(stream) == k ==> WriteOf(c, stream, k) == []
  {
    ChunksCover(stream.data);
    if !stream.ending.Broken? && ToWrite(stream) == k {
      assert Chunk(stream.data, k) == [];
      NothingToPad(c.blockSize);
    }
  }

  /** A chunk's call is its write, or none. */
  lemma CallIsWrite(c: Config, pc: Pc, said: seq<Exchange>, reply: Reply)
    requires pc.WriteChunk? && Started(said, pc.stream)
    ensures var e := Exchange(CallAt(c, pc), reply);
            && Started(said + [e], pc.stream) && (e.call.BulkWrite? && !reply.Ok? ==> WriteFails(said + [e]))
            && WritesIn(said + [e]) == WritesIn(said) +
               (if LastChunk(pc.stream, pc.k) && pc.stream.ending.Broken? then [] else WriteOf(c, pc.stream, pc.k))
  {
    OneMore(said, Exchange(CallAt(c, pc), reply));
    Said(said, Exchange(CallAt(c, pc), reply));
  }

  lemma LastWrites(c: Config, pc: Pc, t: Talk, reply: Reply)
    requires Speaks(c, pc, t, reply) && pc.WriteChunk? && PcWrites(c, pc, t) && LastChunk(pc.stream, pc.k)
    ensures WritesAreTold(c, Further(c, pc, t, reply).said, true)
  {
    var said := Further(c, pc, t, reply).said;
    CallIsWrite(c, pc, t.said, reply);
    LastOne(c, pc.stream, pc.k);
    assert WritesOf(c, pc.stream, pc.k + 1) == WritesOf(c, pc.stream, pc.k) + WriteOf(c, pc.stream, pc.k);
    assert Wrote(c, said, pc.stream, ToWrite(pc.stream), true);
  }

  lemma WroteOneMore(c: Config, pc: Pc, said: seq<Exchange>, reply: Reply)
    requires pc.WriteChunk? && CanReply(CallAt(c, pc), reply) && Wrote(c, said, pc.stream, pc.k, false)
    requires !LastChunk(pc.stream, pc.k)
    ensures Wrote(c, said + [Exchange(CallAt(c, pc), reply)], pc.stream, pc.k + 1, !reply.Ok?)
  {
    CallIsWrite(c, pc, said, reply);
    MoreToWrite(pc.stream, pc.k);
    assert WritesOf(c, pc.stream, pc.k + 1) == WritesOf(c, pc.stream, pc.k) + WriteOf(c, pc.stream, pc.k);
  }

  lemma MoreWrites(c: Config, pc: Pc, t: Talk, reply: Reply)
    requires Speaks(c, pc, t, reply) && pc.WriteChunk? && PcWrites(c, pc, t) && !LastChunk(pc.stream, pc.k)
    ensures PcWrites(c, After(c, pc, reply), Further(c, pc, t, reply))
  {
    WroteOneMore(c, pc, t.said, reply);
    if reply.Ok? {
      assert After(c, pc, reply) == WriteChunk(pc.me, pc.stream, pc.k + 1);
    } else {
      PastWriting(c, After(c, pc, reply), Further(c, pc, t, reply));
    }
  }

  lemma ChunkWrites(c: Config, pc: Pc, t: Talk, reply: Reply)
    requires Speaks(c, pc, t, reply) && pc.WriteChunk? && PcWrites(c, pc, t)
    ensures PcWrites(c, After(c, pc, reply), Further(c, pc, t, reply))
  {
    if LastChunk(pc.stream, pc.k) {
      LastWrites(c, pc, t, reply);
    } else {
      MoreWrites(c, pc, t, reply);
    }
  }

  lemma MoreToWrite(stream: Stream, k: nat)
    requires !LastChunk(stream, k)
    ensures k + 1 <= ToWrite(stream)
  {
    ChunksCover(stream.data);
  }

  lemma StartWrites(c: Config, pc: Pc, t: Talk, reply: Reply)
    requires Speaks(c, pc, t, reply) && pc.StartWrite? && PcWrites(c, pc, t)
    ensures PcWrites(c, After(c, pc, reply), Further(c, pc, t, reply))
  {
    var e := Exchange(CallAt(c, pc), reply);
    OneMore(t.said, e);
    Said(t.said, e);
    if reply.Ok? {
      assert WritesOf(c, pc.stream, 0) == [];
      assert Wrote(c, t.said + [e], pc.stream, 0, false);
    }
  }

  lemma PlanWrites(c: Config, pc: Pc, t: Talk, reply: Reply)
    requires Speaks(c, pc, t, reply) && Phase(pc) >= 17 && !pc.StartWrite? && PcWrites(c, pc, t)
    ensures PcWrites(c, After(c, pc, reply), Further(c, pc, t, reply))
  {
    var e := Exchange(CallAt(c, pc), reply);
    OneMore(t.said, e);
    Said(t.said, e);
    assert !e.call.BulkWrite? && !e.call.BulkStart?;
  }

  lemma NoMoreWrites(c: Config, pc: Pc)
    requires Phase(pc) <= 15
    ensures !CallAt(c, pc).BulkWrite? && !CallAt(c, pc).BulkStart?
  {
  }

  lemma RestWrites(c: Config, pc: Pc, t: Talk, reply: Reply)
    requires !pc.Idle? && Phase(pc) <= 15 && PcWrites(c, pc, t)
    ensures PcWrites(c, After(c, pc, reply), Further(c, pc, t, reply))
  {
    NoMoreWrites(c, pc);
    CallsDecrease(c, pc, reply);
    SameWrites(c, t.said, Exchange(CallAt(c, pc), reply));
    PastWriting(c, After(c, pc, reply), Further(c, pc, t, reply));
  }

  lemma PastWriting(c: Config, pc: Pc, t: Talk)
    requires Phase(pc) <= 15 && WritesAreTold(c, t.said, true)
    ensures PcWrites(c, pc, t)
  {
  }

  lemma StepWrites(c: Config, s: State, t: Talk, a: Action)
    requires s.w.log != [] && TalkInv(c, s, t) && PcWrites(c, s.pc, t)
    ensures PcWrites(c, Step(c, s, a).pc, TalkAfter(c, s, t, a))
  {
    if a.Next? && !s.pc.Idle? {
      RepliesFit(s.w, CallAt(c, s.pc), a.fault, a.stream);
      var reply := Serve(s.w, CallAt(c, s.pc), a.fault, a.stream).1;
      if s.pc.WriteChunk? {
        ChunkWrites(c, s.pc, t, reply);
      } else if s.pc.StartWrite? {
        StartWrites(c, s.pc, t, reply);
      } else if Phase(s.pc) >= 17 {
        PlanWrites(c, s.pc, t, reply);
      } else {
        RestWrites(c, s.pc, t, reply);
      }
    }
  }

  lemma {:induction false} RunWrites(c: Config, acts: seq<Action>)
    ensures PcWrites(c, Run(c, acts).pc, TalkOf(c, acts))
    decreases |acts|
  {
    if acts != [] {
      var front := acts[..|acts| - 1];
      RunTells(c, front);
      RunWrites(c, front);
      StepWrites(c, Run(c, front), TalkOf(c, front), acts[|acts| - 1]);
    }
  }

  /**
   In every run, with any faults, a reconcile that started the import disk for a body has made exactly the
   writes of its first chunks that are not all zeros, each once and in order: of all there are to write, unless
   one failed. A reconcile that did not start it has written nothing.
   */
  lemma WritesAreThePass(c: Config, acts: seq<Action>)
    ensures var s := Run(c, acts);
            s.pc.Idle? && !s.pc.outcome.Crashed? ==> WritesAreTold(c, TalkOf(c, acts).said, true)
  {
    RunWrites(c, acts);
  }
}
