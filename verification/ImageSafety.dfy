/**
 What the invariant means for whole runs of the image controller, from a fresh object, with
 crashes, lost calls, late effects and settling anywhere.
 */
module ImageSafety {
  import opened Common
  import opened ImportChunks
  import opened OxideRemote
  import opened ImageMachine
  import opened ImageInvariant

  /** A run from a fresh object. */
  function Run(c: Config, acts: seq<Action>): (s: State)
    ensures s.w.log != []
  {
    Exec(c, Init(), acts)
  }

  lemma RunHasInv(c: Config, acts: seq<Action>)
    requires Fits(c) && AllAllowed(c, acts)
    ensures Inv(c, Run(c, acts))
  {
    InitHasInv(c);
    RunKeepsInv(c, Init(), acts);
  }

  // --- What an image holds ---

  /** No pass that can be taken for a whole one misses a byte other than zero. */
  ghost predicate SafeSpec(c: Config) {
    forall n: nat :: Accepted(c, n) ==> Zeros(c.file[n..])
  }

  ghost predicate Injective(digest: seq<Byte> -> int) {
    forall a, b :: digest(a) == digest(b) ==> a == b
  }

  /** Either premise of the import makes it safe: downloads arrive whole, or spec.sha256 is the file's digest. */
  lemma WholeDownloadsOrDigestAreSafe(c: Config)
    requires !c.truncates || (Injective(c.digest) && c.sha == Some(c.digest(c.file)))
    ensures SafeSpec(c)
  {
    forall n: nat | Accepted(c, n)
      ensures Zeros(c.file[n..])
    {
      assert n == |c.file| by {
        assert |c.file[..n]| == n;
      }
    }
  }

  lemma GoodIsFile(c: Config, contents: seq<Byte>)
    requires SafeSpec(c) && Good(c, contents)
    ensures IsFile(c.file, contents)
  {
    var n: nat :| Accepted(c, n) && StartsWith(c.file, n, contents);
    forall i | 0 <= i < |c.file|
      ensures contents[i] == c.file[i]
    {
      if n <= i {
        assert c.file[n..][i - n] == 0;
      }
    }
    CompleteIsFile(c.file, contents);
  }

  /** In every run, any image of a safe import holds exactly the file followed by zeros, and so does any snapshot. */
  lemma ImageHoldsFile(c: Config, acts: seq<Action>)
    requires Fits(c) && AllAllowed(c, acts) && SafeSpec(c)
    ensures var ox := Run(c, acts).w.ox;
            && (ox.image.Some? ==> IsFile(c.file, ox.image.value.contents))
            && (ox.snapshot.Some? ==> IsFile(c.file, ox.snapshot.value.contents))
  {
    RunHasInv(c, acts);
    var ox := Run(c, acts).w.ox;
    if ox.image.Some? {
      GoodIsFile(c, ox.image.value.contents);
    }
    if ox.snapshot.Some? {
      GoodIsFile(c, ox.snapshot.value.contents);
    }
  }

  // --- Temporaries ---

  /**
   In every run, once any version of the object records the existing image's ID, the import disk and
   snapshot are gone.
   */
  lemma RecordedImageHasNoTemporaries(c: Config, acts: seq<Action>, i: nat)
    requires Fits(c) && AllAllowed(c, acts)
    ensures var w := Run(c, acts).w;
            i < |w.log| && w.ox.image.Some? && w.log[i].statusId == Some(w.ox.image.value.id) ==> NoTemporaries(w.ox)
  {
    RunHasInv(c, acts);
  }

  /**
   In every run, nothing exists in Oxide before the finalizer is stored, nor while it is missing from a live
   object.
   */
  lemma FinalizerComesFirst(c: Config, acts: seq<Action>)
    requires Fits(c) && AllAllowed(c, acts)
    ensures var w := Run(c, acts).w;
            Empty(w.ox) || Last(w).finalizer || Last(w).gone
  {
    RunHasInv(c, acts);
  }

  // --- Writes ---

  /**
   In every run, each bulk write is at a chunk boundary, a positive number of whole blocks up to a chunk,
   and within the disk.
   */
  lemma WritesFit(c: Config, acts: seq<Action>)
    requires Fits(c) && AllAllowed(c, acts)
    requires CallAt(c, Run(c, acts).pc).BulkWrite?
    ensures var s := Run(c, acts);
            var call := CallAt(c, s.pc);
            && s.w.ox.disk.Some?
            && call.offset % IMPORT_CHUNK_SIZE == 0
            && 0 < |call.bytes| <= IMPORT_CHUNK_SIZE && |call.bytes| % c.blockSize == 0
            && call.offset + |call.bytes| <= |s.w.ox.disk.value.contents|
  {
    RunHasInv(c, acts);
    var s := Run(c, acts);
    assert s.pc.WriteChunk?;
    WriteFits(s.w.ox.disk.value.contents, s.pc.stream.data, s.pc.k, c.blockSize);
    MultipleMod(s.pc.k, IMPORT_CHUNK_SIZE);
  }

  // --- Finished work is kept ---

  /** Along the run no image exists and the object is not being deleted. */
  ghost predicate Undisturbed(c: Config, s: State, acts: seq<Action>)
    requires s.w.log != []
  {
    forall n {:trigger acts[..n]} :: 0 <= n <= |acts| ==>
      var s' := Exec(c, s, acts[..n]);
      s'.w.ox.image.None? && !Last(s'.w).deleting
  }

  lemma UndisturbedFront(c: Config, s: State, acts: seq<Action>)
    requires s.w.log != [] && acts != [] && Undisturbed(c, s, acts)
    ensures var front := acts[..|acts| - 1];
            && Undisturbed(c, s, front)
            && Exec(c, s, front).w.ox.image.None? && !Last(Exec(c, s, front).w).deleting
            && Exec(c, s, acts).w.ox.image.None?
  {
    var front := acts[..|acts| - 1];
    assert front == acts[..|front|] && acts == acts[..|acts|];
    forall n {:trigger front[..n]} | 0 <= n <= |front|
      ensures Exec(c, s, front[..n]).w.ox.image.None? && !Last(Exec(c, s, front[..n]).w).deleting
    {
      assert front[..n] == acts[..n];
    }
  }

  lemma NoDeletionNoDoom(c: Config, s: State)
    requires Inv(c, s) && !Last(s.w).deleting
    ensures forall i :: 0 <= i < |s.w.log| ==> !s.w.log[i].deleting
  {
    forall i | 0 <= i < |s.w.log| - 1
      ensures !s.w.log[i].deleting
    {
      assert Follows(s.w.log[i], Last(s.w));
    }
  }

  lemma StepKeepsSnapshot(c: Config, s: State, a: Action)
    requires Inv(c, s) && Allowed(c, a)
    requires s.w.ox.snapshot.Some? && s.w.ox.image.None? && !Last(s.w).deleting && !s.pc.CleanSnapshot?
    ensures var s' := Step(c, s, a);
            && s'.w.ox.snapshot.Some? && s'.w.ox.snapshot.value.contents == s.w.ox.snapshot.value.contents
            && (s'.w.ox.image.None? ==> !s'.pc.CleanSnapshot?)
  {
    NoDeletionNoDoom(c, s);
  }

  /**
   A snapshot once taken survives whatever follows, with its contents, until an image exists or the
   object is deleted: in particular deleting the detached disk after a stale view does not lose the import.
   */
  lemma {:induction false} SnapshotSurvives(c: Config, s: State, acts: seq<Action>)
    requires Inv(c, s) && AllAllowed(c, acts) && Undisturbed(c, s, acts)
    requires s.w.ox.snapshot.Some? && !s.pc.CleanSnapshot?
    ensures var s' := Exec(c, s, acts);
            && s'.w.ox.snapshot.Some? && s'.w.ox.snapshot.value.contents == s.w.ox.snapshot.value.contents
            && !s'.pc.CleanSnapshot?
    decreases |acts|
  {
    if acts != [] {
      var front := acts[..|acts| - 1];
      UndisturbedFront(c, s, acts);
      SnapshotSurvives(c, s, front);
      RunKeepsInv(c, s, front);
      StepKeepsSnapshot(c, Exec(c, s, front), acts[|acts| - 1]);
    }
  }

  // --- Placement ---

  /**
   In every run, right after a reconcile returned nil an existing image is in the silo exactly when
   spec.promote is set.
   */
  lemma NilMeansPlaced(c: Config, acts: seq<Action>)
    requires Fits(c) && AllAllowed(c, acts)
    ensures var s := Run(c, acts);
            s.pc == Idle(Nil) && s.w.ox.image.Some? ==> (!s.w.ox.image.value.inProject <==> c.promote)
  {
    RunHasInv(c, acts);
  }
}
