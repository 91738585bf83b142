/**
 Where the stronger claims about the image controller stop being true, exactly: which specs let a
 download that was cut short become the image, and that a deletion can leave a snapshot behind.
 */
module ImageLimits {
  import opened Common
  import opened ImportChunks
  import opened OxideRemote
  import opened ImageMachine
  import opened ImageInvariant
  import opened ImageSafety
  import opened ImageProgress
  import opened ImageSchedules
  import opened ImageVersions
  import opened ImageDeletion

  // --- Truncated downloads ---

  /** The controller never looks at the file but through downloads. */
  lemma StepIgnoresFile(c: Config, file: seq<Byte>, s: State, a: Action)
    requires s.w.log != []
    ensures Step(c.(file := file), s, a) == Step(c, s, a)
  {
    var d := c.(file := file);
    if a.Next? {
      assert CallAt(d, s.pc) == CallAt(c, s.pc);
      var reply := Serve(s.w, CallAt(c, s.pc), a.fault, a.stream).1;
      assert After(d, s.pc, reply) == After(c, s.pc, reply);
    }
  }

  lemma {:induction false} ExecIgnoresFile(c: Config, file: seq<Byte>, s: State, acts: seq<Action>)
    requires s.w.log != []
    ensures Exec(c.(file := file), s, acts) == Exec(c, s, acts)
    decreases |acts|
  {
    if acts != [] {
      var front := acts[..|acts| - 1];
      ExecIgnoresFile(c, file, s, front);
      StepIgnoresFile(c, file, Exec(c, s, front), acts[|acts| - 1]);
    }
  }

  /** An import whose downloads all bring the same accepted body ends in an image compatible with the file. */
  lemma ImportWithBody(c: Config, body: Stream) returns (acts: seq<Action>)
    requires Fits(c) && Arrives(c, body)
    ensures OnlyBody(acts, body)
    ensures var image := Run(c, acts).w.ox.image;
            image.Some? && Compatible(c.file, image.value.contents)
  {
    InitHasFullInv(c);
    var rounds := ImportCompletes(c, body, Init());
    acts := PlayIsRun(c, body, Init(), rounds);
    assert AllAllowed(c, acts);
    RunKeepsInv(c, Init(), acts);
  }

  lemma PrefixMisses(file: seq<Byte>, n: nat, contents: seq<Byte>)
    requires n <= |file| && Compatible(file[..n], contents) && !Zeros(file[n..])
    ensures !IsFile(file, contents)
  {
    var i :| 0 <= i < |file[n..]| && file[n..][i] != 0;
    assert file[n + i] != 0;
    if |file| <= |contents| {
      assert contents[n + i] == 0 && (file + Blank(|contents| - |file|))[n + i] == file[n + i];
    }
  }

  /**
   An accepted prefix that misses a non-zero byte of the file leads to an image without it: every download
   is cut there.
   */
  lemma TruncatedImport(c: Config, n: nat) returns (acts: seq<Action>)
    requires Fits(c) && Accepted(c, n) && !Zeros(c.file[n..])
    ensures AllAllowed(c, acts)
    ensures var image := Run(c, acts).w.ox.image;
            image.Some? && !IsFile(c.file, image.value.contents)
  {
    var body := Stream(c.length, c.file[..n], Truncated);
    assert FromFile(c, body);
    var d := c.(file := c.file[..n]);
    acts := ImportWithBody(d, body);
    ExecIgnoresFile(c, c.file[..n], Init(), acts);
    PrefixMisses(c.file, n, Run(c, acts).w.ox.image.value.contents);
  }

  /**
   The images of all runs hold the file if and only if every prefix of it that downloads may be cut
   to and that matches spec.sha256 (any prefix at all when that is unset) misses nothing but zeros.
   */
  lemma ImagesHoldFileIffSafeSpec(c: Config)
    requires Fits(c)
    ensures SafeSpec(c) <==>
            forall acts :: AllAllowed(c, acts) ==>
              var image := Run(c, acts).w.ox.image;
              image.Some? ==> IsFile(c.file, image.value.contents)
  {
    if SafeSpec(c) {
      forall acts | AllAllowed(c, acts)
        ensures var image := Run(c, acts).w.ox.image;
                image.Some? ==> IsFile(c.file, image.value.contents)
      {
        ImageHoldsFile(c, acts);
      }
    } else {
      var n: nat :| Accepted(c, n) && !Zeros(c.file[n..]);
      var acts := TruncatedImport(c, n);
    }
  }

  // --- Leftovers ---

  /** A fault-free import from nothing up to the moment its disk is ready to be written. */
  lemma ImportUntilReady(c: Config) returns (acts: seq<Action>, s: State)
    requires Fits(c) && ShaMatches(c, c.file)
    ensures AllAllowed(c, acts) && Run(c, acts) == s
    ensures s.pc.Idle? && Healthy(c, Whole(c), s.w)
    ensures s.w.ox.image.None? && s.w.ox.snapshot.None? && s.w.ox.disk.Some? && s.w.ox.disk.value.state.ImportReady?
  {
    acts := ReconcileIsRun(c, Whole(c), Init(), 0);
    var s1 := FirstReconcile(c);
    s := Step(c, s1, Env(DiskReady));
    ExecOne(c, Init(), acts, Env(DiskReady));
    acts := acts + [Env(DiskReady)];
  }

  /** And on to the moment it is being finalized into the snapshot. */
  lemma ImportUntilSnapshotting(c: Config) returns (acts: seq<Action>, s: State)
    requires Fits(c) && ShaMatches(c, c.file)
    ensures AllAllowed(c, acts) && Run(c, acts) == s
    ensures s.pc.Idle? && Snapshotting(s.w.ox) && Healthy(c, Whole(c), s.w)
  {
    var before, s1 := ImportUntilReady(c);
    RunHasFullInv(c, before);
    var write := ReconcileIsRun(c, Whole(c), s1, Newest(s1.w));
    s := SecondReconcile(c, s1);
    ExecAppend(c, Init(), before, write);
    acts := before + write;
  }

  lemma FinishFindsNothing(c: Config, body: Stream, s: State) returns (s': State)
    requires Fits(c) && Opened(s) && s.w.ox.image.None? && s.w.ox.snapshot.None?
    ensures s' == s.(pc := ViewDisk(s.pc.me)) && Finish(c, body, s) == Finish(c, body, s')
  {
    FinishNotFound(c, body, s);
    s' := Unroll(c, body, s.(pc := ViewSnapshot(s.pc.me)));
  }

  lemma FirstReconcile(c: Config) returns (s: State)
    requires Fits(c) && ShaMatches(c, c.file)
    ensures s == Reconcile(c, Whole(c), Init(), 0)
    ensures s.pc.Idle? && Healthy(c, Whole(c), s.w) && s.w.ox == Oxide(Imported(c, None), None, None, 0)
  {
    var body := Whole(c);
    InitHasFullInv(c);
    s := Reconcile(c, body, Init(), 0);
    var s0 := ReconcileOpens(c, body, Init(), 0);
    var s1 := FinishFindsNothing(c, body, s0);
    FinishNewDisk(c, body, s1);
  }

  lemma WritesReadyDisk(c: Config, s: State)
    requires ContentsInv(c, s.w.ox) && Healthy(c, Whole(c), s.w) && s.pc.ViewDisk?
    requires s.w.ox.disk.Some? && s.w.ox.disk.value.state.ImportReady?
    ensures Finalized(s, Finish(c, Whole(c), s))
  {
    FinishReadyDisk(c, Whole(c), s);
  }

  lemma SecondReconcile(c: Config, s: State) returns (s': State)
    requires FullInv(c, s) && Healthy(c, Whole(c), s.w) && s.pc.Idle?
    requires s.w.ox.image.None? && s.w.ox.snapshot.None? && s.w.ox.disk.Some? && s.w.ox.disk.value.state.ImportReady?
    ensures s' == Reconcile(c, Whole(c), s, Newest(s.w))
    ensures s'.pc.Idle? && Healthy(c, Whole(c), s'.w) && Snapshotting(s'.w.ox)
  {
    var s1 := OpensToDisk(c, s);
    WritesReadyDisk(c, s1);
    s' := Finish(c, Whole(c), s1);
  }

  /** With neither image nor snapshot a reconcile of the newest version comes to the disk as it is. */
  lemma OpensToDisk(c: Config, s: State) returns (s': State)
    requires FullInv(c, s) && Healthy(c, Whole(c), s.w) && s.pc.Idle? && s.w.ox.image.None? && s.w.ox.snapshot.None?
    ensures s'.pc.ViewDisk? && s'.w.ox == s.w.ox && ContentsInv(c, s'.w.ox) && Healthy(c, Whole(c), s'.w)
    ensures Reconcile(c, Whole(c), s, Newest(s.w)) == Finish(c, Whole(c), s')
  {
    var s0 := ReconcileOpens(c, Whole(c), s, Newest(s.w));
    s' := FinishFindsNothing(c, Whole(c), s0);
  }

  /**
   For every import there is a run, without a single fault, after which the object is gone and its import
   snapshot is not.
   */
  lemma DeletionCanLeak(c: Config) returns (acts: seq<Action>)
    requires Fits(c) && ShaMatches(c, c.file)
    ensures AllAllowed(c, acts) && LeftBehind(Run(c, acts))
  {
    var before, s := ImportUntilSnapshotting(c);
    RunHasFullInv(c, before);
    var s1, s2 := DeletionBegins(c, s);
    var latest := |s1.w.log| - 1;
    ExecOne(c, Init(), before, Env(UserDeletes));
    ExecOne(c, Init(), before + [Env(UserDeletes)], Begin(latest));
    var leak, s3 := RaceLeaks(c, s2);
    acts := before + [Env(UserDeletes)] + [Begin(latest)];
    ExecAppend(c, Init(), acts, leak);
    acts := acts + leak;
  }

  lemma DeletionBegins(c: Config, s: State) returns (s1: State, s2: State)
    requires Inv(c, s) && s.pc.Idle? && Snapshotting(s.w.ox) && Healthy(c, Whole(c), s.w)
    ensures s1 == Step(c, s, Env(UserDeletes)) && s2 == Step(c, s1, Begin(|s1.w.log| - 1))
    ensures DeletingSnapshot(s2) && Snapshotting(s2.w.ox) && s2.w.ox.snapshot.None? && s2.w.ox.image.None?
    ensures s2.pc.me.version == |s2.w.log| - 1 && !Last(s2.w).gone && Last(s2.w).deleting
  {
    s1 := Step(c, s, Env(UserDeletes));
    s2 := Step(c, s1, Begin(|s1.w.log| - 1));
    assert Last(s.w).finalizer;
  }

  /** And a safe import, from nothing, ends with the file in the image, the temporaries gone and a nil result. */
  lemma ImportEndsWithFile(c: Config) returns (acts: seq<Action>)
    requires Fits(c) && ShaMatches(c, c.file) && SafeSpec(c)
    ensures AllAllowed(c, acts)
    ensures var s := Run(c, acts);
            && Done(c, s.w) && s.pc == Idle(Nil)
            && IsFile(c.file, s.w.ox.image.value.contents)
  {
    InitHasFullInv(c);
    var rounds := ImportCompletes(c, Whole(c), Init());
    acts := PlayIsRun(c, Whole(c), Init(), rounds);
    assert AllAllowed(c, acts);
    ImageHoldsFile(c, acts);
  }
}
