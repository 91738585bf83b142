/** What a handleDelete does that no fault and nobody else disturbs. */
module ImageRemoval {
  import opened Common
  import opened ImportChunks
  import opened OxideRemote
  import opened ImageMachine
  import opened ImageInvariant
  import opened ImageProgress

  /** The reconcile has come to this: the image is gone, and the finalizer is next. */
  function Removed(s: State): State
    requires s.pc.FindInProject?
  {
    s.(w := s.w.(ox := s.w.ox.(image := None)), pc := RemoveFinalizer(s.pc.me))
  }

  lemma FinishNoImage(c: Config, body: Stream, s: State)
    requires Fits(c) && s.w.log != [] && s.pc.FindInProject? && s.w.ox.image.None?
    ensures Finish(c, body, s) == Finish(c, body, Removed(s))
  {
    var s1 := Unroll(c, body, s);
    assert s1 == s.(pc := FindInSilo(s.pc.me));
    var s2 := Unroll(c, body, s1);
    assert s2 == Removed(s);
  }

  lemma FinishFind(c: Config, body: Stream, s: State) returns (s': State)
    requires Fits(c) && s.w.log != [] && s.pc.FindInProject? && s.w.ox.image.Some?
    ensures s' == s.(pc := DeleteImage(s.pc.me, s.w.ox.image.value.id)) && Finish(c, body, s) == Finish(c, body, s')
  {
    s' := Unroll(c, body, s);
    if !s.w.ox.image.value.inProject {
      assert s' == s.(pc := FindInSilo(s.pc.me));
      s' := Unroll(c, body, s');
    }
  }

  /** The image goes, wherever it is. */
  lemma FinishImage(c: Config, body: Stream, s: State)
    requires Fits(c) && s.w.log != [] && s.pc.FindInProject?
    ensures Finish(c, body, s) == Finish(c, body, Removed(s))
  {
    if s.w.ox.image.None? {
      FinishNoImage(c, body, s);
    } else {
      var s1 := FinishFind(c, body, s);
      var s2 := Unroll(c, body, s1);
      assert s2 == Removed(s);
    }
  }

  lemma FinishFinalizer(c: Config, body: Stream, s: State)
    requires Fits(c) && s.w.log != [] && s.pc.RemoveFinalizer? && !Last(s.w).gone && Last(s.w).deleting
    ensures var s' := Finish(c, body, s);
            && s'.w.ox == s.w.ox
            && if s.pc.me.version == Newest(s.w) then s'.pc == Idle(Deleted) && Last(s'.w).gone
               else s'.pc == Idle(Erred) && s'.w.log == s.w.log
  {
    var s1 := Unroll(c, body, s);
    assert s1.pc.Idle?;
  }

  /** The import snapshot goes first, then the disk as far as it lets itself. */
  lemma FinishDeleteImport(c: Config, body: Stream, s: State) returns (s': State)
    requires Fits(c) && s.w.log != [] && s.pc.CleanSnapshot? && s.pc.why.Deletion?
    ensures var disk := Dropped(s.w.ox.disk);
            s' == s.(w := s.w.(ox := s.w.ox.(snapshot := None, disk := disk)),
                     pc := if disk.None? then FindInProject(s.pc.me) else Idle(Failed))
    ensures Finish(c, body, s) == Finish(c, body, s')
  {
    var s1 := Unroll(c, body, s);
    assert s1 == s.(w := s.w.(ox := s.w.ox.(snapshot := None)), pc := DropStop(s.pc.me, Deletion));
    FinishDrop(c, body, s1);
    var disk := Dropped(s.w.ox.disk);
    s' := s1.(w := s1.w.(ox := s1.w.ox.(disk := disk)), pc := AfterDropDisk(s.pc.me, Deletion, disk.None?));
  }

  lemma DeleteBegins(c: Config, body: Stream, s: State, version: nat) returns (s': State)
    requires Inv(c, s) && s.pc.Idle? && s.floor <= version < |s.w.log| && !Last(s.w).gone
    requires s.w.log[version].deleting && s.w.log[version].finalizer
    ensures s'.w == s.w && s'.pc == CleanSnapshot(Copy(version, s.w.log[version]), Deletion) && Last(s.w).deleting
    ensures Reconcile(c, body, s, version) == Finish(c, body, s')
  {
    assert version < Newest(s.w) ==> Follows(s.w.log[version], Last(s.w));
    s' := Step(c, s, Begin(version));
  }

  lemma EverythingGoes(c: Config, body: Stream, s: State)
    requires Fits(c) && s.w.log != [] && s.pc.CleanSnapshot? && s.pc.why.Deletion? && Dropped(s.w.ox.disk).None?
    requires !Last(s.w).gone && Last(s.w).deleting
    ensures var s' := Finish(c, body, s);
            && Empty(s'.w.ox)
            && if s.pc.me.version == Newest(s.w) then s'.pc == Idle(Deleted) && Last(s'.w).gone
               else s'.pc == Idle(Erred) && s'.w.log == s.w.log
  {
    var s1 := FinishDeleteImport(c, body, s);
    FinishImage(c, body, s1);
    FinishFinalizer(c, body, Removed(s1));
  }

  /**
   With no import disk, or a detached one, everything goes, and the object with it if the version read is the
   newest; otherwise the disk is only finalized, and the deletion has failed for good.
   */
  lemma UndisturbedDelete(c: Config, body: Stream, s: State, version: nat)
    requires Inv(c, s) && s.pc.Idle? && s.floor <= version < |s.w.log| && !Last(s.w).gone
    requires s.w.log[version].deleting && s.w.log[version].finalizer
    ensures var s', disk := Reconcile(c, body, s, version), s.w.ox.disk;
            if disk.None? || disk.value.state.Detached? then
              && Empty(s'.w.ox)
              && (if version == Newest(s.w) then s'.pc == Idle(Deleted) && Last(s'.w).gone
                  else s'.pc == Idle(Erred) && s'.w.log == s.w.log)
            else
              s'.pc == Idle(Failed) && s'.w == s.w.(ox := s.w.ox.(snapshot := None, disk := Dropped(disk)))
  {
    var s1 := DeleteBegins(c, body, s, version);
    if Dropped(s.w.ox.disk).None? {
      EverythingGoes(c, body, s1);
    } else {
      var s2 := FinishDeleteImport(c, body, s1);
    }
  }
}
