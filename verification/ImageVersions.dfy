/**
 Which image IDs the versions of an object record, and in what order: a reconcile of an outdated
 version cannot mistake the existing image for a recorded one.
 */
module ImageVersions {
  import opened Common
  import opened ImportChunks
  import opened OxideRemote
  import opened ImageMachine
  import opened ImageInvariant
  import opened ImageSafety

  /** This version records no image newer than the given one. */
  predicate NoNewer(o: Object, id: nat) {
    o.statusId.Some? ==> o.statusId.value <= id
  }

  /** The image whose ID the reconcile under way is about to record. */
  function Recording(pc: Pc): Option<nat> {
    match pc
    case CleanSnapshot(_, Cleanup(image)) => Some(image.id)
    case DropStop(_, Cleanup(image)) => Some(image.id)
    case DropFinalize(_, Cleanup(image)) => Some(image.id)
    case DropDisk(_, Cleanup(image)) => Some(image.id)
    case Place(_, image) => Some(image.id)
    case RecordStatus(_, id, _) => Some(id)
    case _ => None
  }

  /** IDs are recorded in the order the images were made. */
  predicate IdsInOrder(s: State) {
    && s.w.log != []
    && (forall i :: 0 <= i < |s.w.log| && s.w.log[i].statusId.Some? ==>
          Last(s.w).statusId.Some? && s.w.log[i].statusId.value <= Last(s.w).statusId.value)
    && (s.w.ox.image.Some? ==> NoNewer(Last(s.w), s.w.ox.image.value.id))
    && (Recording(s.pc).Some? ==> NoNewer(Last(s.w), Recording(s.pc).value))
  }

  ghost predicate FullInv(c: Config, s: State) {
    Inv(c, s) && IdsInOrder(s)
  }

  lemma StoreKeepsOrder(s: State, o: Object, next: State)
    requires IdsInOrder(s) && next.w == Store(s.w, o)
    requires o.statusId == Last(s.w).statusId || (o.statusId.Some? && NoNewer(Last(s.w), o.statusId.value))
    requires next.w.ox.image.Some? ==> NoNewer(o, next.w.ox.image.value.id)
    requires Recording(next.pc).Some? ==> NoNewer(o, Recording(next.pc).value)
    ensures IdsInOrder(next)
  {
    assert Last(next.w) == o;
  }

  lemma FinalizerCallKeepsOrder(c: Config, s: State, fault: Fault, stream: Stream)
    requires FullInv(c, s) && (s.pc.AddFinalizer? || s.pc.RemoveFinalizer?)
    ensures IdsInOrder(Step(c, s, Next(fault, stream)))
  {
    var s' := Step(c, s, Next(fault, stream));
    if s'.w.log != s.w.log {
      StoreKeepsOrder(s, Last(s'.w), s');
    }
  }

  lemma RecordingKeepsOrder(c: Config, s: State, fault: Fault, stream: Stream)
    requires FullInv(c, s) && s.pc.RecordStatus?
    ensures IdsInOrder(Step(c, s, Next(fault, stream)))
  {
    var s' := Step(c, s, Next(fault, stream));
    if s'.w.log != s.w.log {
      StoreKeepsOrder(s, Last(s'.w), s');
    }
  }

  /** A call to Oxide makes no image but the newest, and what it finds is what there is. */
  lemma OxideCallKeepsOrder(c: Config, s: State, fault: Fault, stream: Stream)
    requires FullInv(c, s) && !s.pc.Idle? && !ObjectCall(s.pc)
    ensures IdsInOrder(Step(c, s, Next(fault, stream)))
  {
    var s' := Step(c, s, Next(fault, stream));
    OxideCallKeepsIds(c, s, fault, stream);
    assert RecordedClean(s.w.ox, Last(s.w));
    RecordsWhatItFinds(c, s, fault, stream);
  }

  lemma RecordsWhatItFinds(c: Config, s: State, fault: Fault, stream: Stream)
    requires FullInv(c, s) && !s.pc.Idle? && !ObjectCall(s.pc)
    ensures var s' := Step(c, s, Next(fault, stream));
            Recording(s'.pc).Some? ==>
              Recording(s.pc) == Recording(s'.pc)
                  || (s'.w.ox.image.Some? && Recording(s'.pc) == Some(s'.w.ox.image.value.id))
  {
  }

  lemma StepKeepsFullInv(c: Config, s: State, a: Action)
    requires FullInv(c, s) && Allowed(c, a)
    ensures FullInv(c, Step(c, s, a))
  {
    StepKeepsInv(c, s, a);
    match a
    case Env(event) =>
      if Settle(s.w, event).log != s.w.log {
        StoreKeepsOrder(s, Last(Settle(s.w, event)), Step(c, s, a));
      }
    case Next(fault, stream) =>
      if !s.pc.Idle? {
        if s.pc.RecordStatus? {
          RecordingKeepsOrder(c, s, fault, stream);
        } else if s.pc.AddFinalizer? || s.pc.RemoveFinalizer? {
          FinalizerCallKeepsOrder(c, s, fault, stream);
        } else {
          OxideCallKeepsOrder(c, s, fault, stream);
        }
      }
    case _ =>
  }

  lemma {:induction false} RunKeepsFullInv(c: Config, s: State, acts: seq<Action>)
    requires FullInv(c, s) && AllAllowed(c, acts)
    ensures FullInv(c, Exec(c, s, acts))
    decreases |acts|
  {
    if acts != [] {
      RunKeepsFullInv(c, s, acts[..|acts| - 1]);
      StepKeepsFullInv(c, Exec(c, s, acts[..|acts| - 1]), acts[|acts| - 1]);
    }
  }

  lemma InitHasFullInv(c: Config)
    requires Fits(c)
    ensures FullInv(c, Init())
  {
    InitHasInv(c);
  }

  lemma RunHasFullInv(c: Config, acts: seq<Action>)
    requires Fits(c) && AllAllowed(c, acts)
    ensures FullInv(c, Run(c, acts))
  {
    InitHasFullInv(c);
    RunKeepsFullInv(c, Init(), acts);
  }

  /** If any version records the existing image's ID, the newest does. */
  lemma RecordedInNewest(c: Config, s: State, i: nat)
    requires FullInv(c, s) && i < |s.w.log| && s.w.ox.image.Some? && s.w.log[i].statusId == Some(s.w.ox.image.value.id)
    ensures Last(s.w).statusId == s.w.log[i].statusId
  {
  }
}
