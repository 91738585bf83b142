/**
 What the instance controller says in one reconcile: its outcome and each of its calls are told by the
 version read and the replies so far, in every run.
 */
module InstanceTalk {
  import opened Common
  import opened InstanceMachine
  import opened InstanceProofs

  datatype Exchange = Exchange(call: Call, reply: Reply)

  /** One reconcile: the version it read, and the calls so far with their replies. */
  datatype Talk = Talk(read: Option<Object>, said: seq<Exchange>)

  function TalkAfter(spec: Spec, s: State, t: Talk, a: Action): Talk
    requires s.w.log != []
  {
    match a
    case Wake(version) =>
      if s.pc.Idle? && s.floor <= version < |s.w.log| then Talk(Some(s.w.log[version]), []) else t
    case Next(fault) =>
      if s.pc.Idle? then t else
        var call := CallAt(spec, s.pc);
        t.(said := t.said + [Exchange(call, Serve(spec, s.w, call, fault).1)])
    case _ => t
  }

  /** The conversation of the last reconcile of a run. */
  function TalkOf(spec: Spec, acts: seq<Action>): Talk
    decreases |acts|
  {
    if acts == [] then Talk(None, []) else
      var front := acts[..|acts| - 1];
      TalkAfter(spec, Exec(spec, Init(), front), TalkOf(spec, front), acts[|acts| - 1])
  }

  // --- What a conversation tells ---

  predicate Heard(said: seq<Exchange>, call: Call, reply: Reply) {
    Exchange(call, reply) in said
  }

  predicate WentThrough(said: seq<Exchange>, call: Call) {
    Heard(said, call, Ok) || Heard(said, call, NotFound)
  }

  /** A reply the controller cannot go on from: for a view or a delete, not found is none. */
  predicate IsTrouble(e: Exchange) {
    || e.reply.Error?
    || (e.reply.NotFound? && (e.call.Create? || e.call.Stop? || e.call.Update? || e.call.Start? || e.call.ListIps?
                              || (e.call.UpdateObject? && e.call.finalizer)))
  }

  ghost predicate Trouble(said: seq<Exchange>) {
    exists e :: e in said && IsTrouble(e)
  }

  /** The instance as viewed, or as just created. */
  predicate Viewed(said: seq<Exchange>, cur: Instance) {
    Heard(said, View, Got(cur)) || Heard(said, Create, Got(cur))
  }

  /** Size and power state are as the spec asks. */
  predicate Matches(spec: Spec, cur: Instance) {
    RightSize(spec, cur) && cur.run == (if spec.wantRunning then Running else Stopped)
  }

  predicate Halted(cur: Instance) {
    cur.run.Stopped? || cur.run.Failed?
  }

  ghost predicate LiveOutcome(spec: Spec, said: seq<Exchange>, o: Outcome) {
    && (o.Nil? || o.Progressing? || o.Erred?)
    && (o.Erred? <==> Trouble(said) || exists cur :: Viewed(said, cur) && cur.run.Failed? && RightSize(spec, cur))
    && (o.Nil? <==> !Trouble(said) && exists cur :: Viewed(said, cur) && Matches(spec, cur))
  }

  ghost predicate DeletionOutcome(said: seq<Exchange>, o: Outcome) {
    && (o.Deleted? || o.Progressing? || o.Erred?)
    && (o.Erred? <==> Trouble(said))
    && (o.Progressing? <==> !Trouble(said) && exists cur :: Viewed(said, cur) && !Halted(cur))
  }

  predicate NothingToDo(o: Object) {
    o.gone || (o.deleting && !o.finalizer)
  }

  /** How a reconcile that was not cut short by a crash must have ended. */
  ghost predicate Tells(spec: Spec, t: Talk, o: Outcome) {
    if t.read.None? || NothingToDo(t.read.value) then o.Ignored? && t.said == []
    else if t.read.value.deleting then DeletionOutcome(t.said, o)
    else LiveOutcome(spec, t.said, o)
  }

  // --- What a call rests on ---

  predicate InstanceGone(said: seq<Exchange>) {
    Heard(said, View, NotFound) || WentThrough(said, Delete)
  }

  ghost predicate MayAsk(spec: Spec, t: Talk, call: Call)
    requires t.read.Some?
  {
    var o, said := t.read.value, t.said;
    match call
    case View => true
    case Create => !o.deleting && Heard(said, View, NotFound)
    case Stop => exists cur :: Viewed(said, cur) && cur.run.Running? && (o.deleting || !Matches(spec, cur))
    case Update(u) =>
      && !o.deleting
      && exists cur :: Viewed(said, cur) && cur.run.Stopped? && !RightSize(spec, cur)
                       && Updated(cur, u) == cur.(ncpus := spec.ncpus, memory := spec.memory)
    case Start =>
      && !o.deleting && spec.wantRunning
      && exists cur :: Viewed(said, cur) && cur.run.Stopped? && RightSize(spec, cur)
    case ListIps => !o.deleting && exists cur :: Viewed(said, cur) && Matches(spec, cur)
    case Delete => o.deleting && exists cur :: Viewed(said, cur) && Halted(cur)
    case DeleteBootDisk => o.deleting && spec.createsBootDisk && InstanceGone(said)
    case UpdateObject(_, finalizer) =>
      if finalizer then !o.deleting && !o.finalizer && said == []
      else o.deleting && InstanceGone(said) && (spec.createsBootDisk ==> WentThrough(said, DeleteBootDisk))
  }

  // --- What each program point knows of its conversation ---

  ghost predicate OnlyViewed(said: seq<Exchange>, cur: Instance) {
    Viewed(said, cur) && forall e :: e in said && e.reply.Got? ==> e.reply.inst == cur
  }

  predicate NoneViewed(said: seq<Exchange>) {
    forall e :: e in said ==> !e.reply.Got?
  }

  predicate HaltedViewed(said: seq<Exchange>) {
    forall e :: e in said && e.reply.Got? ==> Halted(e.reply.inst)
  }

  ghost predicate PcTells(spec: Spec, pc: Pc, t: Talk) {
    var said := t.said;
    match pc
    case Idle(o) => o.Crashed? || Tells(spec, t, o)
    case AddFinalizer(me) => said == [] && t.read == Some(me.obj) && !me.obj.finalizer
    case Look => !Trouble(said) && NoneViewed(said)
    case Make => !Trouble(said) && NoneViewed(said) && Heard(said, View, NotFound)
    case Halt(cur) => !Trouble(said) && OnlyViewed(said, cur) && cur.run.Running? && !Matches(spec, cur)
    case Resize(cur) => !Trouble(said) && OnlyViewed(said, cur) && cur.run.Stopped? && !RightSize(spec, cur)
    case Launch(cur) =>
      !Trouble(said) && OnlyViewed(said, cur) && cur.run.Stopped? && RightSize(spec, cur) && spec.wantRunning
    case ReadIps => !Trouble(said) && exists cur :: OnlyViewed(said, cur) && Matches(spec, cur)
    case LookToDelete(_) => !Trouble(said) && NoneViewed(said)
    case HaltToDelete => !Trouble(said) && exists cur :: OnlyViewed(said, cur) && cur.run.Running?
    case Remove(_) => !Trouble(said) && HaltedViewed(said) && exists cur :: Viewed(said, cur) && Halted(cur)
    case RemoveBootDisk(_) => !Trouble(said) && HaltedViewed(said) && InstanceGone(said) && spec.createsBootDisk
    case RemoveFinalizer(_) =>
      && !Trouble(said) && HaltedViewed(said) && InstanceGone(said)
      && (spec.createsBootDisk ==> WentThrough(said, DeleteBootDisk))
  }

  predicate Removing(pc: Pc) {
    pc.LookToDelete? || pc.HaltToDelete? || pc.Remove? || pc.RemoveBootDisk? || pc.RemoveFinalizer?
  }

  ghost predicate TalkInv(spec: Spec, pc: Pc, t: Talk) {
    && PcTells(spec, pc, t)
    && (!pc.Idle? ==> t.read.Some? && !NothingToDo(t.read.value) && (Removing(pc) <==> t.read.value.deleting))
  }

  /** What a program point knows warrants its call. */
  lemma CallIsWarranted(spec: Spec, pc: Pc, t: Talk)
    requires !pc.Idle? && TalkInv(spec, pc, t)
    ensures MayAsk(spec, t, CallAt(spec, pc))
  {
    if pc.Resize? {
      ResizeKeepsTheRest(spec, pc.cur);
    }
  }

  // --- Every step keeps it ---

  /** The replies a call can get. */
  predicate CanReply(call: Call, reply: Reply) {
    match call
    case View => reply.Got? || reply.NotFound? || reply.Error?
    case Create => reply.Got? || reply.NotFound? || reply.Error?
    case ListIps => reply.Listed? || reply.NotFound? || reply.Error?
    case _ => reply.Ok? || reply.NotFound? || reply.Error?
  }

  lemma RepliesFit(spec: Spec, w: World, call: Call, fault: Fault)
    requires w.log != []
    ensures CanReply(call, Serve(spec, w, call, fault).1)
  {
  }

  function Further(spec: Spec, pc: Pc, t: Talk, reply: Reply): Talk {
    t.(said := t.said + [Exchange(CallAt(spec, pc), reply)])
  }

  lemma StillHeard(spec: Spec, pc: Pc, t: Talk, reply: Reply)
    ensures var e, said, said' := Exchange(CallAt(spec, pc), reply), t.said, Further(spec, pc, t, reply).said;
            && Heard(said', CallAt(spec, pc), reply)
            && (forall call, r :: Heard(said, call, r) ==> Heard(said', call, r))
            && (forall cur :: Viewed(said, cur) ==> Viewed(said', cur))
            && (Trouble(said') <==> Trouble(said) || IsTrouble(e))
            && (forall x :: x in said' <==> x in said || x == e)
  {
    var e := Exchange(CallAt(spec, pc), reply);
    assert forall x :: x in t.said + [e] <==> x in t.said || x == e;
  }

  ghost predicate Speaks(spec: Spec, pc: Pc, t: Talk, reply: Reply) {
    !pc.Idle? && CanReply(CallAt(spec, pc), reply) && TalkInv(spec, pc, t)
  }

  ghost predicate Keeps(spec: Spec, pc: Pc, t: Talk, reply: Reply) {
    TalkInv(spec, After(spec, pc, reply), Further(spec, pc, t, reply))
  }

  lemma LookTells(spec: Spec, pc: Pc, t: Talk, reply: Reply)
    requires Speaks(spec, pc, t, reply) && (pc.Look? || pc.Make?)
    ensures Keeps(spec, pc, t, reply)
  {
    StillHeard(spec, pc, t, reply);
    assert reply.Got? ==> OnlyViewed(Further(spec, pc, t, reply).said, reply.inst);
  }

  lemma ActTells(spec: Spec, pc: Pc, t: Talk, reply: Reply)
    requires Speaks(spec, pc, t, reply) && (pc.Halt? || pc.Resize? || pc.Launch?)
    ensures Keeps(spec, pc, t, reply)
  {
    StillHeard(spec, pc, t, reply);
  }

  lemma ListTells(spec: Spec, pc: Pc, t: Talk, reply: Reply)
    requires Speaks(spec, pc, t, reply) && (pc.ReadIps? || pc.AddFinalizer?)
    ensures Keeps(spec, pc, t, reply)
  {
    StillHeard(spec, pc, t, reply);
  }

  lemma DeleteTells(spec: Spec, pc: Pc, t: Talk, reply: Reply)
    requires Speaks(spec, pc, t, reply) && (pc.LookToDelete? || pc.HaltToDelete? || pc.Remove?)
    ensures Keeps(spec, pc, t, reply)
  {
    StillHeard(spec, pc, t, reply);
    assert reply.Got? ==> OnlyViewed(Further(spec, pc, t, reply).said, reply.inst);
  }

  lemma RemoveTells(spec: Spec, pc: Pc, t: Talk, reply: Reply)
    requires Speaks(spec, pc, t, reply) && (pc.RemoveBootDisk? || pc.RemoveFinalizer?)
    ensures Keeps(spec, pc, t, reply)
  {
    StillHeard(spec, pc, t, reply);
  }

  lemma CallTells(spec: Spec, pc: Pc, t: Talk, reply: Reply)
    requires Speaks(spec, pc, t, reply)
    ensures Keeps(spec, pc, t, reply)
  {
    if pc.Look? || pc.Make? {
      LookTells(spec, pc, t, reply);
    } else if pc.Halt? || pc.Resize? || pc.Launch? {
      ActTells(spec, pc, t, reply);
    } else if pc.ReadIps? || pc.AddFinalizer? {
      ListTells(spec, pc, t, reply);
    } else if pc.RemoveBootDisk? || pc.RemoveFinalizer? {
      RemoveTells(spec, pc, t, reply);
    } else {
      DeleteTells(spec, pc, t, reply);
    }
  }

  lemma StepTells(spec: Spec, s: State, t: Talk, a: Action)
    requires s.w.log != [] && TalkInv(spec, s.pc, t)
    ensures TalkInv(spec, Step(spec, s, a).pc, TalkAfter(spec, s, t, a))
  {
    if a.Next? && !s.pc.Idle? {
      RepliesFit(spec, s.w, CallAt(spec, s.pc), a.fault);
      CallTells(spec, s.pc, t, Serve(spec, s.w, CallAt(spec, s.pc), a.fault).1);
    }
  }

  lemma {:induction false} RunTells(spec: Spec, acts: seq<Action>)
    ensures TalkInv(spec, Exec(spec, Init(), acts).pc, TalkOf(spec, acts))
    decreases |acts|
  {
    if acts != [] {
      var front := acts[..|acts| - 1];
      RunTells(spec, front);
      StepTells(spec, Exec(spec, Init(), front), TalkOf(spec, front), acts[|acts| - 1]);
    }
  }

  /**
   In every run, with any faults and interference, the outcome of a reconcile that returned is told by its
   conversation: Erred exactly when some reply was trouble or the instance viewed has failed at the right
   size; Nil exactly when the instance viewed is as the spec asks; Progressing otherwise. A deletion is
   Erred exactly on trouble, and Progressing exactly when the instance viewed still has to halt.
   */
  lemma OutcomesAreTold(spec: Spec, acts: seq<Action>)
    ensures var s := Exec(spec, Init(), acts);
            s.pc.Idle? && !s.pc.outcome.Crashed? ==> Tells(spec, TalkOf(spec, acts), s.pc.outcome)
  {
    RunTells(spec, acts);
  }

  /** In every run each call is warranted by the version read and the replies of its own reconcile. */
  lemma EveryCallIsWarranted(spec: Spec, acts: seq<Action>)
    requires !Exec(spec, Init(), acts).pc.Idle?
    ensures var t := TalkOf(spec, acts);
            t.read.Some? && MayAsk(spec, t, CallAt(spec, Exec(spec, Init(), acts).pc))
  {
    RunTells(spec, acts);
    CallIsWarranted(spec, Exec(spec, Init(), acts).pc, TalkOf(spec, acts));
  }
}
