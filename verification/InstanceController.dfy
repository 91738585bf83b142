/**
 The instance controller as it is written, proved to follow the state machine whatever the replies and
 interference.
 */
module InstanceController {
  import opened Common
  import opened InstanceMachine
  import opened InstanceProofs
  import opened InstanceTalk

  predicate Reachable(ip: ExternalIp) {
    ip.Ephemeral? || ip.Floating?
  }

  /** The addresses reported on the object: ephemeral and floating ones, in order. */
  function Addresses(items: seq<ExternalIp>): (ips: seq<string>)
    ensures |ips| <= |items|
    ensures forall a :: a in ips <==> exists x :: x in items && Reachable(x) && x.ip == a
  {
    if items == [] then [] else
      var front, last := items[..|items| - 1], items[|items| - 1];
      Addresses(front) + if Reachable(last) then [last.ip] else []
  }

  function Address(ip: ExternalIp): seq<string> {
    if Reachable(ip) then [ip.ip] else []
  }

  lemma NextAddress(items: seq<ExternalIp>, ip: ExternalIp)
    ensures Addresses(items + [ip]) == Addresses(items) + Address(ip)
  {
    assert (items + [ip])[..|items|] == items;
  }

  /** What is reported of a list is what is reported of its parts, in order and with no address dropped or added. */
  lemma {:induction false} AddressesInOrder(a: seq<ExternalIp>, b: seq<ExternalIp>)
    ensures Addresses(a + b) == Addresses(a) + Addresses(b)
    decreases |b|
  {
    if b == [] {
      assert a + b == a;
    } else {
      var front, last := b[..|b| - 1], b[|b| - 1];
      AddressesInOrder(a, front);
      OneMoreAddress(a, front, last);
      assert b == front + [last] && a + b == (a + front) + [last];
    }
  }

  lemma OneMoreAddress(a: seq<ExternalIp>, b: seq<ExternalIp>, ip: ExternalIp)
    requires Addresses(a + b) == Addresses(a) + Addresses(b)
    ensures Addresses((a + b) + [ip]) == Addresses(a) + Addresses(b + [ip])
  {
    NextAddress(b, ip);
    NextAddress(a + b, ip);
    Regroup(Addresses(a), Addresses(b), Address(ip));
  }

  lemma Regroup<T>(a: seq<T>, b: seq<T>, c: seq<T>)
    ensures (a + b) + c == a + (b + c)
  {
  }

  /** Nothing further was said that tells what the instance looks like. */
  predicate NoNews(before: seq<Exchange>, said: seq<Exchange>) {
    (forall e :: e in before ==> e in said) && forall e :: e in said && e.reply.Got? ==> e in before
  }

  /** The state on the object is that of the instance as viewed or made, or else the one it had. */
  ghost predicate StateIsShown(said: seq<Exchange>, state: string, had: string) {
    && (forall cur :: Viewed(said, cur) ==> state == RunName(cur.run))
    && ((forall cur :: !Viewed(said, cur)) ==> state == had)
  }

  lemma SeenStaysSeen(before: seq<Exchange>, said: seq<Exchange>, cur: Instance, state: string, had: string)
    requires OnlyViewed(before, cur) && NoNews(before, said) && state == RunName(cur.run)
    ensures StateIsShown(said, state, had)
  {
    assert Viewed(said, cur);
  }

  class InstanceReconciler {
    const spec: Spec
    var w: World
    var floor: nat
    var externalIPs: seq<string>
    var state: string
    ghost var pc: Pc
    ghost var acts: seq<Action>
    ghost var talk: Talk

    /** What has happened so far is a run of the machine that ends here. */
    ghost predicate Valid()
      reads this
    {
      w.log != [] && Reaches(spec, acts, State(w, floor, pc), talk)
    }

    constructor (spec: Spec)
      ensures Valid() && this.spec == spec && pc.Idle?
    {
      this.spec, w, floor, pc, acts, talk := spec, Init().w, Init().floor, Init().pc, [], Talk(None, []);
      externalIPs, state := [], "";
      assert Traced(spec, [], [Init()], [Talk(None, [])]);
    }

    /** One call: anything may happen first, and the call itself may fail or take effect late. */
    method Send(call: Call) returns (reply: Reply)
      requires Valid() && !pc.Idle? && call == CallAt(spec, pc)
      modifies this`w, this`pc, this`acts, this`talk
      ensures Valid() && old(acts) < acts && pc == After(spec, old(pc), reply)
      ensures talk == old(talk).(said := old(talk).said + [Exchange(call, reply)])
      ensures CanReply(call, reply)
      ensures reply.Listed? ==> call.ListIps? && w.inst.Some? && reply.ips == w.inst.value.ips
    {
      var n: nat := *;
      while n > 0
        invariant Valid() && old(acts) <= acts && pc == old(pc) && talk == old(talk)
      {
        var event: Event := *;
        RunExtends(spec, acts, Env(event), State(w, floor, pc), talk);
        w, acts, n := Settle(w, event), acts + [Env(event)], n - 1;
      }
      var fault: Fault := *;
      RunExtends(spec, acts, Next(fault), State(w, floor, pc), talk);
      acts := acts + [Next(fault)];
      RepliesFit(spec, w, call, fault);
      var served := Serve(spec, w, call, fault);
      w, reply := served.0, served.1;
      pc := After(spec, pc, reply);
      talk := talk.(said := talk.said + [Exchange(call, reply)]);
    }

    method StopInstance(cur: Instance) returns (err: Outcome)
      requires Valid() && pc == (if cur.run.Running? then Halt(cur) else Idle(Progressing))
      modifies this`w, this`pc, this`acts, this`talk
      ensures Valid() && old(acts) <= acts && pc == Idle(err) && !err.Nil? && !err.Crashed?
      ensures NoNews(old(talk).said, talk.said)
    {
      err := Progressing;
      if cur.run.Running? {
        var reply := Send(Stop);
        if !reply.Ok? {
          err := Erred;
        }
      }
    }

    /** Builds a resize request field by field. */
    method InstanceUpdate(cur: Instance) returns (u: UpdateRequest)
      ensures u == UpdateFor(spec, cur)
      ensures Updated(cur, u) == cur.(ncpus := spec.ncpus, memory := spec.memory)
    {
      u := UpdateRequest(spec.ncpus, spec.memory, cur.jumbo, None, None, None);
      if cur.bootDiskId != "" {
        u := u.(bootDisk := Some(cur.bootDiskId));
      }
      if cur.autoRestart != "" {
        u := u.(autoRestart := Some(cur.autoRestart));
      }
      if cur.cpuPlatform != "" {
        u := u.(cpuPlatform := Some(cur.cpuPlatform));
      }
    }

    method RecordAddresses(ips: seq<ExternalIp>)
      modifies this`externalIPs
      ensures externalIPs == Addresses(ips)
    {
      externalIPs := [];
      for i := 0 to |ips|
        invariant externalIPs == Addresses(ips[..i])
      {
        assert ips[..i + 1][..i] == ips[..i];
        match ips[i] {
          case Ephemeral(ip) => externalIPs := externalIPs + [ip];
          case Floating(ip) => externalIPs := externalIPs + [ip];
          case Snat(_) =>
        }
      }
      assert ips[..|ips|] == ips;
    }

    /** Stops an instance of the wrong size, or resizes one that is stopped. */
    method Resize(cur: Instance) returns (err: Outcome)
      requires Valid() && pc == Converge(spec, cur) && (cur.ncpus != spec.ncpus || cur.memory != spec.memory)
      modifies this`w, this`pc, this`acts, this`talk
      ensures Valid() && old(acts) <= acts && pc == Idle(err) && !err.Nil? && !err.Crashed?
      ensures NoNews(old(talk).said, talk.said)
    {
      if !cur.run.Stopped? {
        err := StopInstance(cur);
        return;
      }
      var u := InstanceUpdate(cur);
      var reply := Send(Update(u));
      err := if reply.Ok? then Progressing else Erred;
    }

    /** The state recorded is what was seen; nil means the one wanted, and reachable addresses as just listed. */
    method HandleInstanceOperations() returns (err: Outcome)
      requires Valid() && pc == Look
      modifies this
      ensures Valid() && old(acts) <= acts && pc == Idle(err) && !err.Crashed?
      ensures err.Nil? ==> w.inst.Some? && externalIPs == Addresses(w.inst.value.ips)
      ensures err.Nil? ==> state == if spec.wantRunning then "running" else "stopped"
      ensures !err.Nil? ==> externalIPs == old(externalIPs)
      ensures talk == TalkOf(spec, acts) && Tells(spec, talk, err) && StateIsShown(talk.said, state, old(state))
    {
      NothingViewedYet();
      err := Operate();
      OutcomeIsTold();
    }

    /** The instance found or made, whose run state is recorded. */
    method ViewOrCreate() returns (cur: Option<Instance>)
      requires Valid() && pc == Look && NoneViewed(talk.said)
      modifies this`w, this`pc, this`acts, this`talk, this`state
      ensures Valid() && old(acts) <= acts && pc == if cur.Some? then Converge(spec, cur.value) else Idle(Erred)
      ensures match cur
              case Some(i) => OnlyViewed(talk.said, i) && state == RunName(i.run)
              case None => NoneViewed(talk.said) && state == old(state)
    {
      var reply := Send(View);
      if reply.NotFound? {
        reply := Send(Create);
      }
      cur := None;
      if reply.Got? {
        cur, state := Some(reply.inst), RunName(reply.inst.run);
      }
    }

    method Operate() returns (err: Outcome)
      requires Valid() && pc == Look && NoneViewed(talk.said)
      modifies this
      ensures Valid() && old(acts) <= acts && pc == Idle(err) && !err.Crashed?
      ensures err.Nil? ==> w.inst.Some? && externalIPs == Addresses(w.inst.value.ips)
      ensures err.Nil? ==> state == if spec.wantRunning then "running" else "stopped"
      ensures !err.Nil? ==> externalIPs == old(externalIPs)
      ensures StateIsShown(talk.said, state, old(state))
    {
      var cur := ViewOrCreate();
      if cur.None? {
        return Erred;
      }
      ghost var said := talk.said;
      err := BringTo(cur.value);
      SeenStaysSeen(said, talk.said, cur.value, state, old(state));
    }

    /** One step towards size and power state, or the addresses once both are as wanted. */
    method BringTo(cur: Instance) returns (err: Outcome)
      requires Valid() && pc == Converge(spec, cur)
      modifies this`w, this`pc, this`acts, this`talk, this`externalIPs
      ensures Valid() && old(acts) <= acts && pc == Idle(err) && !err.Crashed?
      ensures err.Nil? ==> w.inst.Some? && externalIPs == Addresses(w.inst.value.ips) && Matches(spec, cur)
      ensures !err.Nil? ==> externalIPs == old(externalIPs)
      ensures NoNews(old(talk).said, talk.said)
    {
      if cur.ncpus != spec.ncpus || cur.memory != spec.memory {
        err := Resize(cur);
        return;
      }
      if cur.run.Stopped? && spec.wantRunning {
        var reply := Send(Start);
        return if reply.Ok? then Progressing else Erred;
      }
      if cur.run.Running? && !spec.wantRunning {
        err := StopInstance(cur);
        return;
      }
      if cur.run.Failed? {
        return Erred;
      }
      if !cur.run.Running? && !cur.run.Stopped? {
        return Progressing;
      }
      var reply := Send(ListIps);
      if !reply.Listed? {
        return Erred;
      }
      RecordAddresses(reply.ips);
      err := Nil;
    }

    /** Nil exactly when only the finalizer is left to remove. */
    method DeleteInstance(ghost me: Copy) returns (err: Outcome)
      requires Valid() && pc == LookToDelete(me)
      modifies this`w, this`pc, this`acts, this`talk
      ensures Valid() && old(acts) <= acts && !err.Crashed? && pc == if err.Nil? then RemoveFinalizer(me) else Idle(err)
    {
      var reply := Send(View);
      match reply {
        case NotFound =>
        case Got(cur) =>
          if cur.run.Stopped? || cur.run.Failed? {
            reply := Send(Delete);
            if !reply.Ok? && !reply.NotFound? {
              return Erred;
            }
          } else {
            err := Progressing;
            if cur.run.Running? {
              reply := Send(Stop);
              if !reply.Ok? {
                err := Erred;
              }
            }
            return;
          }
        case _ => return Erred;
      }
      if spec.createsBootDisk {
        reply := Send(DeleteBootDisk);
        if !reply.Ok? && !reply.NotFound? {
          return Erred;
        }
      }
      err := Nil;
    }

    /** One whole reconcile of the version the cache serves. */
    method Reconcile(version: nat) returns (err: Outcome)
      requires Valid() && pc.Idle? && floor <= version < |w.log|
      modifies this
      ensures Valid() && old(acts) < acts && pc == Idle(err)
      ensures talk == TalkOf(spec, acts) && Tells(spec, talk, err)
    {
      err := ReconcileVersion(version);
      OutcomeIsTold();
    }

    method ReconcileVersion(version: nat) returns (err: Outcome)
      requires Valid() && pc.Idle? && floor <= version < |w.log|
      modifies this
      ensures Valid() && old(acts) < acts && pc == Idle(err) && !err.Crashed?
    {
      var me := Copy(version, w.log[version]);
      RunExtends(spec, acts, Wake(version), State(w, floor, pc), talk);
      floor := version;
      pc, acts, talk := Begin(me), acts + [Wake(version)], Talk(Some(me.obj), []);
      if me.obj.gone || (me.obj.deleting && !me.obj.finalizer) {
        return Ignored;
      }
      if me.obj.deleting {
        err := DeleteInstance(me);
        if err.Nil? {
          var reply := Send(UpdateObject(version, false));
          err := if reply.Ok? || reply.NotFound? then Deleted else Erred;
        }
        return;
      }
      if !me.obj.finalizer {
        var reply := Send(UpdateObject(version, true));
        if !reply.Ok? {
          return Erred;
        }
      }
      err := HandleInstanceOperations();
    }

    lemma NothingViewedYet()
      requires Valid() && pc == Look
      ensures NoneViewed(talk.said)
    {
      ReachesByRun(spec, acts, State(w, floor, pc), talk);
      RunTells(spec, acts);
    }

    /** What has just been returned is told by the conversation that led to it. */
    lemma OutcomeIsTold()
      requires Valid() && pc.Idle? && !pc.outcome.Crashed?
      ensures talk == TalkOf(spec, acts) && Tells(spec, talk, pc.outcome)
    {
      ReachesByRun(spec, acts, State(w, floor, pc), talk);
      OutcomesAreTold(spec, acts);
    }

    /** What the runs' theorems say of the controller at any moment. */
    lemma HoldsInEveryRun()
      requires Valid()
      ensures !Last(w).finalizer || Last(w).gone ==> Nothing(w)
    {
      ReachesByRun(spec, acts, State(w, floor, pc), talk);
      NothingOutlivesTheObject(spec, acts);
    }
  }

  /** The states a run goes through, and the conversations. */
  ghost predicate Traced(spec: Spec, acts: seq<Action>, states: seq<State>, talks: seq<Talk>) {
    && |states| == |talks| == |acts| + 1 && states[0] == Init() && talks[0] == Talk(None, [])
    && (forall s :: s in states ==> s.w.log != [])
    && forall i {:trigger Step(spec, states[i], acts[i])} :: 0 <= i < |acts| ==>
        Step(spec, states[i], acts[i]) == states[i + 1] && TalkAfter(spec, states[i], talks[i], acts[i]) == talks[i + 1]
  }

  ghost predicate Reaches(spec: Spec, acts: seq<Action>, s: State, t: Talk) {
    exists states: seq<State>, talks: seq<Talk> ::
      Traced(spec, acts, states, talks) && states[|acts|] == s && talks[|acts|] == t
  }

  lemma RunExtends(spec: Spec, acts: seq<Action>, a: Action, s: State, t: Talk)
    requires Reaches(spec, acts, s, t) && s.w.log != []
    ensures Reaches(spec, acts + [a], Step(spec, s, a), TalkAfter(spec, s, t, a))
  {
    var states: seq<State>, talks: seq<Talk> :|
      Traced(spec, acts, states, talks) && states[|acts|] == s && talks[|acts|] == t;
    var acts', states' := acts + [a], states + [Step(spec, s, a)];
    var talks' := talks + [TalkAfter(spec, s, t, a)];
    forall i | 0 <= i < |acts'|
      ensures states'[i].w.log != [] && Step(spec, states'[i], acts'[i]) == states'[i + 1]
      ensures TalkAfter(spec, states'[i], talks'[i], acts'[i]) == talks'[i + 1]
    {
      if i < |acts| {
        assert Step(spec, states[i], acts[i]) == states[i + 1];
      }
    }
    assert Traced(spec, acts', states', talks');
  }

  lemma TracedBefore(spec: Spec, acts: seq<Action>, states: seq<State>, talks: seq<Talk>)
    requires Traced(spec, acts, states, talks) && acts != []
    ensures var k := |acts| - 1;
            && Traced(spec, acts[..k], states[..k + 1], talks[..k + 1]) && states[k].w.log != []
            && Step(spec, states[k], acts[k]) == states[k + 1]
            && TalkAfter(spec, states[k], talks[k], acts[k]) == talks[k + 1]
  {
    var k := |acts| - 1;
    assert states[k].w.log != [] && Step(spec, states[k], acts[k]) == states[k + 1];
    var acts', states', talks' := acts[..k], states[..k + 1], talks[..k + 1];
    forall i | 0 <= i < k
      ensures states'[i].w.log != [] && Step(spec, states'[i], acts'[i]) == states'[i + 1]
      ensures TalkAfter(spec, states'[i], talks'[i], acts'[i]) == talks'[i + 1]
    {
      assert Step(spec, states[i], acts[i]) == states[i + 1];
    }
    assert Traced(spec, acts', states', talks');
  }

  lemma {:induction false} ReachesByRun(spec: Spec, acts: seq<Action>, s: State, t: Talk)
    requires Reaches(spec, acts, s, t)
    ensures Exec(spec, Init(), acts) == s && TalkOf(spec, acts) == t
    decreases |acts|
  {
    var states: seq<State>, talks: seq<Talk> :|
      Traced(spec, acts, states, talks) && states[|acts|] == s && talks[|acts|] == t;
    if acts != [] {
      var k := |acts| - 1;
      TracedBefore(spec, acts, states, talks);
      ReachesByRun(spec, acts[..k], states[k], talks[k]);
      assert Exec(spec, Init(), acts) == Step(spec, Exec(spec, Init(), acts[..k]), acts[k]);
    }
  }
}
