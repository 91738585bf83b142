/**
 The instance controller as a state machine: create, stop, resize and start an Oxide instance until
 it matches the spec, and delete it with the boot disk it was created with. As for images, every
 action is labelled, so statements about all label sequences are about all runs.
 */
module InstanceMachine {
  import opened Common

  /** Run states as Oxide reports them; an instance being created knows whether to start. */
  datatype RunState =
    | Creating(start: bool) | Starting | Running | Stopping | Stopped | Rebooting | Migrating | Repairing | Failed
        | Destroyed

  datatype ExternalIp = Ephemeral(ip: string) | Floating(ip: string) | Snat(ip: string)

  /** Unset strings are empty, as in the API's types. */
  datatype Instance = Instance(ncpus: int, memory: int, run: RunState, bootDiskId: string, autoRestart: string,
                               cpuPlatform: string, jumbo: bool, ips: seq<ExternalIp>)

  /**
   createsBootDisk: spec.bootDisk is set and names no existing disk. grantedIps: the IPs Oxide gives a new
   instance.
   */
  datatype Spec = Spec(ncpus: int, memory: int, wantRunning: bool, createsBootDisk: bool, grantedIps: seq<ExternalIp>)

  /** One version of the Kubernetes object, as far as deletion goes. */
  datatype Object = Object(finalizer: bool, deleting: bool, gone: bool)

  /** log holds every version of the object, the newest last. */
  datatype World = World(inst: Option<Instance>, bootDisk: bool, log: seq<Object>)

  function Last(w: World): Object
    requires w.log != []
  {
    w.log[|w.log| - 1]
  }

  function Store(w: World, o: Object): World {
    w.(log := w.log + [o])
  }

  // --- What happens without the controller ---

  /** The last three are interference from outside, or failure. */
  datatype Event = Starts | Boots | Halts | UserDeletes | Changes(run: RunState) | Readdresses(ips: seq<ExternalIp>)

  function SettleRun(run: RunState, event: Event): RunState {
    match (event, run)
    case (Starts, Creating(true)) => Starting
    case (Halts, Creating(false)) => Stopped
    case (Halts, Stopping) => Stopped
    case (Boots, Starting) => Running
    case (Boots, Rebooting) => Running
    case (Boots, Migrating) => Running
    case (Boots, Repairing) => Running
    case (Changes(to), _) => to
    case _ => run
  }

  function Settle(w: World, event: Event): World
    requires w.log != []
  {
    if event.UserDeletes? then
      var o := Last(w);
      if o.deleting || o.gone then w else Store(w, o.(deleting := true, gone := !o.finalizer))
    else if w.inst.None? then w
    else if event.Readdresses? then w.(inst := Some(w.inst.value.(ips := event.ips)))
    else w.(inst := Some(w.inst.value.(run := SettleRun(w.inst.value.run, event))))
  }

  // --- Calls ---

  /** InstanceUpdate replaces every field; an absent option clears it. */
  datatype UpdateRequest = UpdateRequest(ncpus: int, memory: int, jumbo: bool,
                                         bootDisk: Option<string>, autoRestart: Option<string>,
                                         cpuPlatform: Option<string>)

  datatype Call =
    | View | Create | Stop | Update(request: UpdateRequest) | Start | ListIps | Delete | DeleteBootDisk
    | UpdateObject(version: nat, finalizer: bool) // Optimistic: only the newest version can be updated.

  datatype Reply = Ok | NotFound | Error | Got(inst: Instance) | Listed(ips: seq<ExternalIp>)

  datatype Fault = Clean | Lost | Late

  function OrEmpty(value: Option<string>): string {
    if value.Some? then value.value else ""
  }

  function Updated(i: Instance, u: UpdateRequest): Instance {
    i.(ncpus := u.ncpus, memory := u.memory, jumbo := u.jumbo, bootDiskId := OrEmpty(u.bootDisk),
       autoRestart := OrEmpty(u.autoRestart), cpuPlatform := OrEmpty(u.cpuPlatform))
  }

  function AnswerInstance(w: World, i: Instance, call: Call): (World, Reply) {
    match call
    case Stop => if i.run.Running? then (w.(inst := Some(i.(run := Stopping))), Ok) else (w, Error)
    case Start => if i.run.Stopped? then (w.(inst := Some(i.(run := Starting))), Ok) else (w, Error)
    case Update(u) => if i.run.Stopped? then (w.(inst := Some(Updated(i, u))), Ok) else (w, Error)
    case Delete => if i.run.Stopped? || i.run.Failed? then (w.(inst := None), Ok) else (w, Error)
    case DeleteBootDisk => (w, if w.bootDisk then Error else NotFound) // Still attached.
    case Create => (w, Error)
    case View => (w, Got(i))
    case ListIps => (w, Listed(i.ips))
    case _ => (w, Ok)
  }

  function Answer(spec: Spec, w: World, call: Call): (World, Reply)
    requires w.log != []
  {
    if call.UpdateObject? then
      var o := Last(w);
      if o.gone then (w, NotFound)
      else if call.version != |w.log| - 1 then (w, Error)
      else (Store(w, o.(finalizer := call.finalizer, gone := o.deleting && !call.finalizer)), Ok)
    else if w.inst.Some? then AnswerInstance(w, w.inst.value, call)
    else match call
         case Create =>
           if w.bootDisk && spec.createsBootDisk then (w, Error) else
             var i := Instance(spec.ncpus, spec.memory, Creating(spec.wantRunning), "", "", "", false, spec.grantedIps);
             (w.(inst := Some(i), bootDisk := w.bootDisk || spec.createsBootDisk), Got(i))
         case DeleteBootDisk => if w.bootDisk then (w.(bootDisk := false), Ok) else (w, NotFound)
         case _ => (w, NotFound)
  }

  function Serve(spec: Spec, w: World, call: Call, fault: Fault): (World, Reply)
    requires w.log != []
  {
    match fault
    case Clean => Answer(spec, w, call)
    case Lost => (w, Error)
    case Late => (Answer(spec, w, call).0, Error)
  }

  // --- The controller ---

  datatype Outcome = Ignored | Crashed | Nil | Progressing | Erred | Deleted

  /** The version of the object a reconcile works on. */
  datatype Copy = Copy(version: nat, obj: Object)

  /** The next call, with the object as read and the instance as viewed. */
  datatype Pc =
    | Idle(outcome: Outcome)
    | AddFinalizer(me: Copy)
    | Look | Make
    | Halt(cur: Instance) | Resize(cur: Instance) | Launch(cur: Instance) | ReadIps
    | LookToDelete(me: Copy) | HaltToDelete | Remove(me: Copy) | RemoveBootDisk(me: Copy) | RemoveFinalizer(me: Copy)

  /** floor is the newest version the cache has served: reads never go back. */
  datatype State = State(w: World, floor: nat, pc: Pc)

  function Begin(me: Copy): Pc {
    var o := me.obj;
    if o.gone then Idle(Ignored)
    else if o.deleting then if o.finalizer then LookToDelete(me) else Idle(Ignored)
    else if o.finalizer then Look
    else AddFinalizer(me)
  }

  predicate RightSize(spec: Spec, i: Instance) {
    i.ncpus == spec.ncpus && i.memory == spec.memory
  }

  /** What handleInstanceOperations does with the instance it views or creates. */
  function Converge(spec: Spec, cur: Instance): Pc {
    if !RightSize(spec, cur) then
      if cur.run.Stopped? then Resize(cur) else if cur.run.Running? then Halt(cur) else Idle(Progressing)
    else if cur.run.Stopped? && spec.wantRunning then Launch(cur)
    else if cur.run.Running? && !spec.wantRunning then Halt(cur)
    else if cur.run.Failed? then Idle(Erred)
    else if !cur.run.Running? && !cur.run.Stopped? then Idle(Progressing)
    else ReadIps
  }

  /** instanceUpdate: the new size, and everything else as it is. */
  function UpdateFor(spec: Spec, cur: Instance): UpdateRequest {
    UpdateRequest(spec.ncpus, spec.memory, cur.jumbo, SomeUnlessEmpty(cur.bootDiskId),
                  SomeUnlessEmpty(cur.autoRestart), SomeUnlessEmpty(cur.cpuPlatform))
  }

  function SomeUnlessEmpty(value: string): Option<string> {
    if value == "" then None else Some(value)
  }

  function CallAt(spec: Spec, pc: Pc): Call {
    match pc
    case Idle(_) => View
    case AddFinalizer(me) => UpdateObject(me.version, true)
    case Look => View
    case Make => Create
    case Halt(_) => Stop
    case Resize(cur) => Update(UpdateFor(spec, cur))
    case Launch(_) => Start
    case ReadIps => ListIps
    case LookToDelete(_) => View
    case HaltToDelete => Stop
    case Remove(_) => Delete
    case RemoveBootDisk(_) => DeleteBootDisk
    case RemoveFinalizer(me) => UpdateObject(me.version, false)
  }

  function AfterInstanceGone(spec: Spec, me: Copy): Pc {
    if spec.createsBootDisk then RemoveBootDisk(me) else RemoveFinalizer(me)
  }

  function AfterLookToDelete(spec: Spec, me: Copy, reply: Reply): Pc {
    match reply
    case NotFound => AfterInstanceGone(spec, me)
    case Got(cur) =>
      if cur.run.Stopped? || cur.run.Failed? then Remove(me)
      else if cur.run.Running? then HaltToDelete
      else Idle(Progressing)
    case _ => Idle(Erred)
  }

  function After(spec: Spec, pc: Pc, reply: Reply): Pc {
    match pc
    case Idle(_) => pc
    case AddFinalizer(_) => if reply.Ok? then Look else Idle(Erred)
    case Look => if reply.Got? then Converge(spec, reply.inst) else if reply.NotFound? then Make else Idle(Erred)
    case Make => if reply.Got? then Converge(spec, reply.inst) else Idle(Erred)
    case ReadIps => Idle(if reply.Listed? then Nil else Erred)
    case LookToDelete(me) => AfterLookToDelete(spec, me, reply)
    case Remove(me) => if reply.Ok? || reply.NotFound? then AfterInstanceGone(spec, me) else Idle(Erred)
    case RemoveBootDisk(me) => if reply.Ok? || reply.NotFound? then RemoveFinalizer(me) else Idle(Erred)
    case RemoveFinalizer(_) => Idle(if reply.Ok? || reply.NotFound? then Deleted else Erred)
    case _ => Idle(if reply.Ok? then Progressing else Erred) // Stop, resize and start.
  }

  datatype Action = Env(event: Event) | Wake(version: nat) | Next(fault: Fault) | Crash

  function Step(spec: Spec, s: State, a: Action): (s': State)
    requires s.w.log != []
    ensures s'.w.log != []
  {
    match a
    case Env(event) => s.(w := Settle(s.w, event))
    case Crash => s.(pc := Idle(Crashed))
    case Wake(version) =>
      if s.pc.Idle? && s.floor <= version < |s.w.log|
      then s.(floor := version, pc := Begin(Copy(version, s.w.log[version]))) else s
    case Next(fault) =>
      if s.pc.Idle? then s else
        var (w, reply) := Serve(spec, s.w, CallAt(spec, s.pc), fault);
        s.(w := w, pc := After(spec, s.pc, reply))
  }

  function Exec(spec: Spec, s: State, acts: seq<Action>): (s': State)
    requires s.w.log != []
    ensures s'.w.log != []
    decreases |acts|
  {
    if acts == [] then s else Step(spec, Exec(spec, s, acts[..|acts| - 1]), acts[|acts| - 1])
  }

  function Init(): State {
    State(World(None, false, [Object(false, false, false)]), 0, Idle(Ignored))
  }

  lemma ExecOne(spec: Spec, s: State, acts: seq<Action>, a: Action)
    requires s.w.log != []
    ensures Exec(spec, s, acts + [a]) == Step(spec, Exec(spec, s, acts), a)
  {
    assert (acts + [a])[..|acts|] == acts;
  }

  lemma {:induction false} ExecAppend(spec: Spec, s: State, a: seq<Action>, b: seq<Action>)
    requires s.w.log != []
    ensures Exec(spec, s, a + b) == Exec(spec, Exec(spec, s, a), b)
    decreases |b|
  {
    if b == [] {
      assert a + b == a;
    } else {
      var b0 := b[..|b| - 1];
      assert (a + b)[..|a + b| - 1] == a + b0;
      ExecAppend(spec, s, a, b0);
    }
  }

  lemma ExecFirst(spec: Spec, s: State, a: Action, rest: seq<Action>)
    requires s.w.log != []
    ensures Exec(spec, s, [a] + rest) == Exec(spec, Step(spec, s, a), rest)
  {
    ExecAppend(spec, s, [a], rest);
    assert [a][..0] == [];
  }

  // --- Every reconcile ends ---

  function Phase(pc: Pc): nat {
    match pc
    case Idle(_) => 0
    case AddFinalizer(_) => 4
    case LookToDelete(_) => 4
    case Look => 3
    case Remove(_) => 3
    case Make => 2
    case RemoveBootDisk(_) => 2
    case _ => 1
  }

  /** Whatever the replies, each call brings a reconcile closer to its return: it makes at most four. */
  lemma CallsDecrease(spec: Spec, pc: Pc, reply: Reply)
    requires !pc.Idle?
    ensures Phase(After(spec, pc, reply)) < Phase(pc) <= 4
  {
  }
}
