/**
 * BoostVM and BoostEnvironment: the event loops of the virtual machines, their lock, queue and count
 * of asynchronous operations, as atomic steps of concurrent threads.
 */
module VmProtocol {
  import opened Wrappers

  type Id = nat

  datatype Thread = VmThread(id: Id) | IoThread

  /** What vm->run() asks for. */
  datatype Invoke = Now | Later | Never

  /** An element of a VM's stream: a message and its sender's number for it, or the end of a VM. */
  datatype Item = Message(from: Id, number: nat) | Ended(dead: Id)

  /** The callbacks queued for a VM. */
  datatype Callback = Complete(op: nat) | Receive(item: Item) | AddMonitor(monitor: Id) | Terminate

  /** Where a thread is in BoostEnvironment::postVMEvent: wanting or holding the two locks, or owing the
      notification. */
  datatype Stage = WantEnv | WantVm | InVm | Owing

  datatype Post = Post(to: Id, what: Callback, stage: Stage)

  /** Where the thread of a VM is. */
  datatype Phase =
    | Running
    | Sending(post: Post)
    | Returned(invoke: Invoke)
    | Locked(invoke: Invoke)
    | Waiting
    | Woken
    | Left
    | Telling(rest: seq<Id>)
    | TellingOne(rest: seq<Id>, post: Post)
    | Gone

  /**
   * A VM. Of the ghost part, `single` and `double` are the operations started and not released, by
   * their number of nodes, `flying` those the I/O has not completed, `awaited` tells that the stream
   * was asked for and not closed since, `alarm` that the wait was entered with an alarm set, and
   * `posted` the messages pushed on the queue so far.
   */
  datatype Vm = Vm(phase: Phase, lock: Option<Thread>, queue: seq<Callback>, count: int,
                   asked: bool, portClosed: bool, stream: seq<Item>, terminating: bool, monitors: seq<Id>, sent: nat,
                   single: set<nat>, double: set<nat>, flying: set<nat>, awaited: bool, alarm: bool, posted: seq<Item>)

  datatype Io = Idle | Completing(op: nat, post: Post)

  datatype State = State(vms: map<Id, Vm>, alive: set<Id>, env: Option<Thread>, io: Io, nextId: Id, nextOp: nat)

  datatype Action =
    | StartOp(v: Id, two: bool) | GetStream(v: Id) | CloseStream(v: Id)
    | Create(v: Id) | Send(v: Id, to: Id) | Kill(v: Id, to: Id) | Monitor(v: Id, to: Id)
    | Return(v: Id, invoke: Invoke) | Crash(v: Id)
    | IoDone(v: Id, op: nat)
    | PostStep(t: Thread)
    | LockSelf(v: Id) | Decide(v: Id) | Wake(v: Id) | Relock(v: Id)
    | ClosePort(v: Id) | TellNext(v: Id) | Remove(v: Id)

  function NewVm(monitors: seq<Id>): Vm {
    Vm(Running, None, [], 0, false, false, [], false, monitors, 0, {}, {}, {}, false, false, [])
  }

  function Start(): State {
    State(map[1 := NewVm([])], {1}, None, Idle, 2, 0)
  }

  /** The post a thread is making, if any. */
  function PostOf(s: State, t: Thread): Option<Post> {
    match t
    case IoThread => if s.io.Completing? then Some(s.io.post) else None
    case VmThread(v) =>
      if v !in s.vms then None
      else if s.vms[v].phase.Sending? || s.vms[v].phase.TellingOne? then Some(s.vms[v].phase.post)
      else None
  }

  function WithVm(s: State, v: Id, vm: Vm): State {
    s.(vms := s.vms[v := vm])
  }

  function WithPhase(s: State, v: Id, p: Phase): State
    requires v in s.vms
  {
    WithVm(s, v, s.vms[v].(phase := p))
  }

  /** The thread's post gets on, or is over. */
  function WithPost(s: State, t: Thread, p: Option<Post>): State
    requires PostOf(s, t).Some?
  {
    match t
    case IoThread => s.(io := if p.Some? then Completing(s.io.op, p.value) else Idle)
    case VmThread(v) =>
      var phase := s.vms[v].phase;
      WithPhase(s, v,
                if phase.Sending? then (if p.Some? then Sending(p.value) else Running)
                else if p.Some? then TellingOne(phase.rest, p.value) else Telling(phase.rest))
  }

  /** postVMEvent, step by step; a VM that is no more gets no event. */
  predicate CanPost(s: State, t: Thread) {
    && PostOf(s, t).Some?
    && var p := PostOf(s, t).value;
    match p.stage
    case WantEnv => s.env.None?
    case WantVm => p.to in s.vms && s.vms[p.to].lock.None?
    case _ => p.to in s.vms
  }

  /** The target of a post, after a step of it. */
  function Target(vm: Vm, t: Thread, p: Post): Vm {
    match p.stage
    case WantEnv => vm
    case WantVm => vm.(lock := Some(t))
    case InVm =>
      vm.(lock := None, queue := vm.queue + [p.what],
          posted := if p.what.Receive? && p.what.item.Message? then vm.posted + [p.what.item] else vm.posted)
    case Owing => if vm.phase.Waiting? then vm.(phase := Woken) else vm
  }

  function NextStage(stage: Stage): Stage {
    match stage
    case WantEnv => WantVm
    case WantVm => InVm
    case _ => Owing
  }

  function PostOn(s: State, t: Thread): State
    requires CanPost(s, t)
  {
    var p := PostOf(s, t).value;
    if p.stage == WantEnv && p.to !in s.alive then Refused(WithPost(s, t, None), t, p)
    else
      var s1 := if p.to in s.vms then WithVm(s, p.to, Target(s.vms[p.to], t, p)) else s;
      if p.stage == Owing then WithPost(s1.(env := None), t, None)
      else WithPost(s1.(env := Some(t)), t, Some(p.(stage := NextStage(p.stage))))
  }

  /** Asked to monitor a VM that is no more, a VM is told at once. */
  function Refused(s: State, t: Thread, p: Post): State {
    if t.VmThread? && t.id in s.vms && p.what.AddMonitor?
    then WithVm(s, t.id, Received(s.vms[t.id], Ended(p.to))) else s
  }

  /** receiveOnVMStream. */
  function Received(vm: Vm, item: Item): Vm {
    if vm.portClosed then vm else vm.(stream := vm.stream + [item])
  }

  /** Running a callback. */
  function Handled(vm: Vm, c: Callback): Vm {
    match c
    case Complete(op) =>
      vm.(count := vm.count - (if op in vm.double then 2 else 1), single := vm.single - {op},
          double := vm.double - {op})
    case Receive(item) => Received(vm, item)
    case AddMonitor(m) => vm.(monitors := vm.monitors + [m])
    case Terminate => vm.(terminating := true)
  }

  /** run(), with its lock held: the test for the end, one callback, the wait, or the next round. */
  function Decided(vm: Vm): Vm
    requires vm.phase.Locked?
  {
    if vm.queue == [] then
      var free := vm.(lock := None);
      if vm.phase.invoke == Never && vm.count == 0 then free.(phase := Left)
      else if vm.phase.invoke != Now then free.(phase := Waiting, alarm := vm.phase.invoke == Later)
      else free.(phase := Running)
    else
      var done := Handled(vm, vm.queue[0]).(queue := vm.queue[1..]);
      if done.terminating then done.(phase := Left, lock := None) else done.(phase := Locked(Now))
  }

  /** An exception that nothing catches, from vm->run() or from a callback: the lock goes, and the callback
      stays queued. */
  function Crashed(vm: Vm): Vm {
    if vm.phase.Locked? then vm.(phase := Left, lock := None) else vm.(phase := Left)
  }

  predicate Is(s: State, v: Id, p: Phase -> bool) {
    v in s.vms && p(s.vms[v].phase)
  }

  predicate Enabled(s: State, a: Action) {
    match a
    case StartOp(v, _) => Is(s, v, (p: Phase) => p.Running?)
    case GetStream(v) => Is(s, v, (p: Phase) => p.Running?)
    case CloseStream(v) => Is(s, v, (p: Phase) => p.Running?)
    case Create(v) => Is(s, v, (p: Phase) => p.Running?) && s.env.None?
    case Send(v, _) => Is(s, v, (p: Phase) => p.Running?) && s.env.None?
    case Kill(v, _) => Is(s, v, (p: Phase) => p.Running?)
    case Monitor(v, to) => Is(s, v, (p: Phase) => p.Running?) && to != v
    case Return(v, _) => Is(s, v, (p: Phase) => p.Running?)
    case Crash(v) => Is(s, v, (p: Phase) => p.Running? || p.Locked?) &&
      (s.vms[v].phase.Locked? ==> s.vms[v].queue != [])
    case IoDone(v, op) => s.io.Idle? && v in s.vms && op in s.vms[v].flying
    case PostStep(t) => CanPost(s, t)
    case LockSelf(v) => Is(s, v, (p: Phase) => p.Returned?) && s.vms[v].lock.None?
    case Decide(v) => Is(s, v, (p: Phase) => p.Locked?)
    case Wake(v) => Is(s, v, (p: Phase) => p.Waiting?)
    case Relock(v) => Is(s, v, (p: Phase) => p.Woken?) && s.vms[v].lock.None?
    case ClosePort(v) => Is(s, v, (p: Phase) => p.Left?)
    case TellNext(v) => Is(s, v, (p: Phase) => p.Telling? && p.rest != [])
    case Remove(v) => Is(s, v, (p: Phase) => p.Telling? && p.rest == []) && s.env.None?
  }

  /** The VM that takes a step, after a step that is not part of a post. */
  function Own(s: State, a: Action): Vm
    requires Enabled(s, a) && !a.PostStep?
  {
    var vm := s.vms[a.v];
    match a
    case StartOp(_, two) =>
      var flying := vm.flying + {s.nextOp};
      if two then vm.(count := vm.count + 2, double := vm.double + {s.nextOp}, flying := flying)
      else vm.(count := vm.count + 1, single := vm.single + {s.nextOp}, flying := flying)
    case GetStream(_) => if vm.asked then vm else vm.(count := vm.count + 1, asked := true, awaited := true)
    case CloseStream(_) =>
      if vm.portClosed then vm
      else if vm.asked then vm.(count := vm.count - 1, awaited := false, portClosed := true)
      else vm.(portClosed := true)
    case Create(_) => vm
    case Send(v, to) =>
      if to !in s.alive || to !in s.vms || s.vms[to].portClosed then vm
      else vm.(sent := vm.sent + 1, phase := Sending(Post(to, Receive(Message(v, vm.sent)), WantEnv)))
    case Kill(_, to) => vm.(phase := Sending(Post(to, Terminate, WantEnv)))
    case Monitor(v, to) => vm.(phase := Sending(Post(to, AddMonitor(v), WantEnv)))
    case Return(_, invoke) => vm.(phase := Returned(invoke))
    case Crash(_) => Crashed(vm)
    case IoDone(_, op) => vm.(flying := vm.flying - {op})
    case LockSelf(v) => vm.(lock := Some(VmThread(v)), phase := Locked(vm.phase.invoke))
    case Decide(_) => Decided(vm)
    case Wake(_) => vm.(phase := Woken)
    case Relock(_) => vm.(phase := Running)
    case ClosePort(_) => vm.(portClosed := true, phase := Telling(vm.monitors))
    case TellNext(v) =>
      vm.(phase := TellingOne(vm.phase.rest[1..], Post(vm.phase.rest[0], Receive(Ended(v)), WantEnv)))
    case Remove(_) => vm.(phase := Gone)
  }

  function Apply(s: State, a: Action): State
    requires Enabled(s, a)
  {
    if a.PostStep? then PostOn(s, a.t)
    else
      var s1 := WithVm(s, a.v, Own(s, a));
      match a
      case StartOp(_, _) => s1.(nextOp := s.nextOp + 1)
      case Create(v) => WithVm(s1, s.nextId, NewVm([v])).(alive := s.alive + {s.nextId}, nextId := s.nextId + 1)
      case IoDone(v, op) => s1.(io := Completing(op, Post(v, Complete(op), WantEnv)))
      case Remove(v) => s1.(alive := s.alive - {v})
      case _ => s1
  }

  // ------------------------------------------------------------------- the invariant

  /** The environment lock is held exactly by the thread that is past its first stage of a post. */
  ghost predicate EnvLock(s: State) {
    && (forall t | PostOf(s, t).Some? && PostOf(s, t).value.stage != WantEnv :: s.env == Some(t))
    && (s.env.Some? ==> PostOf(s, s.env.value).Some? && PostOf(s, s.env.value).value.stage != WantEnv)
  }

  ghost predicate PostsAt(s: State, t: Thread, v: Id, stage: Stage) {
    PostOf(s, t).Some? && PostOf(s, t).value.to == v && PostOf(s, t).value.stage == stage
  }

  ghost predicate LockOk(s: State, v: Id)
    requires v in s.vms
  {
    var vm := s.vms[v];
    && (vm.phase.Locked? ==> vm.lock == Some(VmThread(v)))
    && (vm.lock.Some? ==> (vm.phase.Locked? && vm.lock == Some(VmThread(v))) || PostsAt(s, vm.lock.value, v, InVm))
  }

  ghost predicate HoldsVm(s: State, t: Thread) {
    PostOf(s, t).Some? && PostOf(s, t).value.stage == InVm ==>
      PostOf(s, t).value.to in s.vms && s.vms[PostOf(s, t).value.to].lock == Some(t)
  }

  /** A VM's lock is held by its own thread in the loop, or by a thread that pushes an event on its queue. */
  ghost predicate VmLock(s: State) {
    (forall v <- s.vms :: LockOk(s, v)) && (forall t :: HoldsVm(s, t))
  }

  /** The VMs that the environment finds are those whose thread has not ended, and none goes while it gets an event. */
  ghost predicate Membership(s: State) {
    && (forall v :: v in s.alive <==> v in s.vms && s.vms[v].phase != Gone)
    && (forall t | PostOf(s, t).Some? && PostOf(s, t).value.stage != WantEnv :: PostOf(s, t).value.to in s.alive)
    && (forall v <- s.vms :: v < s.nextId)
  }

  /** The thread that takes a step. */
  function Actor(a: Action): Thread {
    match a
    case PostStep(t) => t
    case IoDone(_, _) => IoThread
    case _ => VmThread(a.v)
  }

  lemma OthersPost(s: State, a: Action, t: Thread)
    requires Enabled(s, a) && t != Actor(a) && s.nextId !in s.vms
    ensures PostOf(Apply(s, a), t) == PostOf(s, t)
  {
    if a.PostStep? {
      OthersPostOn(s, a.t, t);
    }
  }

  lemma OthersPostOn(s: State, t: Thread, t': Thread)
    requires CanPost(s, t) && t' != t
    ensures PostOf(PostOn(s, t), t') == PostOf(s, t')
  {
    var p := PostOf(s, t).value;
    match p.stage
    case WantEnv =>
    case WantVm =>
    case InVm =>
    case Owing =>
  }

  function PhaseAfter(phase: Phase, p: Option<Post>): Phase {
    if phase.Sending? then (if p.Some? then Sending(p.value) else Running)
    else if phase.TellingOne? then (if p.Some? then TellingOne(phase.rest, p.value) else Telling(phase.rest))
    else phase
  }

  predicate IsRefused(s: State, p: Post) {
    p.stage == WantEnv && p.to !in s.alive
  }

  function NextPost(s: State, p: Post): Option<Post> {
    if IsRefused(s, p) || p.stage == Owing then None else Some(p.(stage := NextStage(p.stage)))
  }

  /** One VM after a step of a post: as its target, and as its thread. */
  function AfterPost(s: State, t: Thread, p: Post, v: Id): Vm
    requires v in s.vms
  {
    var vm := s.vms[v];
    var vm1 :=
      if IsRefused(s, p) then (if t == VmThread(v) && p.what.AddMonitor? then Received(vm, Ended(p.to)) else vm)
      else if v == p.to then Target(vm, t, p) else vm;
    if t == VmThread(v) then vm1.(phase := PhaseAfter(vm.phase, NextPost(s, p))) else vm1
  }

  lemma VmAfterPost(s: State, t: Thread, v: Id)
    requires CanPost(s, t) && v in s.vms
    ensures v in PostOn(s, t).vms && PostOn(s, t).vms[v] == AfterPost(s, t, PostOf(s, t).value, v)
  {
    hide PostOn, AfterPost, PostOf;
    if IsRefused(s, PostOf(s, t).value) {
      RefusedVm(s, t, v);
    } else {
      GrantedVm(s, t, v);
    }
  }

  lemma GrantedVm(s: State, t: Thread, v: Id)
    requires CanPost(s, t) && v in s.vms && !IsRefused(s, PostOf(s, t).value)
    ensures v in PostOn(s, t).vms && PostOn(s, t).vms[v] == AfterPost(s, t, PostOf(s, t).value, v)
  {
    var p := PostOf(s, t).value;
    match p.stage
    case WantEnv =>
    case WantVm =>
    case InVm =>
    case Owing =>
  }

  lemma RefusedVm(s: State, t: Thread, v: Id)
    requires CanPost(s, t) && v in s.vms && IsRefused(s, PostOf(s, t).value)
    ensures v in PostOn(s, t).vms && PostOn(s, t).vms[v] == AfterPost(s, t, PostOf(s, t).value, v)
  {
  }

  lemma PostVms(s: State, t: Thread)
    requires CanPost(s, t)
    ensures var s' := PostOn(s, t);
      && s'.vms.Keys == s.vms.Keys && s'.alive == s.alive && s'.nextId == s.nextId && s'.nextOp == s.nextOp
      && forall v <- s.vms :: s'.vms[v].phase == Gone <==> s.vms[v].phase == Gone
  {
    forall v | v in s.vms ensures PostOn(s, t).vms[v].phase == Gone <==> s.vms[v].phase == Gone {
      VmAfterPost(s, t, v);
    }
  }

  /** What a step other than a post's own does to its thread's post, and to the environment lock. */
  lemma StartsPost(s: State, a: Action)
    requires Enabled(s, a) && !a.PostStep?
    ensures PostOf(s, Actor(a)).None? && Apply(s, a).env == s.env
    ensures PostOf(Apply(s, a), Actor(a)).Some? ==> PostOf(Apply(s, a), Actor(a)).value.stage == WantEnv
  {
  }

  lemma PostAfter(s: State, t: Thread)
    requires CanPost(s, t)
    ensures var p, s' := PostOf(s, t).value, PostOn(s, t);
      match p.stage
      case WantEnv => if p.to in s.alive then s'.env == Some(t) && PostOf(s', t) == Some(p.(stage := WantVm))
                      else s'.env == s.env && PostOf(s', t) == None
      case WantVm => s'.env == Some(t) && PostOf(s', t) == Some(p.(stage := InVm))
      case InVm => s'.env == Some(t) && PostOf(s', t) == Some(p.(stage := Owing))
      case Owing => s'.env == None && PostOf(s', t) == None
  {
  }

  lemma EnvLockKept(s: State, a: Action)
    requires EnvLock(s) && Membership(s) && Enabled(s, a)
    ensures EnvLock(Apply(s, a))
  {
    hide Apply, PostOf, Enabled;
    var s' := Apply(s, a);
    forall t | t != Actor(a) ensures PostOf(s', t) == PostOf(s, t) { OthersPost(s, a, t); }
    if a.PostStep? {
      PostOnIs(s, a);
      PostAfter(s, a.t);
    } else {
      StartsPost(s, a);
    }
  }

  lemma PostOnIs(s: State, a: Action)
    requires Enabled(s, a) && a.PostStep?
    ensures CanPost(s, a.t) && Apply(s, a) == PostOn(s, a.t)
  {
  }

  /** A step leaves the VMs there are, and changes at most its own VM, the target of its post and the new one. */
  lemma AliveKept(s: State, a: Action)
    requires EnvLock(s) && Membership(s) && Enabled(s, a)
    ensures var s' := Apply(s, a);
      (forall v :: v in s'.alive <==> v in s'.vms && s'.vms[v].phase != Gone) && (forall v <- s'.vms :: v < s'.nextId)
  {
    hide Apply, PostOn, PostOf;
    if a.PostStep? {
      PostOnIs(s, a);
      PostVms(s, a.t);
    } else {
      OwnAlive(s, a);
    }
  }

  lemma OwnAlive(s: State, a: Action)
    requires Membership(s) && Enabled(s, a) && !a.PostStep?
    ensures var s' := Apply(s, a);
      (forall v :: v in s'.alive <==> v in s'.vms && s'.vms[v].phase != Gone) && (forall v <- s'.vms :: v < s'.nextId)
  {
    hide Apply, Own, Enabled;
    VmsAfter(s, a);
    RestAfter(s, a);
    OwnGone(s, a);
  }

  lemma OwnGone(s: State, a: Action)
    requires Enabled(s, a) && !a.PostStep?
    ensures a.v in s.vms && (Own(s, a).phase == Gone <==> a.Remove? || s.vms[a.v].phase == Gone)
    ensures a.Create? ==> NewVm([a.v]).phase == Running
  {
    if a.Decide? {
      DecidedGone(s.vms[a.v]);
      hide Decided;
    }
  }

  lemma DecidedGone(vm: Vm)
    requires vm.phase.Locked?
    ensures Decided(vm).phase != Gone
  {
  }

  lemma MembershipKept(s: State, a: Action)
    requires EnvLock(s) && Membership(s) && Enabled(s, a)
    ensures Membership(Apply(s, a))
  {
    AliveKept(s, a);
    TargetsKept(s, a);
  }

  lemma TargetsKept(s: State, a: Action)
    requires EnvLock(s) && Membership(s) && Enabled(s, a)
    ensures var s' := Apply(s, a);
      forall t | PostOf(s', t).Some? && PostOf(s', t).value.stage != WantEnv :: PostOf(s', t).value.to in s'.alive
  {
    hide PostOf;
    var s' := Apply(s, a);
    forall t | t != Actor(a) ensures PostOf(s', t) == PostOf(s, t) { OthersPost(s, a, t); }
    if a.PostStep? {
      PostOnIs(s, a);
      PostAfter(s, a.t);
    } else {
      StartsPost(s, a);
    }
  }

  lemma VmLockKept(s: State, a: Action)
    requires EnvLock(s) && Membership(s) && VmLock(s) && Enabled(s, a)
    ensures VmLock(Apply(s, a))
  {
    hide PostOf, Own, PostOn, LockOk, HoldsVm;
    if a.PostStep? {
      PostOnIs(s, a);
      PostVms(s, a.t);
      forall v | v in Apply(s, a).vms ensures LockOk(Apply(s, a), v) { LockPost(s, a.t, v); }
      forall t ensures HoldsVm(Apply(s, a), t) { HoldsPost(s, a.t, t); }
    } else {
      forall v | v in Apply(s, a).vms ensures LockOk(Apply(s, a), v) { LockOwn(s, a, v); }
      forall t ensures HoldsVm(Apply(s, a), t) { HoldsOwn(s, a, t); }
    }
  }

  /** A step that is not part of a post takes or frees only its own VM's lock, and only as the loop does. */
  lemma OwnLock(s: State, a: Action)
    requires Enabled(s, a) && !a.PostStep?
    ensures a.v in s.vms
    ensures a.LockSelf? ==> s.vms[a.v].lock.None? && Own(s, a).lock == Some(VmThread(a.v)) && Own(s, a).phase.Locked?
    ensures s.vms[a.v].phase.Locked? ==>
      if Own(s, a).phase.Locked? then Own(s, a).lock == s.vms[a.v].lock else Own(s, a).lock.None?
    ensures !a.LockSelf? && !s.vms[a.v].phase.Locked? ==>
      Own(s, a).lock == s.vms[a.v].lock && !Own(s, a).phase.Locked?
  {
    hide Decided;
    if a.Decide? { DecidedLock(s.vms[a.v]); }
  }

  lemma DecidedLock(vm: Vm)
    requires vm.phase.Locked?
    ensures if Decided(vm).phase.Locked? then Decided(vm).lock == vm.lock else Decided(vm).lock.None?
  {
    hide Handled;
    if vm.queue != [] { HandledLock(vm, vm.queue[0]); }
  }

  lemma HandledLock(vm: Vm, c: Callback)
    ensures Handled(vm, c).lock == vm.lock
  {
  }

  /** The VMs after a step that is not part of a post. */
  lemma VmsAfter(s: State, a: Action)
    requires Enabled(s, a) && !a.PostStep?
    ensures a.v in s.vms
    ensures var s' := Apply(s, a);
      s'.vms == if a.Create? then s.vms[a.v := Own(s, a)][s.nextId := NewVm([a.v])] else s.vms[a.v := Own(s, a)]
  {
  }

  lemma LockOwn(s: State, a: Action, v: Id)
    requires EnvLock(s) && Membership(s) && VmLock(s) && Enabled(s, a) && !a.PostStep? && v in Apply(s, a).vms
    ensures LockOk(Apply(s, a), v)
  {
    var s' := Apply(s, a);
    VmsAfter(s, a);
    OwnLock(s, a);
    StartsPost(s, a);
    hide PostOf, Own, Apply, Enabled;
    if v in s.vms {
      assert LockOk(s, v);
      if s.vms[v].lock.Some? && s.vms[v].lock.value != Actor(a) {
        OthersPost(s, a, s.vms[v].lock.value);
      }
    }
  }

  lemma HoldsOwn(s: State, a: Action, t: Thread)
    requires EnvLock(s) && Membership(s) && VmLock(s) && Enabled(s, a) && !a.PostStep?
    ensures HoldsVm(Apply(s, a), t)
  {
    var s' := Apply(s, a);
    VmsAfter(s, a);
    OwnLock(s, a);
    StartsPost(s, a);
    hide PostOf, Own, Apply, Enabled;
    if t != Actor(a) {
      OthersPost(s, a, t);
      assert HoldsVm(s, t);
      if PostOf(s, t).Some? && PostOf(s, t).value.stage == InVm {
        assert LockOk(s, PostOf(s, t).value.to);
      }
    }
  }

  lemma LockPost(s: State, t: Thread, v: Id)
    requires EnvLock(s) && Membership(s) && VmLock(s) && CanPost(s, t) && v in s.vms
    ensures v in PostOn(s, t).vms && LockOk(PostOn(s, t), v)
  {
    var p := PostOf(s, t).value;
    VmAfterPost(s, t, v);
    PostAfter(s, t);
    assert LockOk(s, v) && HoldsVm(s, t);
    hide PostOf, PostOn;
    var holder := s.vms[v].lock;
    if holder.Some? && holder.value != t {
      OthersPostOn(s, t, holder.value);
    }
  }

  lemma HoldsPost(s: State, t: Thread, t': Thread)
    requires EnvLock(s) && Membership(s) && VmLock(s) && CanPost(s, t)
    ensures HoldsVm(PostOn(s, t), t')
  {
    var p := PostOf(s, t).value;
    PostAfter(s, t);
    assert HoldsVm(s, t');
    if t' != t {
      OthersPostOn(s, t, t');
    } else if p.stage == WantVm {
      VmAfterPost(s, t, p.to);
    }
    hide PostOf, PostOn;
  }

  // ------------------------------------------------- counting asynchronous operations

  /** _asyncIONodeCount: the nodes of the operations not released, and one for an awaited stream. */
  ghost predicate CountOk(vm: Vm) {
    && vm.count == |vm.single| + 2 * |vm.double| + (if vm.awaited then 1 else 0) && vm.single !! vm.double
    && (vm.asked && !vm.portClosed ==> vm.awaited) && (vm.awaited ==> vm.asked)
  }

  function OpOf(c: Callback): multiset<nat> {
    if c.Complete? then multiset{c.op} else multiset{}
  }

  /** The operations whose completion is queued. */
  ghost function QueuedOps(queue: seq<Callback>): multiset<nat> {
    if queue == [] then multiset{} else OpOf(queue[0]) + QueuedOps(queue[1..])
  }

  lemma {:induction false} QueuedOpsPush(queue: seq<Callback>, c: Callback)
    ensures QueuedOps(queue + [c]) == QueuedOps(queue) + OpOf(c)
  {
    if queue == [] {
      assert queue + [c] == [c];
    } else {
      assert (queue + [c])[1..] == queue[1..] + [c];
      QueuedOpsPush(queue[1..], c);
    }
  }

  lemma QueuedOpsFirst(queue: seq<Callback>)
    requires queue != []
    ensures QueuedOps(queue) == OpOf(queue[0]) + QueuedOps(queue[1..])
  {
  }

  /** The operation whose completion the I/O thread is posting to `v`. */
  ghost function PostedOp(s: State, v: Id): multiset<nat> {
    if s.io.Completing? && s.io.post.to == v && s.io.post.stage != Owing then multiset{s.io.op} else multiset{}
  }

  ghost predicate Balanced(vm: Vm, posted: multiset<nat>) {
    multiset(vm.single) + multiset(vm.double) == multiset(vm.flying) + QueuedOps(vm.queue) + posted
  }

  /** Every operation not released is in flight, or its completion is being posted, or is queued: in one place. */
  ghost predicate OpsOk(s: State, v: Id)
    requires v in s.vms
  {
    var vm := s.vms[v];
    && (forall op <- vm.single :: op < s.nextOp) && (forall op <- vm.double :: op < s.nextOp)
    && (v in s.alive ==> Balanced(vm, PostedOp(s, v)))
  }

  ghost predicate IoOk(s: State) {
    && (s.io.Completing? ==> s.io.post.what == Complete(s.io.op) && s.io.post.to in s.vms)
    && (forall v | PostOf(s, VmThread(v)).Some? :: !PostOf(s, VmThread(v)).value.what.Complete?)
  }

  ghost predicate Counted(s: State) {
    IoOk(s) && forall v <- s.vms :: CountOk(s.vms[v]) && OpsOk(s, v)
  }

  lemma IoKept(s: State, a: Action)
    requires IoOk(s) && Membership(s) && Enabled(s, a)
    ensures IoOk(Apply(s, a))
  {
    forall v ensures PostOf(Apply(s, a), VmThread(v)).Some? ==> !PostOf(Apply(s, a), VmThread(v)).value.what.Complete? {
      PostWhat(s, a, VmThread(v));
    }
    IoPost(s, a);
  }

  lemma PostWhat(s: State, a: Action, t: Thread)
    requires IoOk(s) && Membership(s) && Enabled(s, a) && t.VmThread?
    ensures PostOf(Apply(s, a), t).Some? ==> !PostOf(Apply(s, a), t).value.what.Complete?
  {
    assert PostOf(s, VmThread(t.id)).Some? ==> !PostOf(s, VmThread(t.id)).value.what.Complete?;
    if t != Actor(a) {
      OthersPost(s, a, t);
    } else if a.PostStep? {
      PostAfter(s, t);
    }
  }

  lemma IoPost(s: State, a: Action)
    requires IoOk(s) && Membership(s) && Enabled(s, a)
    ensures var io := Apply(s, a).io; io.Completing? ==>
      io.post.what == Complete(io.op) && io.post.to in Apply(s, a).vms
  {
    if a.PostStep? {
      PostVms(s, a.t);
      if a.t != IoThread {
        OthersPostOn(s, a.t, IoThread);
      }
      IoAfter(s, a.t);
      hide PostOn, PostOf;
    }
  }

  lemma IoAfter(s: State, t: Thread)
    requires CanPost(s, t)
    ensures var s' := PostOn(s, t);
      if t != IoThread then s'.io == s.io
      else s.io.Completing? && s'.io == if NextPost(s, s.io.post).Some?
        then Completing(s.io.op, NextPost(s, s.io.post).value) else Idle
  {
  }

  lemma MinusOne(a: multiset<nat>, b: multiset<nat>, rest: multiset<nat>, op: nat)
    requires op in a && a + b == multiset{op} + rest
    ensures (a - multiset{op}) + b == rest
  {
    forall x ensures ((a - multiset{op}) + b)[x] == rest[x] {
      assert (a + b)[x] == (multiset{op} + rest)[x];
    }
  }

  lemma ReleaseOp(single: set<nat>, double: set<nat>, op: nat, rest: multiset<nat>)
    requires multiset(single) + multiset(double) == multiset{op} + rest && single !! double
    ensures op in single || op in double
    ensures multiset(single - {op}) + multiset(double - {op}) == rest
    ensures |single - {op}| + 2 * |double - {op}| == |single| + 2 * |double| - if op in double then 2 else 1
  {
    assert op in multiset(single) + multiset(double);
    if op in single {
      assert op !in double && double - {op} == double;
      assert multiset(single - {op}) == multiset(single) - multiset{op};
      MinusOne(multiset(single), multiset(double), rest, op);
    } else {
      assert single - {op} == single;
      assert multiset(double - {op}) == multiset(double) - multiset{op};
      assert multiset(double) + multiset(single) == multiset{op} + rest;
      MinusOne(multiset(double), multiset(single), rest, op);
    }
  }

  lemma TakeOne(f: multiset<nat>, q: multiset<nat>, p: multiset<nat>, op: nat)
    ensures f + (multiset{op} + q) + p == multiset{op} + (f + q + p)
  {
  }

  /** A callback that completes an operation finds it counted. */
  lemma HandledCount(vm: Vm, posted: multiset<nat>)
    requires vm.queue != [] && CountOk(vm)
    requires Balanced(vm, posted)
    ensures var h := Handled(vm, vm.queue[0]);
      && h.count >= 0 && CountOk(h)
      && multiset(h.single) + multiset(h.double) == multiset(h.flying) + QueuedOps(vm.queue[1..]) + posted
  {
    QueuedOpsFirst(vm.queue);
    hide QueuedOps;
    var c, q := vm.queue[0], QueuedOps(vm.queue[1..]);
    if c.Complete? {
      HandledComplete(vm, c.op, q, posted);
    } else {
      NoneFirst(q);
    }
  }

  lemma NoneFirst(q: multiset<nat>)
    ensures multiset{} + q == q
  {
  }

  lemma HandledComplete(vm: Vm, op: nat, q: multiset<nat>, posted: multiset<nat>)
    requires CountOk(vm)
    requires multiset(vm.single) + multiset(vm.double) == multiset(vm.flying) + (multiset{op} + q) + posted
    ensures var h := Handled(vm, Complete(op));
      && h.count >= 0 && CountOk(h)
      && multiset(h.single) + multiset(h.double) == multiset(h.flying) + q + posted
  {
    TakeOne(multiset(vm.flying), q, posted, op);
    ReleaseOp(vm.single, vm.double, op, multiset(vm.flying) + q + posted);
  }

  ghost predicate SamePlaces(vm: Vm, vm': Vm) {
    && vm'.single == vm.single && vm'.double == vm.double && vm'.count == vm.count && vm'.awaited == vm.awaited
    && vm'.asked == vm.asked && vm'.flying == vm.flying && (vm.portClosed ==> vm'.portClosed)
  }

  lemma AliveOps(s: State, v: Id)
    requires Counted(s) && Membership(s) && v in s.vms && s.vms[v].phase != Gone
    ensures v in s.alive && CountOk(s.vms[v]) && (forall op <- s.vms[v].single :: op < s.nextOp) &&
      (forall op <- s.vms[v].double :: op < s.nextOp)
    ensures var vm := s.vms[v];
      Balanced(vm, PostedOp(s, v))
  {
    assert OpsOk(s, v);
  }

  predicate Counting(a: Action) {
    a.StartOp? || a.GetStream? || a.CloseStream? || a.Decide?
  }

  /** The other steps leave the operations and the queue alone. */
  lemma OwnSame(s: State, a: Action)
    requires Enabled(s, a) && !a.PostStep? && !Counting(a)
    ensures a.v in s.vms
    ensures var vm, vm' := s.vms[a.v], Own(s, a);
      && vm'.single == vm.single && vm'.double == vm.double && vm'.count == vm.count && vm'.awaited == vm.awaited
      && vm'.asked == vm.asked && vm'.queue == vm.queue && (vm.portClosed ==> vm'.portClosed)
      && (!a.IoDone? ==> vm'.flying == vm.flying)
  {
  }

  lemma OwnCount(s: State, a: Action)
    requires Counted(s) && Membership(s) && Enabled(s, a) && !a.PostStep?
    ensures a.v in s.vms && CountOk(Own(s, a))
  {
    if a.Decide? {
      AliveOps(s, a.v);
      DecidedCount(s.vms[a.v], PostedOp(s, a.v));
      hide Decided, CountOk;
    } else if Counting(a) {
      assert OpsOk(s, a.v) && CountOk(s.vms[a.v]);
      hide Counted, OpsOk, Membership;
      CountingCount(s, a);
      hide Own, CountOk;
    } else {
      assert CountOk(s.vms[a.v]);
      hide Counted, OpsOk, Membership;
      OwnSame(s, a);
      hide Own, Enabled;
    }
  }

  lemma CountingCount(s: State, a: Action)
    requires (a.StartOp? || a.GetStream? || a.CloseStream?) && Enabled(s, a) && a.v in s.vms && CountOk(s.vms[a.v])
    requires (forall op <- s.vms[a.v].single :: op < s.nextOp) && (forall op <- s.vms[a.v].double :: op < s.nextOp)
    ensures CountOk(Own(s, a))
  {
    hide CountOk;
    var vm := s.vms[a.v];
    CountParts(vm);
    match a {
      case StartOp(_, two) => StartSets(vm.single, vm.double, s.nextOp);
      case GetStream(_) =>
      case CloseStream(_) =>
    }
    CountFrom(Own(s, a));
  }

  lemma StartSets(single: set<nat>, double: set<nat>, op: nat)
    requires op !in single && op !in double && single !! double
    ensures |single + {op}| == |single| + 1 && |double + {op}| == |double| + 1
    ensures (single + {op}) !! double && single !! (double + {op})
  {
  }

  lemma CountParts(vm: Vm)
    requires CountOk(vm)
    ensures vm.count == |vm.single| + 2 * |vm.double| + (if vm.awaited then 1 else 0) && vm.single !! vm.double
    ensures (vm.asked && !vm.portClosed ==> vm.awaited) && (vm.awaited ==> vm.asked)
  {
  }

  lemma CountFrom(vm: Vm)
    requires vm.count == |vm.single| + 2 * |vm.double| + (if vm.awaited then 1 else 0) && vm.single !! vm.double
    requires (vm.asked && !vm.portClosed ==> vm.awaited) && (vm.awaited ==> vm.asked)
    ensures CountOk(vm)
  {
  }

  lemma DecidedCount(vm: Vm, posted: multiset<nat>)
    requires vm.phase.Locked? && CountOk(vm)
    requires Balanced(vm, posted)
    ensures var d := Decided(vm);
      && CountOk(d) && d.single <= vm.single && d.double <= vm.double
      && Balanced(d, posted)
  {
    hide QueuedOps, Handled, CountOk;
    if vm.queue == [] {
      SamePlacesCount(vm, Decided(vm));
    } else {
      HandledCount(vm, posted);
      HandledSets(vm, vm.queue[0]);
      assert Decided(vm).queue == vm.queue[1..];
      SamePlacesCount(Handled(vm, vm.queue[0]), Decided(vm));
    }
  }

  lemma HandledSets(vm: Vm, c: Callback)
    ensures var h := Handled(vm, c); h.single <= vm.single && h.double <= vm.double && h.flying == vm.flying
  {
  }

  lemma SamePlacesCount(vm: Vm, vm': Vm)
    requires CountOk(vm) && SamePlaces(vm, vm') && vm'.portClosed == vm.portClosed
    ensures CountOk(vm')
  {
  }

  lemma LandedOp(flying: set<nat>, q: multiset<nat>, op: nat)
    requires op in flying
    ensures multiset(flying - {op}) + q + multiset{op} == multiset(flying) + q + multiset{}
  {
    assert multiset(flying - {op}) == multiset(flying) - multiset{op};
  }

  lemma AddOne(a: multiset<nat>, b: multiset<nat>, f: multiset<nat>, q: multiset<nat>, p: multiset<nat>, op: nat)
    requires a + b == f + q + p
    ensures (a + multiset{op}) + b == (f + multiset{op}) + q + p
    ensures a + (b + multiset{op}) == (f + multiset{op}) + q + p
  {
    assert (a + multiset{op}) + b == (a + b) + multiset{op} == a + (b + multiset{op});
    assert (f + multiset{op}) + q + p == (f + q + p) + multiset{op};
  }

  lemma StartedOp(single: set<nat>, double: set<nat>, flying: set<nat>, q: multiset<nat>, posted: multiset<nat>,
                  op: nat)
    requires multiset(single) + multiset(double) == multiset(flying) + q + posted && op !in single && op !in double
    ensures var now := multiset(flying + {op}) + q + posted;
      && multiset(single + {op}) + multiset(double) == now && multiset(single) + multiset(double + {op}) == now
  {
    assert op !in flying by {
      assert op !in multiset(single) + multiset(double);
      assert op !in multiset(flying) + q + posted;
    }
    AddOne(multiset(single), multiset(double), multiset(flying), q, posted, op);
    assert multiset(flying + {op}) == multiset(flying) + multiset{op};
    assert multiset(single + {op}) == multiset(single) + multiset{op};
    assert multiset(double + {op}) == multiset(double) + multiset{op};
  }

  /** The operations of a VM that takes a step. */
  lemma OwnOps(s: State, a: Action)
    requires Counted(s) && Membership(s) && Enabled(s, a) && !a.PostStep? && a.v in s.vms && s.vms[a.v].phase != Gone
    ensures Balanced(Own(s, a), if a.IoDone? then multiset{a.op} else PostedOp(s, a.v))
  {
    AliveOps(s, a.v);
    hide QueuedOps, OpsOk, CountOk, Counted, Membership, PostedOp;
    if a.Decide? {
      DecidedCount(s.vms[a.v], PostedOp(s, a.v));
      hide Decided;
    } else if a.StartOp? {
      StartOps(s, a);
    } else if a.IoDone? {
      LandOps(s, a);
    } else if Counting(a) {
      SameBalance(s.vms[a.v], Own(s, a), PostedOp(s, a.v));
    } else {
      OwnSame(s, a);
      SameBalance(s.vms[a.v], Own(s, a), PostedOp(s, a.v));
    }
  }

  lemma LandOps(s: State, a: Action)
    requires Enabled(s, a) && a.IoDone? && Balanced(s.vms[a.v], PostedOp(s, a.v))
    ensures Balanced(Own(s, a), multiset{a.op})
  {
    var vm := s.vms[a.v];
    LandedOp(vm.flying, QueuedOps(vm.queue), a.op);
  }

  lemma SameBalance(vm: Vm, vm': Vm, posted: multiset<nat>)
    requires Balanced(vm, posted) && vm'.single == vm.single && vm'.double == vm.double
    requires vm'.flying == vm.flying && vm'.queue == vm.queue
    ensures Balanced(vm', posted)
  {
  }

  lemma StartOps(s: State, a: Action)
    requires Enabled(s, a) && a.StartOp? && Balanced(s.vms[a.v], PostedOp(s, a.v))
    requires s.nextOp !in s.vms[a.v].single && s.nextOp !in s.vms[a.v].double
    ensures Balanced(Own(s, a), PostedOp(s, a.v))
  {
    var vm := s.vms[a.v];
    StartedOp(vm.single, vm.double, vm.flying, QueuedOps(vm.queue), PostedOp(s, a.v), s.nextOp);
    assert Own(s, a).queue == vm.queue && Own(s, a).flying == vm.flying + {s.nextOp};
    if a.two {
      assert Own(s, a).double == vm.double + {s.nextOp} && Own(s, a).single == vm.single;
    } else {
      assert Own(s, a).single == vm.single + {s.nextOp} && Own(s, a).double == vm.double;
    }
  }

  lemma OwnIds(s: State, a: Action)
    requires Counted(s) && Membership(s) && Enabled(s, a) && !a.PostStep?
    ensures a.v in s.vms
    ensures forall op <- Own(s, a).single :: op < s.nextOp || (a.StartOp? && op == s.nextOp)
    ensures forall op <- Own(s, a).double :: op < s.nextOp || (a.StartOp? && op == s.nextOp)
  {
    assert OpsOk(s, a.v);
    hide Counted, QueuedOps, Balanced;
    OwnSets(s, a);
    hide Own, Enabled;
  }

  lemma OwnSets(s: State, a: Action)
    requires Enabled(s, a) && !a.PostStep?
    ensures a.v in s.vms
    ensures var started := if a.StartOp? then {s.nextOp} else {};
      Own(s, a).single <= s.vms[a.v].single + started && Own(s, a).double <= s.vms[a.v].double + started
  {
    var vm := s.vms[a.v];
    if a.Decide? {
      if vm.queue != [] {
        HandledSets(vm, vm.queue[0]);
        hide Handled;
      }
    }
  }

  /** What a step that is not part of a post does to the rest of the state. */
  lemma RestAfter(s: State, a: Action)
    requires Enabled(s, a) && !a.PostStep?
    ensures var s' := Apply(s, a);
      && s'.nextOp == (if a.StartOp? then s.nextOp + 1 else s.nextOp)
      && s'.io == (if a.IoDone? then Completing(a.op, Post(a.v, Complete(a.op), WantEnv)) else s.io)
      && (a.IoDone? ==> s.io.Idle?)
      && s'.alive == (if a.Create? then s.alive + {s.nextId} else if a.Remove? then s.alive - {a.v} else s.alive)
      && s'.nextId == (if a.Create? then s.nextId + 1 else s.nextId)
  {
  }

  lemma CountedOwn(s: State, a: Action, v: Id)
    requires Counted(s) && Membership(s) && Enabled(s, a) && !a.PostStep? && v in Apply(s, a).vms
    ensures CountOk(Apply(s, a).vms[v]) && OpsOk(Apply(s, a), v)
  {
    hide Own, CountOk, Apply, Enabled, Balanced, Membership, NewVm;
    VmsAfter(s, a);
    RestAfter(s, a);
    OwnCount(s, a);
    OwnIds(s, a);
    NextIsNew(s);
    if v == a.v {
      if v in s.alive {
        AliveIs(s, v);
        OwnOps(s, a);
      }
    } else if v in s.vms {
      assert CountOk(s.vms[v]) && OpsOk(s, v);
    } else {
      NewCounted(s, v, a.v);
    }
  }

  lemma NextIsNew(s: State)
    requires Membership(s)
    ensures s.nextId !in s.vms && s.nextId !in s.alive
  {
  }

  lemma AliveIs(s: State, v: Id)
    requires Membership(s) && v in s.alive
    ensures v in s.vms && s.vms[v].phase != Gone
  {
  }

  lemma NewCounted(s: State, v: Id, parent: Id)
    requires Counted(s) && v !in s.vms
    ensures NewVm([parent]).single == {} && NewVm([parent]).double == {}
    ensures CountOk(NewVm([parent])) && PostedOp(s, v) == multiset{} && Balanced(NewVm([parent]), multiset{})
  {
  }

  lemma CountedPost(s: State, t: Thread, v: Id)
    requires Counted(s) && Membership(s) && CanPost(s, t) && v in s.vms
    ensures v in PostOn(s, t).vms && CountOk(PostOn(s, t).vms[v]) && OpsOk(PostOn(s, t), v)
  {
    hide PostOf, PostOn, CountOk, Balanced, Membership, AfterPost, CanPost, PostedOp, OpOf;
    StageIs(s, t);
    var p, vm := PostOf(s, t).value, s.vms[v];
    assert CountOk(vm) && OpsOk(s, v);
    VmAfterPost(s, t, v);
    PostVms(s, t);
    PostedOpAfter(s, t, v);
    var vm' := AfterPost(s, t, p, v);
    AfterPostSame(s, t, p, v);
    SamePlacesCount(vm, vm');
    if v in s.alive {
      if v == p.to && p.stage == InVm {
        PushedBalance(vm, vm', p.what, PostedOp(s, v), PostedOp(PostOn(s, t), v));
      } else {
        SameBalance(vm, vm', PostedOp(s, v));
      }
    }
  }

  lemma PostedOpAfter(s: State, t: Thread, v: Id)
    requires IoOk(s) && CanPost(s, t) && v in s.vms
    ensures PostOf(s, t).Some?
    ensures var p := PostOf(s, t).value;
      v in s.alive ==>
        if v == p.to && p.stage == InVm then PostedOp(s, v) == PostedOp(PostOn(s, t), v) + OpOf(p.what)
        else PostedOp(PostOn(s, t), v) == PostedOp(s, v)
  {
    IoAfter(s, t);
    WhatIsPosted(s, t);
    hide PostOn;
  }

  lemma StageIs(s: State, t: Thread)
    requires CanPost(s, t)
    ensures PostOf(s, t).Some?
  {
  }

  lemma WhatIsPosted(s: State, t: Thread)
    requires IoOk(s) && PostOf(s, t).Some?
    ensures var p := PostOf(s, t).value;
      if t == IoThread then s.io.Completing? && p == s.io.post && p.what == Complete(s.io.op) else !p.what.Complete?
  {
    if t != IoThread {
      assert t == VmThread(t.id);
    }
  }

  lemma AfterPostSame(s: State, t: Thread, p: Post, v: Id)
    requires v in s.vms
    ensures SamePlaces(s.vms[v], AfterPost(s, t, p, v)) && AfterPost(s, t, p, v).portClosed == s.vms[v].portClosed
    ensures AfterPost(s, t, p, v).queue ==
      if v == p.to && p.stage == InVm then s.vms[v].queue + [p.what] else s.vms[v].queue
  {
    TargetSame(s.vms[v], t, p);
    hide Target;
  }

  lemma TargetSame(vm: Vm, t: Thread, p: Post)
    ensures SamePlaces(vm, Target(vm, t, p)) && Target(vm, t, p).portClosed == vm.portClosed
    ensures Target(vm, t, p).queue == if p.stage == InVm then vm.queue + [p.what] else vm.queue
  {
  }

  lemma PushedBalance(vm: Vm, vm': Vm, c: Callback, before: multiset<nat>, after: multiset<nat>)
    requires Balanced(vm, before) && before == after + OpOf(c)
    requires vm'.single == vm.single && vm'.double == vm.double && vm'.flying == vm.flying &&
      vm'.queue == vm.queue + [c]
    ensures Balanced(vm', after)
  {
    QueuedOpsPush(vm.queue, c);
  }

  lemma CountedKept(s: State, a: Action)
    requires Counted(s) && Membership(s) && Enabled(s, a)
    ensures Counted(Apply(s, a))
  {
    IoKept(s, a);
    forall v | v in Apply(s, a).vms ensures CountOk(Apply(s, a).vms[v]) && OpsOk(Apply(s, a), v) {
      if a.PostStep? {
        PostVms(s, a.t);
        CountedPost(s, a.t, v);
      } else {
        CountedOwn(s, a, v);
      }
    }
  }

  // ------------------------------------------------------- waiting, and being woken up

  /** A waiting VM with an event on its queue is about to be notified by the poster; one without has a reason to
      wait. */
  ghost predicate WaitOk(s: State, v: Id)
    requires v in s.vms
  {
    var vm := s.vms[v];
    vm.phase.Waiting? ==>
      && (vm.queue != [] ==> s.env.Some? && PostsAt(s, s.env.value, v, Owing))
      && (vm.alarm || vm.count > 0)
  }

  ghost predicate Awake(s: State) {
    forall v <- s.vms :: WaitOk(s, v)
  }

  lemma WaitOwn(s: State, a: Action, v: Id)
    requires Awake(s) && Counted(s) && EnvLock(s) && Membership(s) && Enabled(s, a) && !a.PostStep? &&
      v in Apply(s, a).vms
    ensures WaitOk(Apply(s, a), v)
  {
    hide Counted, Membership, EnvLock, Apply, PostOf;
    VmsAfter(s, a);
    NextIsNew(s);
    OwnCount(s, a);
    StartsPost(s, a);
    if v == a.v {
      OwnWait(s, a);
    }
    hide Own, Enabled, CountOk, NewVm;
    if v in s.vms {
      assert WaitOk(s, v);
      if s.env.Some? && s.env.value != Actor(a) {
        OthersPost(s, a, s.env.value);
      }
    } else {
      NewRuns(a.v);
    }
  }

  lemma NewRuns(parent: Id)
    ensures NewVm([parent]).phase == Running
  {
  }

  lemma OwnWait(s: State, a: Action)
    requires Enabled(s, a) && !a.PostStep? && CountOk(Own(s, a))
    ensures a.v in s.vms
    ensures var vm := Own(s, a);
      vm.phase.Waiting? ==>
        (vm.queue == [] && (vm.alarm || vm.count > 0)) || (s.vms[a.v].phase.Waiting? && vm.queue == s.vms[a.v].queue &&
        vm.alarm == s.vms[a.v].alarm && vm.count == s.vms[a.v].count)
  {
    hide CountOk, Decided;
    CountNotNegative(Own(s, a));
    if a.Decide? { DecidedWaits(s.vms[a.v]); }
  }

  lemma DecidedWaits(vm: Vm)
    requires vm.phase.Locked?
    ensures var d := Decided(vm); d.phase.Waiting? ==> d.queue == [] && (d.alarm || d.count != 0)
  {
    hide Handled;
  }

  lemma CountNotNegative(vm: Vm)
    requires CountOk(vm)
    ensures vm.count >= 0
  {
  }

  lemma WaitPost(s: State, t: Thread, v: Id)
    requires Awake(s) && EnvLock(s) && Membership(s) && CanPost(s, t) && v in s.vms
    ensures v in PostOn(s, t).vms && WaitOk(PostOn(s, t), v)
  {
    var p := PostOf(s, t).value;
    VmAfterPost(s, t, v);
    PostAfter(s, t);
    assert WaitOk(s, v);
    hide PostOf, PostOn;
  }

  lemma AwakeKept(s: State, a: Action)
    requires Awake(s) && Counted(s) && EnvLock(s) && Membership(s) && Enabled(s, a)
    ensures Awake(Apply(s, a))
  {
    hide PostOf;
    forall v | v in Apply(s, a).vms ensures WaitOk(Apply(s, a), v) {
      if a.PostStep? {
        PostOnIs(s, a);
        PostVms(s, a.t);
        WaitPost(s, a.t, v);
      } else {
        WaitOwn(s, a, v);
      }
    }
  }

  // ------------------------------------------------------------ messages, in sending order

  function MessageIn(item: Item): seq<Item> {
    if item.Message? then [item] else []
  }

  function Messages(items: seq<Item>): seq<Item> {
    if items == [] then [] else MessageIn(items[0]) + Messages(items[1..])
  }

  function MessageOf(c: Callback): seq<Item> {
    if c.Receive? then MessageIn(c.item) else []
  }

  function QueuedMessages(queue: seq<Callback>): seq<Item> {
    if queue == [] then [] else MessageOf(queue[0]) + QueuedMessages(queue[1..])
  }

  lemma {:induction false} MessagesPush(items: seq<Item>, item: Item)
    ensures Messages(items + [item]) == Messages(items) + MessageIn(item)
  {
    if items == [] {
      assert items + [item] == [item];
    } else {
      assert (items + [item])[1..] == items[1..] + [item];
      MessagesPush(items[1..], item);
    }
  }

  lemma {:induction false} QueuedMessagesPush(queue: seq<Callback>, c: Callback)
    ensures QueuedMessages(queue + [c]) == QueuedMessages(queue) + MessageOf(c)
  {
    if queue == [] {
      assert queue + [c] == [c];
    } else {
      assert (queue + [c])[1..] == queue[1..] + [c];
      QueuedMessagesPush(queue[1..], c);
    }
  }

  /** An open VM has received, or will next, exactly the messages pushed; a closed one received the first of them. */
  ghost predicate StreamOk(vm: Vm) {
    if vm.portClosed then Messages(vm.stream) <= vm.posted
      else vm.posted == Messages(vm.stream) + QueuedMessages(vm.queue)
  }

  /** The messages of each sender are numbered in increasing order. */
  ghost predicate Ordered(posted: seq<Item>) {
    && (forall i | 0 <= i < |posted| :: posted[i].Message?)
    && (forall i, j | 0 <= i < j < |posted| && posted[i].from == posted[j].from :: posted[i].number < posted[j].number)
  }

  /** No message numbered from here on by `a` has been pushed on any queue. */
  function Limit(s: State, a: Id): nat
    requires a in s.vms
  {
    var p := PostOf(s, VmThread(a));
    if p.Some? && p.value.stage != Owing && p.value.what.Receive? &&
      p.value.what.item.Message? then p.value.what.item.number
    else s.vms[a].sent
  }

  ghost predicate Below(s: State, posted: seq<Item>) {
    forall i | 0 <= i < |posted| && posted[i].Message? ::
      posted[i].from in s.vms && posted[i].number < Limit(s, posted[i].from)
  }

  ghost predicate SendOk(s: State, a: Id)
    requires a in s.vms
  {
    var p := PostOf(s, VmThread(a));
    p.Some? && p.value.what.Receive? && p.value.what.item.Message? ==>
      p.value.what.item.from == a && p.value.what.item.number + 1 == s.vms[a].sent
  }

  ghost predicate InOrder(s: State) {
    forall v <- s.vms :: StreamOk(s.vms[v]) && Ordered(s.vms[v].posted) && Below(s, s.vms[v].posted) && SendOk(s, v)
  }

  lemma ReceivedStream(vm: Vm, item: Item)
    requires !vm.portClosed
    ensures Messages(Received(vm, item).stream) == Messages(vm.stream) + MessageIn(item)
  {
    MessagesPush(vm.stream, item);
  }

  lemma DecidedStream(vm: Vm)
    requires vm.phase.Locked? && StreamOk(vm)
    ensures StreamOk(Decided(vm)) && Decided(vm).posted == vm.posted && Decided(vm).sent == vm.sent
  {
    hide Messages, QueuedMessages, Handled;
    if vm.queue != [] { HandledStream(vm, vm.queue[0], vm.queue[1..]); }
  }

  lemma HandledStream(vm: Vm, c: Callback, rest: seq<Callback>)
    requires StreamOk(vm) && vm.queue == [c] + rest
    ensures var h := Handled(vm, c);
      StreamOk(h.(queue := rest)) && h.posted == vm.posted && h.sent == vm.sent && h.phase == vm.phase &&
        h.lock == vm.lock
  {
    hide Messages, QueuedMessages;
    SplitFirst(vm);
    assert vm.queue[1..] == rest;
    if c.Receive? && !vm.portClosed {
      ReceivedStream(vm, c.item);
    } else if !c.Receive? {
      assert MessageOf(c) + QueuedMessages(rest) == QueuedMessages(rest);
    }
  }

  lemma SplitFirst(vm: Vm)
    requires vm.queue != []
    ensures QueuedMessages(vm.queue) == MessageOf(vm.queue[0]) + QueuedMessages(vm.queue[1..])
    ensures Messages(vm.stream) + (MessageOf(vm.queue[0]) + QueuedMessages(vm.queue[1..])) ==
      (Messages(vm.stream) + MessageOf(vm.queue[0])) + QueuedMessages(vm.queue[1..])
  {
  }

  lemma OwnStream(s: State, a: Action)
    requires Enabled(s, a) && !a.PostStep? && StreamOk(s.vms[a.v])
    ensures StreamOk(Own(s, a)) && Own(s, a).posted == s.vms[a.v].posted && Own(s, a).sent >= s.vms[a.v].sent
  {
    hide Decided, Messages, QueuedMessages;
    if a.Decide? { DecidedStream(s.vms[a.v]); }
  }

  lemma AfterPostSent(s: State, t: Thread, p: Post, v: Id)
    requires v in s.vms
    ensures AfterPost(s, t, p, v).sent == s.vms[v].sent
  {
  }

  lemma SentStays(s: State, a: Action, v: Id)
    requires Membership(s) && Enabled(s, a) && v in s.vms && VmThread(v) != Actor(a)
    ensures v in Apply(s, a).vms && Apply(s, a).vms[v].sent == s.vms[v].sent
  {
    NextIsNew(s);
    if a.PostStep? {
      PostOnIs(s, a);
      VmAfterPost(s, a.t, v);
      AfterPostSent(s, a.t, PostOf(s, a.t).value, v);
    } else {
      VmsAfter(s, a);
    }
    hide Apply, PostOf, AfterPost, Membership;
  }

  lemma OwnLimit(s: State, a: Action)
    requires Membership(s) && Enabled(s, a) && !a.PostStep? && !a.IoDone?
    ensures a.v in s.vms && a.v in Apply(s, a).vms
    ensures Limit(Apply(s, a), a.v) >= Limit(s, a.v) && SendOk(Apply(s, a), a.v)
  {
    hide Decided, Apply, PostOf, Membership;
    NextIsNew(s);
    VmsAfter(s, a);
    OwnSends(s, a);
    LimitIs(s, a.v);
    LimitIs(Apply(s, a), a.v);
  }

  /** What a sender's next number is. */
  lemma LimitIs(s: State, a: Id)
    requires a in s.vms
    ensures Limit(s, a) == SenderLimit(s.vms[a]) && (SendOk(s, a) <==> SenderOk(s.vms[a], a))
  {
  }

  predicate SendsMessage(vm: Vm) {
    (vm.phase.Sending? || vm.phase.TellingOne?) && vm.phase.post.what.Receive? && vm.phase.post.what.item.Message?
  }

  function SenderLimit(vm: Vm): nat {
    if SendsMessage(vm) && vm.phase.post.stage != Owing then vm.phase.post.what.item.number else vm.sent
  }

  predicate SenderOk(vm: Vm, a: Id) {
    SendsMessage(vm) ==> vm.phase.post.what.item.from == a && vm.phase.post.what.item.number + 1 == vm.sent
  }

  lemma OwnSends(s: State, a: Action)
    requires Enabled(s, a) && !a.PostStep? && !a.IoDone?
    ensures a.v in s.vms && SenderLimit(Own(s, a)) >= SenderLimit(s.vms[a.v]) && SenderOk(Own(s, a), a.v)
  {
    hide Decided;
    if a.Decide? { DecidedSent(s.vms[a.v]); }
  }

  lemma DecidedSent(vm: Vm)
    requires vm.phase.Locked?
    ensures Decided(vm).sent == vm.sent && !Decided(vm).phase.Sending? && !Decided(vm).phase.TellingOne?
  {
    if vm.queue != [] {
      HandledSent(vm, vm.queue[0]);
      hide Handled;
    }
  }

  lemma HandledSent(vm: Vm, c: Callback)
    ensures Handled(vm, c).sent == vm.sent
  {
  }

  /** Numbers already used stay below what a sender will use. */
  lemma LimitGrows(s: State, a: Action, v: Id)
    requires InOrder(s) && Membership(s) && Enabled(s, a) && v in s.vms
    ensures v in Apply(s, a).vms && Limit(Apply(s, a), v) >= Limit(s, v) && SendOk(Apply(s, a), v)
  {
    assert SendOk(s, v);
    if VmThread(v) != Actor(a) {
      NextIsNew(s);
      OthersPost(s, a, VmThread(v));
      SentStays(s, a, v);
    } else if a.PostStep? {
      PostOnIs(s, a);
      PostAfter(s, a.t);
      VmAfterPost(s, a.t, v);
      AfterPostSent(s, a.t, PostOf(s, a.t).value, v);
    } else {
      OwnLimit(s, a);
    }
    hide PostOf, Apply, AfterPost;
  }

  lemma BelowStays(s: State, a: Action, posted: seq<Item>)
    requires InOrder(s) && Membership(s) && Enabled(s, a) && Below(s, posted)
    ensures Below(Apply(s, a), posted)
  {
    hide Apply, Limit;
    forall i | 0 <= i < |posted| && posted[i].Message?
      ensures posted[i].from in Apply(s, a).vms && posted[i].number < Limit(Apply(s, a), posted[i].from)
    {
      LimitGrows(s, a, posted[i].from);
    }
  }

  lemma InOrderOwn(s: State, a: Action, v: Id)
    requires InOrder(s) && Membership(s) && Enabled(s, a) && !a.PostStep? && v in Apply(s, a).vms
    ensures var s' := Apply(s, a);
      StreamOk(s'.vms[v]) && Ordered(s'.vms[v].posted) && Below(s', s'.vms[v].posted) && SendOk(s', v)
  {
    hide Apply, Enabled, Own, Limit, StreamOk, Ordered, SendOk, Below;
    VmsAfter(s, a);
    NextIsNew(s);
    if v in s.vms {
      assert StreamOk(s.vms[v]) && Ordered(s.vms[v].posted) && Below(s, s.vms[v].posted) && SendOk(s, v);
      BelowStays(s, a, s.vms[v].posted);
      LimitGrows(s, a, v);
      if v == a.v {
        OwnStream(s, a);
      }
    } else {
      NewInOrder(s, a);
    }
  }

  lemma NewInOrder(s: State, a: Action)
    requires Enabled(s, a) && a.Create?
    ensures var s' := Apply(s, a);
      && s.nextId in s'.vms && StreamOk(NewVm([a.v])) && NewVm([a.v]).posted == [] && Ordered([]) && Below(s', [])
      && SendOk(s', s.nextId)
  {
    hide Apply, Own, PostOf, Enabled;
    VmsAfter(s, a);
    LimitIs(Apply(s, a), s.nextId);
  }

  /** The message a thread is about to push comes after all those its VM sent before. */
  lemma InOrderPost(s: State, t: Thread, v: Id)
    requires InOrder(s) && Membership(s) && IoOk(s) && CanPost(s, t) && v in s.vms
    ensures var s' := PostOn(s, t);
      v in s'.vms && StreamOk(s'.vms[v]) && Ordered(s'.vms[v].posted) && Below(s', s'.vms[v].posted)
  {
    hide Limit, StreamOk, Ordered, SendOk, Below, PostOn, PostOf;
    var p, vm := PostOf(s, t).value, s.vms[v];
    assert StreamOk(vm) && Ordered(vm.posted) && Below(s, vm.posted) && SendOk(s, v);
    VmAfterPost(s, t, v);
    BelowStays(s, PostStep(t), vm.posted);
    if v == p.to && p.stage == InVm && !IsRefused(s, p) {
      PushedInOrder(s, t, v);
    } else {
      UnpushedStream(s, t, p, v);
    }
  }

  lemma UnpushedStream(s: State, t: Thread, p: Post, v: Id)
    requires v in s.vms && StreamOk(s.vms[v]) && (v == p.to && p.stage == InVm ==> IsRefused(s, p))
    ensures StreamOk(AfterPost(s, t, p, v)) && AfterPost(s, t, p, v).posted == s.vms[v].posted
  {
    var vm, vm' := s.vms[v], AfterPost(s, t, p, v);
    EndedStream(vm, p.to);
    TargetStream(vm, t, p);
    hide StreamOk, Target, Received;
    var vm1 := vm'.(phase := vm.phase);
    assert vm'.stream == vm1.stream && vm'.queue == vm1.queue;
    if IsRefused(s, p) && t == VmThread(v) && p.what.AddMonitor? {
      SameStream(Received(vm, Ended(p.to)), vm');
    } else if !IsRefused(s, p) && v == p.to {
      SameStream(Target(vm, t, p), vm');
    } else {
      SameStream(vm, vm');
    }
  }

  lemma SameStream(vm: Vm, vm': Vm)
    requires StreamOk(vm) && vm'.stream == vm.stream && vm'.queue == vm.queue
    requires vm'.posted == vm.posted && vm'.portClosed == vm.portClosed
    ensures StreamOk(vm')
  {
  }

  lemma EndedStream(vm: Vm, dead: Id)
    requires StreamOk(vm)
    ensures StreamOk(Received(vm, Ended(dead))) && Received(vm, Ended(dead)).posted == vm.posted
  {
    if !vm.portClosed {
      ReceivedStream(vm, Ended(dead));
    }
    hide Messages, QueuedMessages;
  }

  lemma TargetStream(vm: Vm, t: Thread, p: Post)
    requires StreamOk(vm)
    ensures p.stage != InVm ==> StreamOk(Target(vm, t, p)) && Target(vm, t, p).posted == vm.posted
  {
    hide Messages, QueuedMessages;
  }

  lemma PushedStream(vm: Vm, t: Thread, p: Post)
    requires StreamOk(vm) && p.stage == InVm
    ensures StreamOk(Target(vm, t, p)) && Target(vm, t, p).posted == vm.posted + MessageOf(p.what)
  {
    QueuedMessagesPush(vm.queue, p.what);
    hide Messages, QueuedMessages;
    assert Messages(vm.stream) + (QueuedMessages(vm.queue) + MessageOf(p.what)) ==
      (Messages(vm.stream) + QueuedMessages(vm.queue)) + MessageOf(p.what);
  }

  /** The sender of a message that is about to be pushed. */
  lemma SenderIs(s: State, t: Thread)
    requires InOrder(s) && IoOk(s) && PostOf(s, t).Some? && PostOf(s, t).value.stage == InVm
    ensures var what := PostOf(s, t).value.what;
      what.Receive? && what.item.Message? ==>
        && t == VmThread(what.item.from) && what.item.from in s.vms
        && Limit(s, what.item.from) == what.item.number && what.item.number + 1 == s.vms[what.item.from].sent
  {
    WhatIsPosted(s, t);
    if t.VmThread? {
      assert SendOk(s, t.id);
    }
  }

  lemma PushedInOrder(s: State, t: Thread, v: Id)
    requires InOrder(s) && Membership(s) && IoOk(s) && CanPost(s, t) && v in s.vms
    requires PostOf(s, t).value.to == v && PostOf(s, t).value.stage == InVm
    ensures var s' := PostOn(s, t);
      v in s'.vms && StreamOk(s'.vms[v]) && Ordered(s'.vms[v].posted) && Below(s', s'.vms[v].posted)
  {
    hide Messages, QueuedMessages, PostOn, PostOf;
    var p, vm := PostOf(s, t).value, s.vms[v];
    assert StreamOk(vm) && Ordered(vm.posted) && Below(s, vm.posted);
    PushedStream(vm, t, p);
    VmAfterPost(s, t, v);
    PostAfter(s, t);
    SenderIs(s, t);
    PostOnStep(s, t);
    BelowStays(s, PostStep(t), vm.posted);
    if p.what.Receive? && p.what.item.Message? {
      var a := p.what.item.from;
      VmAfterPost(s, t, a);
      AfterPostSent(s, t, p, a);
      OrderedPush(s, PostOn(s, t), vm.posted, p.what.item);
    }
    hide Target, Ordered, Below, Limit;
  }

  lemma PostOnStep(s: State, t: Thread)
    requires CanPost(s, t)
    ensures Enabled(s, PostStep(t)) && Apply(s, PostStep(t)) == PostOn(s, t)
  {
  }

  lemma OrderedPush(s: State, s': State, posted: seq<Item>, item: Item)
    requires Ordered(posted) && Below(s, posted) && Below(s', posted) && item.Message?
    requires item.from in s.vms && Limit(s, item.from) == item.number
    requires item.from in s'.vms && item.number < Limit(s', item.from)
    ensures Ordered(posted + [item]) && Below(s', posted + [item])
  {
    hide Limit;
  }

  lemma InOrderKept(s: State, a: Action)
    requires InOrder(s) && Membership(s) && IoOk(s) && Enabled(s, a)
    ensures InOrder(Apply(s, a))
  {
    hide Limit, StreamOk, Ordered, SendOk, Below, Apply, Enabled;
    var s' := Apply(s, a);
    forall v | v in s'.vms
      ensures StreamOk(s'.vms[v]) && Ordered(s'.vms[v].posted) && Below(s', s'.vms[v].posted) && SendOk(s', v)
    {
      if a.PostStep? {
        PostOnIs(s, a);
        PostVms(s, a.t);
        InOrderPost(s, a.t, v);
        LimitGrows(s, a, v);
      } else {
        InOrderOwn(s, a, v);
      }
    }
  }

  // -------------------------------------------------------------------- over every run

  ghost predicate Inv(s: State) {
    EnvLock(s) && VmLock(s) && Membership(s) && Counted(s) && Awake(s) && InOrder(s)
  }

  lemma InvAtStart()
    ensures Inv(Start())
  {
    var s := Start();
    assert forall t :: PostOf(s, t).None?;
    assert LockOk(s, 1) && CountOk(s.vms[1]) && OpsOk(s, 1) && WaitOk(s, 1);
    assert StreamOk(s.vms[1]) && SendOk(s, 1);
  }

  lemma InvKept(s: State, a: Action)
    requires Inv(s) && Enabled(s, a)
    ensures Inv(Apply(s, a))
  {
    hide EnvLock, VmLock, Membership, Awake, InOrder, Enabled, Apply, OpsOk, CountOk, IoOk;
    EnvLockKept(s, a);
    VmLockKept(s, a);
    MembershipKept(s, a);
    CountedKept(s, a);
    AwakeKept(s, a);
    InOrderKept(s, a);
  }

  /** A run: any interleaving of enabled steps from the start. */
  ghost predicate IsRun(states: seq<State>, actions: seq<Action>) {
    && |states| == |actions| + 1 && states[0] == Start()
    && forall i | 0 <= i < |actions| :: Enabled(states[i], actions[i]) && states[i + 1] == Apply(states[i], actions[i])
  }

  lemma {:induction false} InvOverRuns(states: seq<State>, actions: seq<Action>)
    requires IsRun(states, actions)
    ensures Inv(states[|actions|])
    decreases |actions|
  {
    hide Inv, Enabled, Apply;
    var n := |actions|;
    if n == 0 {
      InvAtStart();
    } else {
      InvOverRuns(states[..n], actions[..n - 1]);
      assert states[..n][n - 1] == states[n - 1];
      InvKept(states[n - 1], actions[n - 1]);
    }
  }

  /** An operation's completion always finds the operation still counted: the count never underflows. */
  lemma ReleaseFindsOp(s: State, v: Id)
    requires Inv(s) && v in s.vms && s.vms[v].phase.Locked? && s.vms[v].queue != [] && s.vms[v].queue[0].Complete?
    ensures var vm, op := s.vms[v], s.vms[v].queue[0].op;
      (op in vm.single || op in vm.double) && Handled(vm, vm.queue[0]).count >= 0
  {
    AliveOps(s, v);
    var vm := s.vms[v];
    HandledCount(vm, PostedOp(s, v));
    QueuedOpsFirst(vm.queue);
    assert vm.queue[0].op in multiset(vm.flying) + QueuedOps(vm.queue) + PostedOp(s, v);
  }

  lemma NoneLeft(vm: Vm, posted: multiset<nat>)
    requires CountOk(vm) && Balanced(vm, posted)
    ensures vm.count == 0 <==> vm.single == {} && vm.double == {} && !vm.awaited
    ensures vm.count == 0 ==> vm.flying == {} && QueuedOps(vm.queue) == multiset{} && posted == multiset{}
  {
    if vm.count == 0 {
      assert multiset(vm.single) + multiset(vm.double) == multiset{};
      assert |multiset(vm.flying) + QueuedOps(vm.queue) + posted| == 0;
    }
  }

  /**
   * The loop ends without having been told to exactly when the VM has nothing to do, no event is
   * queued, the stream is not awaited, and none of its operations is in flight, being posted or queued.
   */
  lemma NormalExit(s: State, v: Id)
    requires Inv(s) && v in s.vms && s.vms[v].phase.Locked?
    ensures var vm, next := s.vms[v], Apply(s, Decide(v)).vms[v];
      next.phase.Left? && !next.terminating <==>
        && vm.phase.invoke == Never && vm.queue == [] && !vm.terminating
        && !vm.awaited && vm.single == {} && vm.double == {} && vm.flying == {} && PostedOp(s, v) == multiset{}
  {
    hide Inv, Balanced, CountOk, PostedOp, QueuedOps, Handled, Apply;
    InvCounts(s, v);
    DecideOne(s, v);
    NoneLeft(s.vms[v], PostedOp(s, v));
  }

  lemma InvCounts(s: State, v: Id)
    requires Inv(s) && v in s.vms && s.vms[v].phase != Gone
    ensures CountOk(s.vms[v]) && Balanced(s.vms[v], PostedOp(s, v))
  {
    hide EnvLock, VmLock, Awake, InOrder, CountOk, Balanced;
    AliveOps(s, v);
  }

  lemma DecideOne(s: State, v: Id)
    requires v in s.vms && s.vms[v].phase.Locked?
    ensures Enabled(s, Decide(v)) && v in Apply(s, Decide(v)).vms && Apply(s, Decide(v)).vms[v] == Decided(s.vms[v])
  {
    hide Decided;
  }

  /** What a stream holds: each sender's messages in sending order, none twice; and none pushed on an open VM is
      lost. */
  lemma Delivered(s: State, v: Id)
    requires Inv(s) && v in s.vms
    ensures var vm, got := s.vms[v], Messages(s.vms[v].stream);
      && got <= vm.posted
      && (forall i, j | 0 <= i < j < |got| && got[i].from == got[j].from :: got[i].number < got[j].number)
      && (!vm.portClosed ==> vm.posted == got + QueuedMessages(vm.queue))
  {
    hide EnvLock, VmLock, Membership, Counted, Awake, Messages, QueuedMessages;
    var vm, got := s.vms[v], Messages(s.vms[v].stream);
    assert StreamOk(vm) && Ordered(vm.posted);
    assert got <= vm.posted;
    forall i, j | 0 <= i < j < |got| && got[i].from == got[j].from ensures got[i].number < got[j].number {
      assert got[i] == vm.posted[i] && got[j] == vm.posted[j];
    }
  }

  // ------------------------------------------------------------------------- no deadlock

  /** Nothing is left to do but to wait for the outside: every VM that lives waits, with nothing in flight. */
  ghost predicate Quiet(s: State) {
    && s.env.None? && s.io.Idle?
    && forall v <- s.vms ::
         s.vms[v].flying == {} && (s.vms[v].phase.Gone? || (s.vms[v].phase.Waiting? && s.vms[v].queue == []))
  }

  /** While a thread holds the environment lock, it or the VM it wants the lock of can go on. */
  lemma HolderGoesOn(s: State) returns (a: Action)
    requires Inv(s) && s.env.Some?
    ensures Enabled(s, a) && !a.Wake?
  {
    var t := s.env.value;
    var p := PostOf(s, t).value;
    assert p.to in s.alive;
    if p.stage == WantVm && s.vms[p.to].lock.Some? {
      assert LockOk(s, p.to);
      a := Decide(p.to);
    } else {
      a := PostStep(t);
    }
  }

  lemma FreeToGo(s: State, v: Id)
    requires Inv(s) && s.env.None? && v in s.vms
    ensures s.vms[v].phase.Locked? || s.vms[v].lock.None?
    ensures s.vms[v].phase.Sending? || s.vms[v].phase.TellingOne? ==> CanPost(s, VmThread(v))
  {
    hide Membership, Counted, Awake, InOrder;
    assert LockOk(s, v);
  }

  /** A VM whose thread neither waits nor has ended can go on while the environment lock is free. */
  lemma VmGoesOn(s: State, v: Id) returns (a: Action)
    requires Inv(s) && s.env.None? && v in s.vms && !s.vms[v].phase.Gone? && !s.vms[v].phase.Waiting?
    ensures Enabled(s, a) && !a.Wake?
  {
    hide Inv, CanPost, PostOf;
    FreeToGo(s, v);
    var vm := s.vms[v];
    match vm.phase
    case Running => a := Return(v, Now);
    case Sending(_) => a := PostStep(VmThread(v));
    case Returned(_) => a := LockSelf(v);
    case Locked(_) => a := Decide(v);
    case Woken => a := Relock(v);
    case Left => a := ClosePort(v);
    case Telling(rest) => a := if rest == [] then Remove(v) else TellNext(v);
    case TellingOne(_, _) => a := PostStep(VmThread(v));
    case Waiting =>
    case Gone =>
  }

  /** No reachable state is stuck: some thread can take a step, or all is quiet. */
  lemma NoDeadlock(s: State) returns (a: Action)
    requires Inv(s) && !Quiet(s)
    ensures Enabled(s, a) && !a.Wake?
  {
    if s.env.Some? {
      a := HolderGoesOn(s);
    } else if s.io.Completing? {
      a := PostStep(IoThread);
      assert PostOf(s, IoThread).value.stage == WantEnv;
    } else if v :| v in s.vms && !s.vms[v].phase.Gone? && !s.vms[v].phase.Waiting? {
      a := VmGoesOn(s, v);
    } else {
      var v :| v in s.vms && !(s.vms[v].flying == {} &&
                               (s.vms[v].phase.Gone? || (s.vms[v].phase.Waiting? && s.vms[v].queue == [])));
      assert WaitOk(s, v);
      var op :| op in s.vms[v].flying;
      a := IoDone(v, op);
    }
  }

  /** When all is quiet, a VM that still waits has an alarm set or awaits its stream. */
  lemma QuietWaits(s: State, v: Id)
    requires Inv(s) && Quiet(s) && v in s.vms && s.vms[v].phase.Waiting?
    ensures s.vms[v].alarm || s.vms[v].awaited
  {
    AliveOps(s, v);
    assert WaitOk(s, v);
    var vm := s.vms[v];
    assert multiset(vm.single) + multiset(vm.double) == multiset{};
    assert vm.single == {} && vm.double == {};
  }
}
