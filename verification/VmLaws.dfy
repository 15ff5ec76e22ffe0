/**
 * What the steps of VmProtocol mean for each machine: who posts what, what comes of a post, and which steps
 * change a queue, a stream, a port, the operations, the monitors and the place in the loop.
 */
module VmLaws {
  import opened Wrappers
  import opened VmProtocol

  /** A machine after a step, from the machine before. */
  lemma VmIs(s: State, a: Action, v: Id)
    requires Inv(s) && Enabled(s, a) && v in s.vms
    ensures v in Apply(s, a).vms && s.nextId !in s.vms && s.nextId !in s.alive
    ensures a.PostStep? ==> CanPost(s, a.t)
    ensures Apply(s, a).vms[v] ==
            if a.PostStep? then AfterPost(s, a.t, PostOf(s, a.t).value, v)
            else if v == a.v then Own(s, a) else s.vms[v]
  {
    hide EnvLock, VmLock, Counted, Awake, InOrder, Own, AfterPost, PostOf, Apply, Enabled, PostOn;
    NextIsNew(s);
    if a.PostStep? {
      PostOnIs(s, a);
      VmAfterPost(s, a.t, v);
    } else {
      VmsAfter(s, a);
    }
  }

  /** What a step of a post leaves to any machine. */
  ghost predicate Unmoved(vm: Vm, vm': Vm) {
    && vm'.portClosed == vm.portClosed && vm'.asked == vm.asked && vm'.awaited == vm.awaited && vm'.sent == vm.sent
    && vm'.count == vm.count && vm'.single == vm.single && vm'.double == vm.double && vm'.flying == vm.flying
    && vm'.monitors == vm.monitors && vm'.terminating == vm.terminating && vm'.alarm == vm.alarm
  }

  lemma PostLeaves(s: State, t: Thread, p: Post, v: Id)
    requires v in s.vms
    ensures Unmoved(s.vms[v], AfterPost(s, t, p, v))
    ensures AfterPost(s, t, p, v).queue == s.vms[v].queue + if v == p.to && p.stage == InVm then [p.what] else []
  {
    TargetLeaves(s.vms[v], t, p);
    hide Target;
  }

  lemma TargetLeaves(vm: Vm, t: Thread, p: Post)
    ensures Unmoved(vm, Target(vm, t, p))
    ensures Target(vm, t, p).queue == vm.queue + if p.stage == InVm then [p.what] else []
  {
    match p.stage
    case WantEnv =>
    case WantVm =>
    case InVm =>
    case Owing =>
  }

  // -------------------------------------------------------------------------------- posts

  /** The event that a thread is about to post to a machine. */
  predicate IsPosting(s: State, t: Thread, to: Id, what: Callback) {
    PostOf(s, t) == Some(Post(to, what, WantEnv))
  }

  /** sendOnVMPort: a message with the next number is posted to a machine that lives with its port open. */
  lemma SendStarts(s: State, v: Id, to: Id)
    requires Inv(s) && Enabled(s, Send(v, to))
    ensures v in s.vms
    ensures to in s.alive ==> to in s.vms
    ensures to in s.alive && !s.vms[to].portClosed ==>
      && var phase := Sending(Post(to, Receive(Message(v, s.vms[v].sent)), WantEnv));
      Apply(s, Send(v, to)) == s.(vms := s.vms[v := s.vms[v].(sent := s.vms[v].sent + 1, phase := phase)])
    ensures !(to in s.alive && !s.vms[to].portClosed) ==> Apply(s, Send(v, to)) == s
  {
    hide EnvLock, VmLock, Counted, Awake, InOrder;
    assert s.vms[v := s.vms[v]] == s.vms;
  }

  /** What each step that is not part of a post starts to post. */
  lemma PostStarts(s: State, a: Action)
    requires Inv(s) && Enabled(s, a) && !a.PostStep?
    ensures a.v in s.vms
    ensures var (s', t) := (Apply(s, a), Actor(a));
      match a
      case Send(v, to) =>
        if to in s.alive && to in s.vms && !s.vms[to].portClosed
        then IsPosting(s', t, to, Receive(Message(v, s.vms[v].sent))) else PostOf(s', t) == None
      case Kill(_, to) => IsPosting(s', t, to, Terminate)
      case Monitor(v, to) => IsPosting(s', t, to, AddMonitor(v))
      case IoDone(v, op) => IsPosting(s', t, v, Complete(op))
      case TellNext(v) => IsPosting(s', t, s.vms[v].phase.rest[0], Receive(Ended(v)))
      case _ => PostOf(s', t) == None
  {
    hide Inv, Decided;
    VmsAfterOwn(s, a);
    StartsPost(s, a);
    if a.Decide? { NoPostDecided(s.vms[a.v]); }
  }

  lemma VmsAfterOwn(s: State, a: Action)
    requires Inv(s) && Enabled(s, a) && !a.PostStep?
    ensures a.v in s.vms && a.v in Apply(s, a).vms && Apply(s, a).vms[a.v] == Own(s, a)
  {
    hide Inv, Own, Apply;
    assert a.v in s.vms;
    VmIs(s, a, a.v);
  }

  lemma NoPostDecided(vm: Vm)
    requires vm.phase.Locked?
    ensures var p := Decided(vm).phase; !p.Sending? && !p.TellingOne?
  {
  }

  /** When a post can go on: for the environment, then for the target, and then at once. */
  lemma PostGoesOn(s: State, t: Thread)
    requires Inv(s) && PostOf(s, t).Some?
    ensures var p := PostOf(s, t).value;
      CanPost(s, t) <==>
        match p.stage
        case WantEnv => s.env.None?
        case WantVm => p.to in s.vms && s.vms[p.to].lock.None?
        case _ => true
    ensures PostOf(s, t).value.stage != WantEnv ==> PostOf(s, t).value.to in s.alive
  {
    hide VmLock, Counted, Awake, InOrder;
  }

  // ------------------------------------------------------------------------------- queues

  /** What a step pushes on the queue of a machine, and what it takes from it. */
  function PushedBy(s: State, a: Action, v: Id): seq<Callback> {
    if a.PostStep? && PostOf(s, a.t).Some? && PostOf(s, a.t).value.to == v && PostOf(s, a.t).value.stage == InVm
    then [PostOf(s, a.t).value.what] else []
  }

  function TakenBy(s: State, a: Action, v: Id): seq<Callback> {
    if a == Decide(v) && v in s.vms && s.vms[v].queue != [] then [s.vms[v].queue[0]] else []
  }

  /** A machine runs the callback at the head of its queue. */
  predicate Takes(s: State, a: Action, v: Id, c: Callback) {
    a == Decide(v) && v in s.vms && s.vms[v].queue != [] && s.vms[v].queue[0] == c
  }

  lemma QueueChanges(s: State, a: Action, v: Id)
    requires Inv(s) && Enabled(s, a) && v in s.vms
    ensures v in Apply(s, a).vms
    ensures s.vms[v].queue + PushedBy(s, a, v) == TakenBy(s, a, v) + Apply(s, a).vms[v].queue
  {
    hide Inv, Apply, PostOf, Own, AfterPost, Decided, Enabled;
    VmIs(s, a, v);
    if a.PostStep? {
      CanPostIs(s, a.t);
      PostLeaves(s, a.t, PostOf(s, a.t).value, v);
    } else {
      OwnQueue(s, a);
    }
  }

  lemma CanPostIs(s: State, t: Thread)
    requires CanPost(s, t)
    ensures PostOf(s, t).Some?
  {
  }

  lemma OwnQueue(s: State, a: Action)
    requires Enabled(s, a) && !a.PostStep?
    ensures a.v in s.vms
    ensures TakenBy(s, a, a.v) + Own(s, a).queue == s.vms[a.v].queue
  {
    hide Decided;
    if a.Decide? {
      DecidedQueue(s.vms[a.v]);
    }
  }

  lemma DecidedQueue(vm: Vm)
    requires vm.phase.Locked?
    ensures Decided(vm).queue == if vm.queue == [] then [] else vm.queue[1..]
  {
  }

  /** Some steps of a run. */
  ghost predicate AreSteps(states: seq<State>, actions: seq<Action>) {
    && |states| == |actions| + 1 && Inv(states[0])
    && forall i | 0 <= i < |actions| :: Enabled(states[i], actions[i]) && states[i + 1] == Apply(states[i], actions[i])
  }

  lemma StepsRest(states: seq<State>, actions: seq<Action>)
    requires AreSteps(states, actions) && actions != []
    ensures Enabled(states[0], actions[0]) && states[1] == Apply(states[0], actions[0])
    ensures AreSteps(states[1..], actions[1..])
  {
    hide Inv, Enabled, Apply;
    InvKept(states[0], actions[0]);
    var (ss, aa) := (states[1..], actions[1..]);
    forall i | 0 <= i < |aa| ensures Enabled(ss[i], aa[i]) && ss[i + 1] == Apply(ss[i], aa[i]) {
      assert ss[i] == states[i + 1] && aa[i] == actions[i + 1] && ss[i + 1] == states[i + 2];
    }
  }

  ghost function Pushed(states: seq<State>, actions: seq<Action>, v: Id): seq<Callback>
    requires |states| == |actions| + 1
  {
    if actions == [] then [] else PushedBy(states[0], actions[0], v) + Pushed(states[1..], actions[1..], v)
  }

  ghost function Taken(states: seq<State>, actions: seq<Action>, v: Id): seq<Callback>
    requires |states| == |actions| + 1
  {
    if actions == [] then [] else TakenBy(states[0], actions[0], v) + Taken(states[1..], actions[1..], v)
  }

  /** Events are handled in the order in which they are pushed, each once: the queue is what is left. */
  lemma {:induction false} FirstInFirstOut(states: seq<State>, actions: seq<Action>, v: Id)
    requires AreSteps(states, actions) && v in states[0].vms
    ensures v in states[|actions|].vms
    ensures states[0].vms[v].queue + Pushed(states, actions, v) ==
            Taken(states, actions, v) + states[|actions|].vms[v].queue
    decreases |actions|
  {
    hide Inv, Enabled, Apply, PushedBy, TakenBy;
    if actions != [] {
      StepsRest(states, actions);
      assert Enabled(states[0], actions[0]);
      QueueChanges(states[0], actions[0], v);
      FirstInFirstOut(states[1..], actions[1..], v);
      assert states[1..][|actions| - 1] == states[|actions|];
      Shift(states[0].vms[v].queue, PushedBy(states[0], actions[0], v), Pushed(states[1..], actions[1..], v),
            TakenBy(states[0], actions[0], v), states[1].vms[v].queue, Taken(states[1..], actions[1..], v),
            states[|actions|].vms[v].queue);
    }
  }

  lemma Shift<T>(q: seq<T>, push: seq<T>, pushes: seq<T>, take: seq<T>, q1: seq<T>, takes: seq<T>, last: seq<T>)
    requires q + push == take + q1 && q1 + pushes == takes + last
    ensures q + (push + pushes) == (take + takes) + last
  {
    assert q + (push + pushes) == (q + push) + pushes == take + (q1 + pushes) == (take + takes) + last;
  }

  // ------------------------------------------------------------------- what comes of a post

  datatype Event = Event(to: Id, what: Callback)

  /** The events that a thread pushes. */
  ghost function PushesOf(states: seq<State>, actions: seq<Action>, t: Thread): seq<Event>
    requires |states| == |actions| + 1
  {
    if actions == [] then [] else PushOf(states[0], actions[0], t) + PushesOf(states[1..], actions[1..], t)
  }

  ghost function PushOf(s: State, a: Action, t: Thread): seq<Event> {
    if a == PostStep(t) && PostOf(s, t).Some? && PostOf(s, t).value.stage == InVm
    then [Event(PostOf(s, t).value.to, PostOf(s, t).value.what)] else []
  }

  /** The thread finds no machine to post to. */
  ghost predicate FindsNone(s: State, a: Action, t: Thread) {
    a == PostStep(t) && PostOf(s, t).Some? && PostOf(s, t).value.stage == WantEnv && PostOf(s, t).value.to !in s.alive
  }

  lemma PostMoves(s: State, a: Action, t: Thread)
    requires Inv(s) && Enabled(s, a) && PostOf(s, t).Some?
    ensures var (p, p') := (PostOf(s, t).value, PostOf(Apply(s, a), t));
      if a != PostStep(t) then p' == Some(p)
      else
        match p.stage
        case WantEnv => p' == if p.to in s.alive then Some(p.(stage := WantVm)) else None
        case WantVm => p' == Some(p.(stage := InVm))
        case InVm => p' == Some(p.(stage := Owing))
        case Owing => p' == None
  {
    hide EnvLock, VmLock, Counted, Awake, InOrder, PostOf, PostOn;
    NextIsNew(s);
    if a == PostStep(t) {
      PostOnIs(s, a);
      PostAfter(s, t);
    } else if t == Actor(a) {
      StartsPost(s, a);
    } else {
      OthersPost(s, a, t);
    }
  }

  /** A post that is over has pushed its event once, on the queue of its target; or there was no such machine when
      the thread looked for it, and it has pushed nothing. */
  lemma {:induction false} PostEnds(states: seq<State>, actions: seq<Action>, t: Thread)
    requires AreSteps(states, actions) && PostOf(states[|actions|], t) == None
    requires forall i | 0 <= i < |actions| :: PostOf(states[i], t).Some?
    requires actions != []
    ensures var (p, pushes) := (PostOf(states[0], t).value, PushesOf(states, actions, t));
      var lost := exists i | 0 <= i < |actions| :: FindsNone(states[i], actions[i], t);
      && pushes == (if p.stage == Owing || lost then [] else [Event(p.to, p.what)])
      && (lost ==> p.stage == WantEnv)
    decreases |actions|
  {
    hide Inv, Enabled, Apply, PostOf;
    var (s, a, ss, aa) := (states[0], actions[0], states[1..], actions[1..]);
    StepsRest(states, actions);
    PostMoves(s, a, t);
    forall i | 0 <= i < |aa| ensures PostOf(ss[i], t).Some? { assert ss[i] == states[i + 1]; }
    assert ss[|aa|] == states[|actions|];
    LostLater(states, actions, t);
    if aa != [] {
      PostEnds(ss, aa, t);
      assert PostOf(ss[0], t).Some?;
    } else {
      assert states[1] == states[|actions|];
    }
  }

  lemma LostLater(states: seq<State>, actions: seq<Action>, t: Thread)
    requires |states| == |actions| + 1 && actions != []
    ensures (exists i | 0 <= i < |actions| :: FindsNone(states[i], actions[i], t)) <==>
      FindsNone(states[0], actions[0], t) ||
      exists i | 0 <= i < |actions[1..]| :: FindsNone(states[1..][i], actions[1..][i], t)
  {
    hide FindsNone;
    if i :| 0 <= i < |actions| && FindsNone(states[i], actions[i], t) {
      assert i > 0 ==> states[1..][i - 1] == states[i] && actions[1..][i - 1] == actions[i];
    }
    if i :| 0 <= i < |actions[1..]| && FindsNone(states[1..][i], actions[1..][i], t) {
      assert states[1..][i] == states[i + 1] && actions[1..][i] == actions[i + 1];
    }
  }

  // ------------------------------------------------------------------- streams and ports

  /** A machine asks to be told of the end of one that is not there. */
  ghost predicate TooLate(s: State, a: Action, v: Id, dead: Id) {
    a == PostStep(VmThread(v)) && dead !in s.alive && exists m :: IsPosting(s, VmThread(v), dead, AddMonitor(m))
  }

  /** A stream grows by what a callback receives, or by the end of a machine that was to be monitored: only while the
      port is open. */
  lemma StreamChanges(s: State, a: Action, v: Id)
    requires Inv(s) && Enabled(s, a) && v in s.vms
    ensures v in Apply(s, a).vms
    ensures var (vm, stream) := (s.vms[v], Apply(s, a).vms[v].stream);
      && (forall item | Takes(s, a, v, Receive(item)) && !vm.portClosed :: stream == vm.stream + [item])
      && (forall dead | TooLate(s, a, v, dead) && !vm.portClosed :: stream == vm.stream + [Ended(dead)])
      && ((forall item :: !Takes(s, a, v, Receive(item))) && (forall dead :: !TooLate(s, a, v, dead)) ==>
            stream == vm.stream)
      && (vm.portClosed ==> stream == vm.stream)
  {
    hide Inv, Apply, PostOf, Own, AfterPost, Decided, Enabled, TooLate;
    VmIs(s, a, v);
    if a.PostStep? {
      CanPostIs(s, a.t);
      StreamPosted(s, a.t, v);
      var p := PostOf(s, a.t).value;
      assert TooLate(s, a, v, p.to) <==> IsRefused(s, p) && a.t == VmThread(v) && p.what.AddMonitor?;
    } else {
      OwnStreamIs(s, a);
      NotTooLate(s, a, v);
      Taking(s, a, v);
    }
  }

  lemma NotTooLate(s: State, a: Action, v: Id)
    requires !a.PostStep?
    ensures forall dead :: !TooLate(s, a, v, dead)
  {
  }

  lemma Taking(s: State, a: Action, v: Id)
    ensures TakenBy(s, a, v) != [] && TakenBy(s, a, v)[0].Receive? ==> Takes(s, a, v, Receive(TakenBy(s, a, v)[0].item))
    ensures TakenBy(s, a, v) != [] && TakenBy(s, a, v)[0].AddMonitor? ==>
      Takes(s, a, v, AddMonitor(TakenBy(s, a, v)[0].monitor))
  {
  }

  lemma OwnStreamIs(s: State, a: Action)
    requires Enabled(s, a) && !a.PostStep?
    ensures a.v in s.vms
    ensures Own(s, a).stream ==
      var (vm, taken) := (s.vms[a.v], TakenBy(s, a, a.v));
      if taken != [] && taken[0].Receive? && !vm.portClosed then vm.stream + [taken[0].item] else vm.stream
  {
    hide Decided;
    if a.Decide? {
      StreamDecided(s.vms[a.v]);
    }
  }

  lemma StreamPosted(s: State, t: Thread, v: Id)
    requires v in s.vms && PostOf(s, t).Some?
    ensures var (p, vm, a) := (PostOf(s, t).value, s.vms[v], PostStep(t));
      AfterPost(s, t, p, v).stream ==
        if IsRefused(s, p) && t == VmThread(v) && p.what.AddMonitor? && !vm.portClosed
        then vm.stream + [Ended(p.to)] else vm.stream
    ensures var p := PostOf(s, t).value;
      forall dead :: TooLate(s, PostStep(t), v, dead) <==>
        IsRefused(s, p) && t == VmThread(v) && p.what.AddMonitor? && dead == p.to
  {
    var p := PostOf(s, t).value;
    if p.what.AddMonitor? && IsRefused(s, p) && t == VmThread(v) {
      assert IsPosting(s, t, p.to, AddMonitor(p.what.monitor));
    }
    hide PostOf;
  }

  lemma StreamDecided(vm: Vm)
    requires vm.phase.Locked?
    ensures Decided(vm).stream ==
      if vm.queue != [] && vm.queue[0].Receive? && !vm.portClosed then vm.stream + [vm.queue[0].item] else vm.stream
  {
    if vm.queue != [] {
      HandledStreamIs(vm, vm.queue[0]);
      hide Handled;
    }
  }

  lemma HandledStreamIs(vm: Vm, c: Callback)
    ensures Handled(vm, c).stream == if c.Receive? && !vm.portClosed then vm.stream + [c.item] else vm.stream
  {
  }

  /** The port closes with closeStream or at the end, and never opens again; the stream is awaited from the first
      getStream to closeStream. */
  lemma PortChanges(s: State, a: Action, v: Id)
    requires Inv(s) && Enabled(s, a) && v in s.vms
    ensures v in Apply(s, a).vms
    ensures var (vm, vm') := (s.vms[v], Apply(s, a).vms[v]);
      && (vm'.portClosed <==> vm.portClosed || a == CloseStream(v) || a == ClosePort(v))
      && (vm'.asked <==> vm.asked || a == GetStream(v))
      && (vm'.awaited <==> if vm.awaited then a != CloseStream(v) || vm.portClosed else a == GetStream(v) && !vm.asked)
  {
    hide Inv, Apply, PostOf, Own, AfterPost, Decided, Enabled;
    VmIs(s, a, v);
    if a.PostStep? {
      PostLeaves(s, a.t, PostOf(s, a.t).value, v);
    } else if a.v == v {
      InvCountOk(s, v);
      OwnPort(s, a);
    }
  }

  lemma OwnPort(s: State, a: Action)
    requires Enabled(s, a) && !a.PostStep? && a.v in s.vms && CountOk(s.vms[a.v])
    ensures var (vm, vm', v) := (s.vms[a.v], Own(s, a), a.v);
      && (vm'.portClosed <==> vm.portClosed || a == CloseStream(v) || a == ClosePort(v))
      && (vm'.asked <==> vm.asked || a == GetStream(v))
      && (vm'.awaited <==> if vm.awaited then a != CloseStream(v) || vm.portClosed else a == GetStream(v) && !vm.asked)
  {
    hide Decided;
    if a.Decide? {
      DecidedRest(s.vms[a.v]);
    }
  }

  lemma InvCountOk(s: State, v: Id)
    requires Inv(s) && v in s.vms
    ensures CountOk(s.vms[v])
  {
    hide EnvLock, VmLock, Awake, InOrder, CountOk;
  }

  lemma DecidedRest(vm: Vm)
    requires vm.phase.Locked?
    ensures vm.queue == [] ==> var d := Decided(vm); Unmoved(vm, d.(alarm := vm.alarm))
    ensures vm.queue != [] ==> HandledAs(vm, vm.queue[0], Decided(vm))
  {
    if vm.queue != [] {
      HandledIs(vm, vm.queue[0]);
      hide Handled;
    }
  }

  /** What running a callback does, its stream apart. */
  ghost predicate HandledAs(vm: Vm, c: Callback, d: Vm) {
    && d.portClosed == vm.portClosed && d.asked == vm.asked && d.awaited == vm.awaited && d.sent == vm.sent
    && d.flying == vm.flying && d.alarm == vm.alarm
    && (!c.Complete? ==> d.count == vm.count && d.single == vm.single && d.double == vm.double)
    && (c.Complete? ==> d.single == vm.single - {c.op} && d.double == vm.double - {c.op})
    && d.monitors == (if c.AddMonitor? then vm.monitors + [c.monitor] else vm.monitors)
    && (d.terminating <==> vm.terminating || c.Terminate?)
  }

  lemma HandledIs(vm: Vm, c: Callback)
    ensures HandledAs(vm, c, Handled(vm, c))
  {
  }

  // ------------------------------------------------------------ operations, monitors, messages

  /** An operation flies from its start to its completion by the I/O, and is counted until the callback is run. */
  lemma OpsChange(s: State, a: Action, v: Id, op: nat)
    requires Inv(s) && Enabled(s, a) && v in s.vms
    ensures v in Apply(s, a).vms
    ensures var (vm, vm') := (s.vms[v], Apply(s, a).vms[v]);
      && (op in vm'.flying <==>
            if op in vm.flying then a != IoDone(v, op)
              else op == s.nextOp && a in {StartOp(v, true), StartOp(v, false)})
      && (op in vm'.single <==>
            if op in vm.single then !Takes(s, a, v, Complete(op)) else a == StartOp(v, false) && op == s.nextOp)
      && (op in vm'.double <==>
            if op in vm.double then !Takes(s, a, v, Complete(op)) else a == StartOp(v, true) && op == s.nextOp)
    ensures Apply(s, a).nextOp == if a.StartOp? then s.nextOp + 1 else s.nextOp
  {
    hide Inv, Apply, PostOf, Own, AfterPost, Decided, Enabled;
    NextOp(s, a);
    VmIs(s, a, v);
    if a.PostStep? {
      PostLeaves(s, a.t, PostOf(s, a.t).value, v);
    } else if a.v == v {
      OwnOpsChange(s, a, op);
      OwnFlies(s, a, op);
    }
  }

  lemma NextOp(s: State, a: Action)
    requires Enabled(s, a)
    ensures Apply(s, a).nextOp == if a.StartOp? then s.nextOp + 1 else s.nextOp
  {
    if a.PostStep? { PostVms(s, a.t); }
    hide Own, PostOn;
  }

  lemma OwnFlies(s: State, a: Action, op: nat)
    requires Enabled(s, a) && !a.PostStep? && a.v in s.vms
    ensures var (vm, vm', v) := (s.vms[a.v], Own(s, a), a.v);
      op in vm'.flying <==>
        if op in vm.flying then a != IoDone(v, op) else op == s.nextOp && a in {StartOp(v, true), StartOp(v, false)}
  {
    hide Decided;
    if a.Decide? {
      DecidedRest(s.vms[a.v]);
    }
  }

  lemma OwnOpsChange(s: State, a: Action, op: nat)
    requires Enabled(s, a) && !a.PostStep? && a.v in s.vms
    ensures var (vm, vm', v) := (s.vms[a.v], Own(s, a), a.v);
      && (op in vm'.single <==>
            if op in vm.single then !Takes(s, a, v, Complete(op)) else a == StartOp(v, false) && op == s.nextOp)
      && (op in vm'.double <==>
            if op in vm.double then !Takes(s, a, v, Complete(op)) else a == StartOp(v, true) && op == s.nextOp)
  {
    hide Decided;
    if a.Decide? {
      DecidedRest(s.vms[a.v]);
    }
  }

  /** A machine is monitored, told to end, and numbers its messages, as follows. */
  lemma TalkChanges(s: State, a: Action, v: Id)
    requires Inv(s) && Enabled(s, a) && v in s.vms
    ensures v in Apply(s, a).vms
    ensures var (vm, vm') := (s.vms[v], Apply(s, a).vms[v]);
      && (forall m | Takes(s, a, v, AddMonitor(m)) :: vm'.monitors == vm.monitors + [m])
      && ((forall m :: !Takes(s, a, v, AddMonitor(m))) ==> vm'.monitors == vm.monitors)
      && (vm'.terminating <==> vm.terminating || Takes(s, a, v, Terminate))
      && (vm'.sent == vm.sent + if a.Send? && a.v == v && PostOf(Apply(s, a), VmThread(v)).Some? then 1 else 0)
  {
    hide Inv, Apply, PostOf, Own, AfterPost, Decided, Enabled;
    VmIs(s, a, v);
    if a.PostStep? {
      PostLeaves(s, a.t, PostOf(s, a.t).value, v);
    } else if a.v == v {
      OwnTalk(s, a);
      Taking(s, a, v);
      if a.Send? { SendCounts(s, a); }
    }
  }

  lemma SendCounts(s: State, a: Action)
    requires Inv(s) && Enabled(s, a) && a.Send? && a.v in s.vms
    ensures Own(s, a).sent == s.vms[a.v].sent + if PostOf(Apply(s, a), VmThread(a.v)).Some? then 1 else 0
  {
    hide EnvLock, VmLock, Counted, Awake, InOrder;
  }

  lemma OwnTalk(s: State, a: Action)
    requires Enabled(s, a) && !a.PostStep? && a.v in s.vms
    ensures var (vm, vm', taken) := (s.vms[a.v], Own(s, a), TakenBy(s, a, a.v));
      && vm'.monitors == (if taken != [] && taken[0].AddMonitor? then vm.monitors + [taken[0].monitor] else vm.monitors)
      && (vm'.terminating <==> vm.terminating || taken == [Terminate])
      && (!a.Send? ==> vm'.sent == vm.sent)
  {
    hide Decided;
    if a.Decide? {
      DecidedRest(s.vms[a.v]);
    }
  }

  /** Machines are found from their creation to their removal; a new one runs, monitored by its creator. */
  lemma MembersChange(s: State, a: Action)
    requires Inv(s) && Enabled(s, a)
    ensures var s' := Apply(s, a);
      && (forall v :: v in s'.alive <==> if v in s.alive then a != Remove(v) else a.Create? && v == s.nextId)
      && s'.nextId == (if a.Create? then s.nextId + 1 else s.nextId)
      && s'.vms.Keys == s.vms.Keys + (if a.Create? then {s.nextId} else {})
      && (a.Create? ==>
            && var vm := s'.vms[s.nextId];
            && vm.phase == Running && vm.queue == [] && vm.stream == [] && vm.monitors == [a.v] && vm.count == 0
            && !vm.asked && !vm.portClosed && !vm.terminating && vm.sent == 0 && vm.lock == None)
  {
    if a.PostStep? {
      PostOnIs(s, a);
      PostVms(s, a.t);
    } else {
      VmsAfter(s, a);
      assert a.v in s.vms;
      VmIs(s, a, a.v);
    }
    hide Inv, Own, PostOn, PostOf;
  }

  // ----------------------------------------------------------------------------- the loop

  /** A machine's own steps around its loop. */
  lemma LoopGoesOn(s: State, a: Action)
    requires Inv(s) && Enabled(s, a) && !a.PostStep? && a.v in s.vms
    ensures a.v in Apply(s, a).vms
    ensures var (vm, vm') := (s.vms[a.v], Apply(s, a).vms[a.v]);
      match a
      case Return(_, invoke) => vm'.phase == Returned(invoke)
      case LockSelf(_) => vm.phase.Returned? && vm'.phase == Locked(vm.phase.invoke)
      case Decide(_) =>
        && vm.phase.Locked?
        && (vm.queue != [] ==> vm'.phase == if vm'.terminating then Left else Locked(Now))
        && (vm.queue == [] ==>
              match vm.phase.invoke
              case Never => if vm.count == 0 then vm'.phase == Left else vm'.phase == Waiting && !vm'.alarm
              case Later => vm'.phase == Waiting && vm'.alarm
              case Now => vm'.phase == Running)
      case Wake(_) => vm'.phase == Woken
      case Relock(_) => vm'.phase == Running
      case Crash(_) => vm'.phase == Left && vm'.queue == vm.queue && vm'.stream == vm.stream
      case ClosePort(_) => vm'.phase == Telling(vm.monitors)
      case TellNext(_) => vm'.phase.TellingOne? && vm'.phase.rest == vm.phase.rest[1..]
      case Remove(_) => vm'.phase == Gone
      case IoDone(_, _) => vm'.phase == vm.phase
      case _ => vm'.phase.Running? || vm'.phase.Sending?
  {
    hide Inv, Apply, PostOf, Decided, Enabled;
    VmIs(s, a, a.v);
    EnabledAt(s, a);
    if a.Decide? {
      DecidedLoop(s.vms[a.v]);
    }
  }

  lemma EnabledAt(s: State, a: Action)
    requires Enabled(s, a) && !a.PostStep?
    ensures a.v in s.vms
    ensures var phase := s.vms[a.v].phase;
      && (a.LockSelf? ==> phase.Returned?) && (a.Decide? ==> phase.Locked?)
      && (a.TellNext? ==> phase.Telling? && phase.rest != []) && (a.Send? ==> phase.Running?)
      && (a.Crash? && phase.Locked? ==> s.vms[a.v].queue != [])
      && (a.StartOp? || a.GetStream? || a.CloseStream? || a.Create? ==> phase.Running?)
  {
  }

  lemma DecidedLoop(vm: Vm)
    requires vm.phase.Locked?
    ensures var vm' := Decided(vm);
      && (vm.queue != [] ==> vm'.phase == if vm'.terminating then Left else Locked(Now))
      && (vm.queue == [] ==>
            match vm.phase.invoke
            case Never => if vm.count == 0 then vm'.phase == Left else vm'.phase == Waiting && !vm'.alarm
            case Later => vm'.phase == Waiting && vm'.alarm
            case Now => vm'.phase == Running)
  {
  }

  /** What the steps of others do to a machine in its loop: the notification of a post wakes one that waits. */
  lemma OthersLeaveLoop(s: State, a: Action, v: Id)
    requires Inv(s) && Enabled(s, a) && v in s.vms && (a.PostStep? || a.v != v)
    ensures v in Apply(s, a).vms
    ensures var (vm, vm') := (s.vms[v], Apply(s, a).vms[v]);
      if vm.phase.Waiting? then
        vm'.phase == if a.PostStep? && PostsAt(s, a.t, v, Owing) then Woken else Waiting
      else if a == PostStep(VmThread(v)) then
        && (vm'.phase.Sending? || vm'.phase.Running? <==> vm.phase.Sending?)
        && (vm'.phase.TellingOne? || vm'.phase.Telling? <==> vm.phase.TellingOne?)
        && (vm.phase.TellingOne? ==> vm'.phase.rest == vm.phase.rest)
      else vm'.phase == vm.phase
    ensures var (vm, vm') := (s.vms[v], Apply(s, a).vms[v]); vm'.alarm == vm.alarm
  {
    hide Inv, Apply, PostOf, AfterPost, Enabled, Own;
    VmIs(s, a, v);
    if a.PostStep? {
      CanPostIs(s, a.t);
      var p := PostOf(s, a.t).value;
      PostLeaves(s, a.t, p, v);
      if a.t == VmThread(v) { PhaseOfPost(s, v); }
      PhasePosted(s, a.t, p, v);
    }
  }

  lemma PhasePosted(s: State, t: Thread, p: Post, v: Id)
    requires v in s.vms && (t == VmThread(v) ==> s.vms[v].phase.Sending? || s.vms[v].phase.TellingOne?)
    ensures var (phase, phase') := (s.vms[v].phase, AfterPost(s, t, p, v).phase);
      if t == VmThread(v) then phase' == PhaseAfter(phase, NextPost(s, p))
      else phase' == if phase.Waiting? && v == p.to && p.stage == Owing then Woken else phase
  {
  }

  lemma PhaseOfPost(s: State, v: Id)
    requires v in s.vms && PostOf(s, VmThread(v)).Some?
    ensures s.vms[v].phase.Sending? || s.vms[v].phase.TellingOne?
  {
  }

  /** What a machine can do: anything while it runs, and the next step of its loop otherwise. */
  lemma CanGoOn(s: State, v: Id)
    requires Inv(s) && v in s.vms
    ensures var (vm, running) := (s.vms[v], s.vms[v].phase.Running?);
      && (forall two :: Enabled(s, StartOp(v, two)) <==> running)
      && (Enabled(s, GetStream(v)) <==> running) && (Enabled(s, CloseStream(v)) <==> running)
      && (Enabled(s, Create(v)) <==> running && s.env.None?)
      && (forall to :: Enabled(s, Send(v, to)) <==> running && s.env.None?)
      && (forall to :: Enabled(s, Kill(v, to)) <==> running)
      && (forall to :: Enabled(s, Monitor(v, to)) <==> running && to != v)
      && (forall invoke :: Enabled(s, Return(v, invoke)) <==> running)
      && (Enabled(s, Crash(v)) <==> running || (vm.phase.Locked? && vm.queue != []))
      && (forall op :: Enabled(s, IoDone(v, op)) <==> s.io.Idle? && op in vm.flying)
      && (Enabled(s, LockSelf(v)) <==> vm.phase.Returned? && vm.lock.None?)
      && (Enabled(s, Decide(v)) <==> vm.phase.Locked?) && (Enabled(s, Wake(v)) <==> vm.phase.Waiting?)
      && (Enabled(s, Relock(v)) <==> vm.phase.Woken? && vm.lock.None?)
      && (Enabled(s, ClosePort(v)) <==> vm.phase.Left?)
      && (Enabled(s, TellNext(v)) <==> vm.phase.Telling? && vm.phase.rest != [])
      && (Enabled(s, Remove(v)) <==> vm.phase == Telling([]) && s.env.None?)
  {
    hide Inv;
  }

  // -------------------------------------------------------------- from the sender to the stream

  lemma PostedChanges(s: State, a: Action, v: Id)
    requires Inv(s) && Enabled(s, a) && v in s.vms
    ensures v in Apply(s, a).vms
    ensures Apply(s, a).vms[v].posted == s.vms[v].posted + QueuedMessages(PushedBy(s, a, v))
  {
    hide EnvLock, VmLock, Counted, Awake, Apply, PostOf, Own, AfterPost, Enabled, StreamOk, Ordered, SendOk, Below;
    VmIs(s, a, v);
    assert StreamOk(s.vms[v]);
    if a.PostStep? {
      CanPostIs(s, a.t);
      PostedOnPost(s, a.t, PostOf(s, a.t).value, v);
    } else {
      PostedByOwn(s, a, v);
    }
  }

  lemma PostedOnPost(s: State, t: Thread, p: Post, v: Id)
    requires v in s.vms
    ensures AfterPost(s, t, p, v).posted ==
      s.vms[v].posted + if v == p.to && p.stage == InVm then QueuedMessages([p.what]) else []
  {
    TargetPosted(s.vms[v], t, p);
    hide Target, QueuedMessages;
  }

  lemma TargetPosted(vm: Vm, t: Thread, p: Post)
    ensures Target(vm, t, p).posted == vm.posted + if p.stage == InVm then QueuedMessages([p.what]) else []
  {
    assert QueuedMessages([p.what]) == MessageOf(p.what) + QueuedMessages([]);
    match p.stage
    case WantEnv =>
    case WantVm =>
    case InVm =>
    case Owing =>
  }

  lemma PostedByOwn(s: State, a: Action, v: Id)
    requires Inv(s) && Enabled(s, a) && !a.PostStep? && v in s.vms && StreamOk(s.vms[v])
    ensures v == a.v ==> Own(s, a).posted == s.vms[v].posted
  {
    hide Inv, StreamOk;
    if v == a.v {
      OwnStream(s, a);
    }
  }

  /** A machine that lives has lived since it was made. */
  lemma {:induction false} AliveBefore(states: seq<State>, actions: seq<Action>, v: Id)
    requires AreSteps(states, actions) && v in states[0].vms
    ensures forall i | 0 <= i <= |actions| :: v in states[i].vms
    ensures v in states[|actions|].alive ==> forall i | 0 <= i <= |actions| :: v in states[i].alive
    decreases |actions|
  {
    hide Inv, Enabled, Apply;
    if actions != [] {
      StepsRest(states, actions);
      MembersChange(states[0], actions[0]);
      VmIs(states[0], actions[0], v);
      AliveBefore(states[1..], actions[1..], v);
      assert states[1..][|actions| - 1] == states[|actions|] && states[1..][0] == states[1];
      forall i | 0 <= i <= |actions|
        ensures v in states[i].vms && (v in states[|actions|].alive ==> v in states[i].alive)
      {
        assert i > 0 ==> states[i] == states[1..][i - 1];
      }
    }
  }

  /** What has been pushed stays pushed. */
  lemma {:induction false} PostedGrows(states: seq<State>, actions: seq<Action>, v: Id)
    requires AreSteps(states, actions) && v in states[0].vms
    ensures v in states[|actions|].vms && states[0].vms[v].posted <= states[|actions|].vms[v].posted
    decreases |actions|
  {
    hide Inv, Enabled, Apply, PushedBy, QueuedMessages;
    if actions != [] {
      StepsRest(states, actions);
      PostedChanges(states[0], actions[0], v);
      PostedGrows(states[1..], actions[1..], v);
      assert states[1..][|actions| - 1] == states[|actions|];
    }
  }

  lemma {:induction false} PushIsPosted(states: seq<State>, actions: seq<Action>, t: Thread, to: Id, item: Item)
    requires AreSteps(states, actions) && to in states[0].vms && item.Message?
    requires Event(to, Receive(item)) in PushesOf(states, actions, t)
    ensures to in states[|actions|].vms && item in states[|actions|].vms[to].posted
    decreases |actions|
  {
    hide Inv, Enabled, Apply;
    StepsRest(states, actions);
    PostedChanges(states[0], actions[0], to);
    var (ss, aa) := (states[1..], actions[1..]);
    assert ss[|aa|] == states[|actions|];
    if Event(to, Receive(item)) in PushOf(states[0], actions[0], t) {
      assert PushedBy(states[0], actions[0], to) == [Receive(item)];
      QueuedMessagesPush([], Receive(item));
      assert [] + [Receive(item)] == [Receive(item)];
      assert item in ss[0].vms[to].posted;
      PostedGrows(ss, aa, to);
    } else {
      PushIsPosted(ss, aa, t, to, item);
    }
  }

  lemma StepsFrom(states: seq<State>, actions: seq<Action>, k: nat)
    requires AreSteps(states, actions) && k <= |actions|
    ensures AreSteps(states[..k + 1], actions[..k]) && AreSteps(states[k..], actions[k..])
    decreases k
  {
    hide Inv, Enabled, Apply;
    if k > 0 {
      StepsRest(states, actions);
      StepsFrom(states[1..], actions[1..], k - 1);
      assert states[1..][k - 1..] == states[k..] && actions[1..][k - 1..] == actions[k..];
    } else {
      assert states[0..] == states && actions[0..] == actions;
    }
  }

  /**
   * A message sent to an open machine: once the sender goes on, and as long as the target lives with its port open,
   * the message is in the target's stream, or in its queue on the way there.
   */
  lemma SentArrives(states: seq<State>, actions: seq<Action>, k: nat, v: Id, to: Id)
    requires AreSteps(states, actions) && 0 < k <= |actions| && actions[0] == Send(v, to)
    requires forall i | 0 < i < k :: PostOf(states[i], VmThread(v)).Some?
    requires PostOf(states[k], VmThread(v)) == None
    requires v in states[0].vms && to in states[0].alive && to in states[0].vms && !states[0].vms[to].portClosed
    requires to in states[|actions|].alive
    ensures var message := Message(v, states[0].vms[v].sent);
      && to in states[|actions|].vms
      && var vm := states[|actions|].vms[to];
      && message in vm.posted
      && (!vm.portClosed ==> message in Messages(vm.stream) + QueuedMessages(vm.queue))
  {
    hide Inv, Enabled, Apply, PostOf, Messages, QueuedMessages;
    var (t, message, n) := (VmThread(v), Message(v, states[0].vms[v].sent), |actions|);
    StepsRest(states, actions);
    PostStarts(states[0], actions[0]);
    AliveBefore(states, actions, to);
    SentIsPushed(states, actions, k, v, to);
    StepsFrom(states, actions, k);
    PushIsPosted(states[..k + 1], actions[..k], t, to, message);
    assert states[..k + 1][k] == states[k] == states[k..][0] && states[k..][n - k] == states[n];
    PostedGrows(states[k..], actions[k..], to);
    StepsFrom(states, actions, n);
    assert states[n..][0] == states[n];
    Delivered(states[n], to);
  }

  lemma SentIsPushed(states: seq<State>, actions: seq<Action>, k: nat, v: Id, to: Id)
    requires AreSteps(states, actions) && 0 < k <= |actions| && actions[0] == Send(v, to)
    requires forall i | 0 < i < k :: PostOf(states[i], VmThread(v)).Some?
    requires PostOf(states[k], VmThread(v)) == None
    requires v in states[0].vms && to in states[0].vms && !states[0].vms[to].portClosed
    requires forall i | 0 <= i <= |actions| :: to in states[i].alive
    ensures Event(to, Receive(Message(v, states[0].vms[v].sent))) in PushesOf(states[..k + 1], actions[..k],
      VmThread(v))
  {
    hide Inv, Enabled, Apply, PostOf;
    var t := VmThread(v);
    StepsRest(states, actions);
    PostStarts(states[0], actions[0]);
    StepsFrom(states, actions, k);
    var (ss, aa) := (states[..k + 1], actions[..k]);
    StepsRest(ss, aa);
    var (ss1, aa1) := (ss[1..], aa[1..]);
    forall i | 0 <= i < |aa1| ensures PostOf(ss1[i], t).Some? && !FindsNone(ss1[i], aa1[i], t) {
      assert ss1[i] == states[i + 1];
      StillTo(ss1, aa1, t, i);
    }
    assert ss1[|aa1|] == states[k] && ss1[0] == states[1];
    assert aa1 != [];
    PostEnds(ss1, aa1, t);
    assert PushesOf(ss, aa, t) == PushOf(ss[0], aa[0], t) + PushesOf(ss1, aa1, t);
  }

  /** While it is made, a post keeps its target. */
  lemma {:induction false} StillTo(states: seq<State>, actions: seq<Action>, t: Thread, i: nat)
    requires AreSteps(states, actions) && i < |actions| && PostOf(states[0], t).Some?
    requires forall j | 0 <= j <= i :: PostOf(states[j], t).Some?
    ensures PostOf(states[i], t).value.to == PostOf(states[0], t).value.to
    decreases i
  {
    hide Inv, Enabled, Apply, PostOf;
    if i > 0 {
      StillTo(states, actions, t, i - 1);
      StepsFrom(states, actions, i - 1);
      assert states[i - 1..][0] == states[i - 1];
      PostMoves(states[i - 1], actions[i - 1], t);
    }
  }

  // ---------------------------------------------------------------- the end of a machine is told

  ghost predicate Ending(vm: Vm) {
    vm.phase.Left? || vm.phase.Telling? || vm.phase.TellingOne? || vm.phase.Gone?
  }

  /** The news of the end of `v` for each of some machines, in order. */
  ghost function News(monitors: seq<Id>, v: Id): (events: seq<Event>)
    ensures |events| == |monitors|
    ensures forall i | 0 <= i < |monitors| :: events[i] == Event(monitors[i], Receive(Ended(v)))
  {
    seq(|monitors|, i requires 0 <= i < |monitors| => Event(monitors[i], Receive(Ended(v))))
  }

  /** The events that a machine at its end has still to push. */
  ghost function Owed(vm: Vm, v: Id): seq<Event> {
    match vm.phase
    case Left => News(vm.monitors, v)
    case Telling(rest) => News(rest, v)
    case TellingOne(rest, p) => (if p.stage == Owing then [] else [Event(p.to, p.what)]) + News(rest, v)
    case _ => []
  }

  lemma OwedStep(s: State, a: Action, v: Id)
    requires Inv(s) && Enabled(s, a) && v in s.vms && Ending(s.vms[v])
    ensures v in Apply(s, a).vms && Ending(Apply(s, a).vms[v])
    ensures var (owed, owed') := (Owed(s.vms[v], v), Owed(Apply(s, a).vms[v], v));
      if FindsNone(s, a, VmThread(v)) then owed != [] && owed[0].to !in s.alive && owed[1..] == owed'
      else owed == PushOf(s, a, VmThread(v)) + owed'
    ensures FindsNone(s, a, VmThread(v)) ==> PushOf(s, a, VmThread(v)) == []
  {
    hide Inv, Enabled, Apply, AfterPost, Own, PostOf;
    var (vm, t) := (s.vms[v], VmThread(v));
    VmIs(s, a, v);
    PostIsPhase(s, v);
    PostIsPhase(Apply(s, a), v);
    if a == PostStep(t) {
      CanPostIs(s, t);
      PostMoves(s, a, t);
      OthersLeaveLoop(s, a, v);
    } else if a.PostStep? || a.v != v {
      OthersLeaveLoop(s, a, v);
      OwedKept(s, a, v);
    } else {
      OwedOwn(s, a);
    }
  }

  lemma PostIsPhase(s: State, v: Id)
    requires v in s.vms
    ensures var phase := s.vms[v].phase;
      PostOf(s, VmThread(v)) == if phase.Sending? || phase.TellingOne? then Some(phase.post) else None
  {
  }

  lemma OwedKept(s: State, a: Action, v: Id)
    requires Inv(s) && Enabled(s, a) && v in s.vms && Ending(s.vms[v]) && a != PostStep(VmThread(v))
    requires a.PostStep? || a.v != v
    ensures v in Apply(s, a).vms && Owed(Apply(s, a).vms[v], v) == Owed(s.vms[v], v)
  {
    hide Inv, Enabled, Apply, AfterPost, Own, PostOf;
    OthersLeaveLoop(s, a, v);
    TalkChanges(s, a, v);
    PostIsPhase(s, v);
    VmIs(s, a, v);
    PostIsPhase(Apply(s, a), v);
    if PostOf(s, VmThread(v)).Some? {
      PostMoves(s, a, VmThread(v));
    }
  }

  lemma OwedOwn(s: State, a: Action)
    requires Inv(s) && Enabled(s, a) && !a.PostStep? && a.v in s.vms && Ending(s.vms[a.v])
    ensures a.v in Apply(s, a).vms
    ensures Ending(Apply(s, a).vms[a.v]) && Owed(Apply(s, a).vms[a.v], a.v) == Owed(s.vms[a.v], a.v)
  {
    hide Inv, Apply, Own, Decided, PostOf, News;
    VmsAfterOwn(s, a);
    EndingOwn(s, a);
    if a.ClosePort? || a.TellNext? {
      NewsOf(s.vms[a.v].phase, Own(s, a).phase, a.v);
    }
  }

  /** What a machine at its end does itself. */
  lemma EndingOwn(s: State, a: Action)
    requires Enabled(s, a) && !a.PostStep? && Ending(s.vms[a.v])
    ensures var (vm, vm', v) := (s.vms[a.v], Own(s, a), a.v);
      match a
      case ClosePort(_) => vm.phase.Left? && vm'.phase == Telling(vm.monitors)
      case TellNext(_) =>
        && vm.phase.Telling? && vm.phase.rest != []
        && vm'.phase == TellingOne(vm.phase.rest[1..], Post(vm.phase.rest[0], Receive(Ended(v)), WantEnv))
      case Remove(_) => vm.phase == Telling([]) && vm'.phase.Gone?
      case IoDone(_, _) => vm'.phase == vm.phase && vm'.monitors == vm.monitors
      case _ => false
  {
    hide Decided;
  }

  lemma NewsOf(was: Phase, now: Phase, v: Id)
    ensures News([], v) == []
    ensures was.Telling? && was.rest != [] ==> [Event(was.rest[0], Receive(Ended(v)))] + News(was.rest[1..], v) ==
                                               News(was.rest, v)
  {
  }

  /** The events for machines that live. */
  ghost function Only(events: seq<Event>, alive: set<Id>): seq<Event> {
    if events == [] then []
    else (if events[0].to in alive then [events[0]] else []) + Only(events[1..], alive)
  }

  lemma {:induction false} OnlyParts(a: seq<Event>, b: seq<Event>, alive: set<Id>)
    ensures Only(a + b, alive) == Only(a, alive) + Only(b, alive)
  {
    if a == [] {
      assert a + b == b;
    } else {
      assert (a + b)[1..] == a[1..] + b;
      OnlyParts(a[1..], b, alive);
    }
  }

  /**
   * From the end of its loop to the end of its thread, a machine pushes the news of its end once for each of its
   * monitors that lives all the while, in the order in which they were added.
   */
  lemma MonitorsAreTold(states: seq<State>, actions: seq<Action>, v: Id)
    requires AreSteps(states, actions) && v in states[0].vms && states[0].vms[v].phase.Left?
    requires v in states[|actions|].vms && states[|actions|].vms[v].phase.Gone?
    ensures var alive := states[0].alive * states[|actions|].alive;
      Only(PushesOf(states, actions, VmThread(v)), alive) == Only(News(states[0].vms[v].monitors, v), alive)
  {
    hide Inv, Enabled, Apply;
    var alive := states[0].alive * states[|actions|].alive;
    InvMembers(states[0]);
    forall m | m in alive ensures forall i | 0 <= i <= |actions| :: m in states[i].alive {
      AliveBefore(states, actions, m);
    }
    OwedIsPushed(states, actions, v, alive);
  }

  lemma InvMembers(s: State)
    requires Inv(s)
    ensures forall v <- s.alive :: v in s.vms
  {
    hide EnvLock, VmLock, Counted, Awake, InOrder;
  }

  lemma {:induction false} OwedIsPushed(states: seq<State>, actions: seq<Action>, v: Id, alive: set<Id>)
    requires AreSteps(states, actions) && v in states[0].vms && Ending(states[0].vms[v])
    requires v in states[|actions|].vms && states[|actions|].vms[v].phase.Gone?
    requires forall m <- alive :: forall i | 0 <= i <= |actions| :: m in states[i].alive
    ensures Only(PushesOf(states, actions, VmThread(v)), alive) == Only(Owed(states[0].vms[v], v), alive)
    decreases |actions|
  {
    hide Inv, Enabled, Apply, Owed, FindsNone, PushOf;
    var t := VmThread(v);
    if actions == [] {
      NothingOwed(states[0].vms[v], v);
    } else {
      var (s, a, ss, aa) := (states[0], actions[0], states[1..], actions[1..]);
      StepsRest(states, actions);
      OwedStep(s, a, v);
      assert ss[|aa|] == states[|actions|];
      forall m, i | m in alive && 0 <= i <= |aa| ensures m in ss[i].alive { assert ss[i] == states[i + 1]; }
      OwedIsPushed(ss, aa, v, alive);
      OnlyParts(PushOf(s, a, t), PushesOf(ss, aa, t), alive);
      OnlyParts(PushOf(s, a, t), Owed(ss[0].vms[v], v), alive);
    }
  }

  lemma NothingOwed(vm: Vm, v: Id)
    requires vm.phase.Gone?
    ensures Owed(vm, v) == []
  {
  }
}
