/** Setting up the six tasks of the benchmark and running them. */
module RichardsRun {
  import opened Common
  import opened Richards
  import L = RichardsLaws
  import M = RichardsModel

  /** Every packet names a task, goes where the benchmark lets it go, and has its payload in order. */
  const RULES := M.Rules(M.DeviceBound, true, true)

  /** A new packet in front of a list. */
  method Prepend(queue: Packet?, ghost l: List, id: int, kind: M.Kind, uid: nat) returns (p: Packet, ghost l': List)
    requires l.Chain(queue)
    ensures fresh(p) && l'.Chain(p)
    ensures l' == List([p] + l.packets, [M.Packet(uid, id, kind, 0, [])] + l.values, l.number, l.all + {p})
  {
    hide *;
    p := new Packet(queue, id, kind, uid);
    p.owner := l.number;
    l' := List([p] + l.packets, [p.Value()] + l.values, l.number, l.all + {p});
    Prepended(p, queue, l);
  }

  lemma Prepended(p: Packet, queue: Packet?, l: List)
    requires l.Chain(queue) && p.link == queue && p.owner == l.number
    ensures List([p] + l.packets, [p.Value()] + l.values, l.number, l.all + {p}).Chain(p)
  {
    var l' := List([p] + l.packets, [p.Value()] + l.values, l.number, l.all + {p});
    forall k | 0 <= k < |l'.packets|
      ensures l'.packets[k] in l'.all && l'.packets[k].owner == l.number && l'.packets[k].Value() == l'.values[k]
      ensures l'.packets[k].link == At(l'.packets, k + 1)
    {
      if k > 0 { assert l'.packets[k] == l.packets[k - 1]; }
    }
  }

  predicate Blank(id: int, kind: M.Kind, ps: seq<M.Packet>) {
    forall k :: 0 <= k < |ps| ==> ps[k].id == id && ps[k].kind == kind && ps[k].a1 == 0 && ps[k].a2 == []
  }

  /** `n` new packets with the identities from `uid` on, the latest first. */
  function NewPackets(n: nat, id: int, kind: M.Kind, uid: nat): seq<M.Packet> {
    if n == 0 then [] else [M.Packet(uid + n - 1, id, kind, 0, [])] + NewPackets(n - 1, id, kind, uid)
  }

  lemma NoPackets(id: int, kind: M.Kind, uid: nat)
    ensures NewPackets(0, id, kind, uid) == []
  {
  }

  lemma NextPackets(n: nat, id: int, kind: M.Kind, uid: nat)
    ensures NewPackets(n + 1, id, kind, uid) == [M.Packet(uid + n, id, kind, 0, [])] + NewPackets(n, id, kind, uid)
  {
  }

  lemma {:induction false} NewBlank(n: nat, id: int, kind: M.Kind, uid: nat)
    ensures Blank(id, kind, NewPackets(n, id, kind, uid))
  {
    if n > 0 { NewBlank(n - 1, id, kind, uid); }
  }

  lemma {:induction false} NewOnce(n: nat, id: int, kind: M.Kind, uid: nat, x: nat)
    ensures M.Occurrences(NewPackets(n, id, kind, uid), x) == if uid <= x < uid + n then 1 else 0
  {
    if n > 0 {
      NewOnce(n - 1, id, kind, uid, x);
      assert NewPackets(n, id, kind, uid)[1..] == NewPackets(n - 1, id, kind, uid);
    }
  }

  /** `n` new packets addressed to the task `id`. */
  method NewQueue(n: nat, id: int, kind: M.Kind, uid: nat, ghost task: nat, ghost all: set<Packet>)
    returns (queue: Packet?, ghost l: List)
    ensures l.Chain(queue) && l.number == 3 * task && all <= l.all && fresh(l.all - all)
    ensures l.values == NewPackets(n, id, kind, uid)
  {
    hide *;
    queue, l := null, Nothing(task, all);
    NothingChained(task, all);
    NoPackets(id, kind, uid);
    for i := 0 to n
      invariant l.Chain(queue) && l.number == 3 * task && all <= l.all && fresh(l.all - all)
      invariant l.values == NewPackets(i, id, kind, uid)
    {
      queue, l := Prepend(queue, l, id, kind, uid + i);
      NextPackets(i, id, kind, uid);
    }
  }

  lemma Grow(l: List, queue: Packet?, all: set<Packet>)
    requires l.Chain(queue) && l.all <= all
    ensures l.(all := all).Chain(queue)
  {
  }

  /** A block whose contents fit task `i`. */
  ghost predicate Good(b: TaskControlBlock, i: int)
    reads b, b.waiting.packets, b.work.packets, b.device.packets
  {
    b.Inside() && b.Valid() && M.TcbOk(RULES, i, b.Model())
  }

  /** A block as it is when its task is added. */
  ghost function Initial(task: Task, running: bool, waiting: List): M.Tcb {
    var empty := waiting.(values := []);
    M.Tcb(false, !running, !running && waiting.values != [], waiting.values, task.Value(empty, empty))
  }

  method NewTask(link: TaskControlBlock?, id: nat, queue: Packet?, task: Task, running: bool, ghost waiting: List) returns (b: TaskControlBlock)
    requires waiting.Chain(queue) && waiting.number == 3 * id && task.V1() == null && task.V2() == null
    requires M.TcbOk(RULES, id, Initial(task, running, waiting))
    ensures fresh(b) && Good(b, id) && b.Inside() && b.id == id && b.priority == 1000 * id && b.all == waiting.all && b.link == link
    ensures b.waiting == waiting && b.work.packets == [] && b.device.packets == [] && b.Model() == Initial(task, running, waiting)
  {
    hide List.Chain, List.Slot;
    b := new TaskControlBlock(link, id, 1000 * id, queue, task, waiting);
    if running {
      b.SetRunning();
    }
    b.IsInside();
  }

  ghost function Nothing(task: nat, all: set<Packet>): List {
    List([], [], 3 * task, all)
  }

  lemma NothingChained(task: nat, all: set<Packet>)
    ensures Nothing(task, all).Chain(null) && M.AllRouted(RULES, task, Nothing(task, all).values)
    ensures Nothing(task, all).all == all && Nothing(task, all).number == 3 * task && Nothing(task, all).values == []
  {
  }

  lemma InitialOk(task: Task, running: bool, l: List, i: nat)
    requires M.AllRouted(RULES, i, l.values) && task.V1() == null && task.V2() == null
    requires match task
             case IdleTask(_, _) => i == M.ID_IDLE && running && l.values == []
             case WorkerTask(_, w2) => i == M.ID_WORKER && !running && 0 <= w2 <= 26
             case HandlerTask(_, _) => M.IsHandler(i) && !running
             case DeviceTask(_) => M.IsDevice(i) && !running
    ensures M.TcbOk(RULES, i, Initial(task, running, l))
  {
  }

  /** Blocks added so far, each linked to the one before. */
  ghost predicate Made(bs: seq<TaskControlBlock>, all: set<Packet>)
    reads bs, all
  {
    forall i :: 0 <= i < |bs| ==>
      bs[i].id == i && bs[i].priority == 1000 * i && bs[i].all == all && bs[i].Inside() && Good(bs[i], i) &&
      bs[i].link == if i == 0 then null else bs[i - 1]
  }

  /** What the blocks are in the model. */
  ghost predicate Modeled(bs: seq<TaskControlBlock>, ms: seq<M.Tcb>)
    reads bs
  {
    |bs| == |ms| && forall i :: 0 <= i < |bs| ==> bs[i].Model() == ms[i]
  }

  lemma MadeSnoc(bs: seq<TaskControlBlock>, b: TaskControlBlock, all: set<Packet>)
    requires Made(bs, all) && b.Inside() && b.all == all && b.id == |bs| && b.priority == 1000 * b.id && Good(b, b.id)
    requires b.link == if bs == [] then null else bs[|bs| - 1]
    ensures Made(bs + [b], all)
  {
    hide Good, TaskControlBlock.Inside;
    var cs := bs + [b];
    forall i | 0 <= i < |cs|
      ensures cs[i].id == i && cs[i].priority == 1000 * i && cs[i].all == all && cs[i].Inside() && Good(cs[i], i)
      ensures cs[i].link == if i == 0 then null else cs[i - 1]
    {
      assert i < |bs| ==> cs[i] == bs[i];
    }
  }

  /** Add the task with the next identifier and priority. */
  method AddTask(bs: seq<TaskControlBlock>, queue: Packet?, task: Task, running: bool, ghost waiting: List, ghost ms: seq<M.Tcb>)
    returns (bs': seq<TaskControlBlock>)
    requires Modeled(bs, ms)
    requires Made(bs, waiting.all) && waiting.Chain(queue) && waiting.number == 3 * |bs|
    requires NoLists(task) && M.TcbOk(RULES, |bs|, Initial(task, running, waiting))
    ensures |bs'| == |bs| + 1 && bs'[..|bs|] == bs && Made(bs', waiting.all)
    ensures fresh(bs'[|bs|]) && Modeled(bs', ms + [Initial(task, running, waiting)])
  {
    hide Good, Made, List.Chain, TaskControlBlock.Inside, TaskControlBlock.Model, Initial;
    var b := NewTask(if bs == [] then null else bs[|bs| - 1], |bs|, queue, task, running, waiting);
    MadeSnoc(bs, b, waiting.all);
    bs' := bs + [b];
  }

  lemma MadeValid(s: Scheduler, count: int, queues: seq<seq<M.Packet>>)
    requires Made(s.blocks, s.all) && |s.blocks| == M.NUMBER_OF_IDS && s.list == s.currentTcb == s.blocks[5] && s.currentId == -1
    requires s.queueCount == s.holdCount == 0 && |queues| == M.NUMBER_OF_IDS && Modeled(s.blocks, M.Start(count, queues).tcbs)
    ensures s.Valid() && M.TcbsOk(RULES, s.State(s.list)) && s.State(s.list) == M.Start(count, queues)
  {
    hide TaskControlBlock.Valid, M.TcbOk, TaskControlBlock.Inside, TaskControlBlock.Model;
    assert s.Models() == M.Start(count, queues).tcbs;
  }

  lemma BlankRouted(i: nat, id: int, kind: M.Kind, ps: seq<M.Packet>)
    requires Blank(id, kind, ps) && M.Known(id)
    requires if kind == M.WorkPacket then i == M.ID_WORKER else M.IsHandler(i) && M.IsDevice(id)
    ensures M.AllRouted(RULES, i, ps)
  {
  }

  ghost predicate NoLists(task: Task) {
    task.V1() == null && task.V2() == null
  }

  lemma IdleOk(count: int, all: set<Packet>)
    ensures NoLists(IdleTask(1, count)) && M.TcbOk(RULES, 0, Initial(IdleTask(1, count), true, Nothing(0, all)))
    ensures Initial(IdleTask(1, count), true, Nothing(0, all)) == M.NewTcb(true, [], M.Idle(1, count))
  {
    InitialOk(IdleTask(1, count), true, Nothing(0, all), 0);
  }

  lemma WorkerOk(l: List)
    requires M.AllRouted(RULES, 1, l.values)
    ensures NoLists(WorkerTask(M.ID_HANDLER_A, 0)) && M.TcbOk(RULES, 1, Initial(WorkerTask(M.ID_HANDLER_A, 0), false, l))
    ensures Initial(WorkerTask(M.ID_HANDLER_A, 0), false, l) == M.NewTcb(false, l.values, M.Worker(M.ID_HANDLER_A, 0))
  {
    InitialOk(WorkerTask(M.ID_HANDLER_A, 0), false, l, 1);
  }

  lemma HandlerOk(l: List, i: nat)
    requires M.IsHandler(i) && M.AllRouted(RULES, i, l.values)
    ensures NoLists(HandlerTask(null, null)) && M.TcbOk(RULES, i, Initial(HandlerTask(null, null), false, l))
    ensures Initial(HandlerTask(null, null), false, l) == M.NewTcb(false, l.values, M.Handler([], []))
  {
    InitialOk(HandlerTask(null, null), false, l, i);
  }

  lemma DeviceOk(i: nat, all: set<Packet>)
    requires M.IsDevice(i)
    ensures NoLists(DeviceTask(null)) && M.TcbOk(RULES, i, Initial(DeviceTask(null), false, Nothing(i, all)))
    ensures Initial(DeviceTask(null), false, Nothing(i, all)) == M.NewTcb(false, [], M.Device(None))
  {
    InitialOk(DeviceTask(null), false, Nothing(i, all), i);
  }

  lemma NoneMade(all: set<Packet>)
    ensures Made([], all) && Modeled([], [])
  {
  }

  method AddIdle(count: int, ghost all: set<Packet>) returns (bs: seq<TaskControlBlock>)
    ensures |bs| == 1 && Made(bs, all) && fresh(bs[0]) && Modeled(bs, [M.NewTcb(true, [], M.Idle(1, count))])
  {
    hide *;
    NothingChained(0, all);
    NoneMade(all);
    IdleOk(count, all);
    bs := AddTask([], null, IdleTask(1, count), true, Nothing(0, all), []);
    assert [] + [M.NewTcb(true, [], M.Idle(1, count))] == [M.NewTcb(true, [], M.Idle(1, count))];
  }

  method AddWorker(bs: seq<TaskControlBlock>, queue: Packet?, ghost l: List, ghost t: M.Tcb) returns (bs': seq<TaskControlBlock>)
    requires |bs| == 1 && Made(bs, l.all) && l.Chain(queue) && l.number == 3 && M.AllRouted(RULES, 1, l.values) && Modeled(bs, [t])
    ensures |bs'| == 2 && bs'[..1] == bs && Made(bs', l.all) && fresh(bs'[1])
    ensures Modeled(bs', [t, M.NewTcb(false, l.values, M.Worker(M.ID_HANDLER_A, 0))])
  {
    hide *;
    WorkerOk(l);
    bs' := AddTask(bs, queue, WorkerTask(M.ID_HANDLER_A, 0), false, l, [t]);
    assert [t] + [M.NewTcb(false, l.values, M.Worker(M.ID_HANDLER_A, 0))] == [t, M.NewTcb(false, l.values, M.Worker(M.ID_HANDLER_A, 0))];
  }

  /** The idle task, the worker with its worklist and the first handler with its own. */
  method AddFirst(count: int, q1: Packet?, q2: Packet?, ghost l1: List, ghost l2: List)
    returns (bs: seq<TaskControlBlock>)
    requires l1.Chain(q1) && l2.Chain(q2) && l1.all == l2.all && l1.number == 3 && l2.number == 6
    requires M.AllRouted(RULES, 1, l1.values) && M.AllRouted(RULES, 2, l2.values)
    ensures |bs| == 3 && Made(bs, l1.all) && fresh(bs)
    ensures Modeled(bs, [M.NewTcb(true, [], M.Idle(1, count)), M.NewTcb(false, l1.values, M.Worker(M.ID_HANDLER_A, 0)),
                         M.NewTcb(false, l2.values, M.Handler([], []))])
  {
    hide *;
    HandlersAre();
    ghost var t0, t1, t2 :=
      M.NewTcb(true, [], M.Idle(1, count)), M.NewTcb(false, l1.values, M.Worker(M.ID_HANDLER_A, 0)), M.NewTcb(false, l2.values, M.Handler([], []));
    var bs1 := AddIdle(count, l1.all);
    var bs2 := AddWorker(bs1, q1, l1, t0);
    bs := AddHandler(bs2, q2, l2, [t0, t1]);
    assert [t0, t1] + [t2] == [t0, t1, t2];
    assert bs[0] == bs2[0] == bs1[0] && bs[1] == bs2[1];
  }

  lemma HandlersAre()
    ensures M.IsHandler(2) && M.IsHandler(3) && M.IsDevice(4) && M.IsDevice(5)
  {
  }

  method AddHandler(bs: seq<TaskControlBlock>, queue: Packet?, ghost l: List, ghost ms: seq<M.Tcb>) returns (bs': seq<TaskControlBlock>)
    requires M.IsHandler(|bs|) && Made(bs, l.all) && l.Chain(queue) && l.number == 3 * |bs| && M.AllRouted(RULES, |bs|, l.values) && Modeled(bs, ms)
    ensures |bs'| == |bs| + 1 && bs'[..|bs|] == bs && Made(bs', l.all) && fresh(bs'[|bs|])
    ensures Modeled(bs', ms + [M.NewTcb(false, l.values, M.Handler([], []))])
  {
    hide *;
    HandlerOk(l, |bs|);
    bs' := AddTask(bs, queue, HandlerTask(null, null), false, l, ms);
  }

  method AddDevice(bs: seq<TaskControlBlock>, ghost all: set<Packet>, ghost ms: seq<M.Tcb>) returns (bs': seq<TaskControlBlock>)
    requires M.IsDevice(|bs|) && Made(bs, all) && Modeled(bs, ms)
    ensures |bs'| == |bs| + 1 && bs'[..|bs|] == bs && Made(bs', all) && fresh(bs'[|bs|])
    ensures Modeled(bs', ms + [M.NewTcb(false, [], M.Device(None))])
  {
    hide *;
    NothingChained(|bs|, all);
    DeviceOk(|bs|, all);
    bs' := AddTask(bs, null, DeviceTask(null), false, Nothing(|bs|, all), ms);
  }

  /** The second handler with its worklist, and the two devices. */
  method AddRest(bs0: seq<TaskControlBlock>, q3: Packet?, ghost l3: List, ghost ms: seq<M.Tcb>) returns (bs: seq<TaskControlBlock>)
    requires |bs0| == 3 && Made(bs0, l3.all) && l3.Chain(q3) && l3.number == 9 && M.AllRouted(RULES, 3, l3.values) && Modeled(bs0, ms)
    ensures |bs| == 6 && bs[..3] == bs0 && Made(bs, l3.all) && fresh(bs[3..])
    ensures Modeled(bs, ms + [M.NewTcb(false, l3.values, M.Handler([], [])), M.NewTcb(false, [], M.Device(None)), M.NewTcb(false, [], M.Device(None))])
  {
    hide *;
    HandlersAre();
    ghost var h, d := M.NewTcb(false, l3.values, M.Handler([], [])), M.NewTcb(false, [], M.Device(None));
    var bs1 := AddHandler(bs0, q3, l3, ms);
    var bs2 := AddDevice(bs1, l3.all, ms + [h]);
    bs := AddDevice(bs2, l3.all, ms + [h] + [d]);
    assert ms + [h] + [d] + [d] == ms + [h, d, d];
    assert bs[..3] == bs2[..3] == bs1[..3];
    assert bs[3..] == [bs1[3], bs2[4], bs[5]];
  }

  /** The packets of the benchmark: two for the worker and three for each handler. */
  function Queues(): (qs: seq<seq<M.Packet>>)
    ensures |qs| == M.NUMBER_OF_IDS
  {
    [[], NewPackets(2, M.ID_WORKER, M.WorkPacket, 0), NewPackets(3, M.ID_DEVICE_A, M.DevicePacket, 2),
     NewPackets(3, M.ID_DEVICE_B, M.DevicePacket, 5), [], []]
  }

  /** Each of the eight packets is in exactly one place, and no other packet is anywhere. */
  lemma EachOnce(count: int, uid: nat)
    ensures M.Everywhere(M.Start(count, Queues()), uid) == if uid < 8 then 1 else 0
  {
    NewOnce(2, M.ID_WORKER, M.WorkPacket, 0, uid);
    NewOnce(3, M.ID_DEVICE_A, M.DevicePacket, 2, uid);
    NewOnce(3, M.ID_DEVICE_B, M.DevicePacket, 5, uid);
    hide NewPackets;
    var ts := M.Start(count, Queues()).tcbs;
    var f := M.Located(uid);
    SumSix(f, ts);
    assert M.Occurrences([], uid) == 0;
  }

  lemma SumSix(f: M.Tcb -> nat, ts: seq<M.Tcb>)
    requires |ts| == 6
    ensures M.Sum(f, ts) == f(ts[0]) + f(ts[1]) + f(ts[2]) + f(ts[3]) + f(ts[4]) + f(ts[5])
  {
    assert ts[1..][1..] == ts[2..] && ts[2..][1..] == ts[3..] && ts[3..][1..] == ts[4..] && ts[4..][1..] == ts[5..] && ts[5..][1..] == [];
    assert M.Sum(f, ts[5..]) == f(ts[5]);
    assert M.Sum(f, ts[4..]) == f(ts[4]) + f(ts[5]);
    assert M.Sum(f, ts[2..]) == f(ts[2]) + f(ts[3]) + M.Sum(f, ts[4..]);
  }

  lemma QueuesRouted()
    ensures M.AllRouted(RULES, 1, Queues()[1]) && M.AllRouted(RULES, 2, Queues()[2]) && M.AllRouted(RULES, 3, Queues()[3])
  {
    NewBlank(2, M.ID_WORKER, M.WorkPacket, 0);
    NewBlank(3, M.ID_DEVICE_A, M.DevicePacket, 2);
    NewBlank(3, M.ID_DEVICE_B, M.DevicePacket, 5);
    BlankRouted(1, M.ID_WORKER, M.WorkPacket, Queues()[1]);
    BlankRouted(2, M.ID_DEVICE_A, M.DevicePacket, Queues()[2]);
    BlankRouted(3, M.ID_DEVICE_B, M.DevicePacket, Queues()[3]);
  }

  /** The tasks are added and linked: the state is the one that the model starts from. */
  method SetUp(count: int) returns (s: Scheduler)
    ensures fresh(s) && fresh(s.blocks) && fresh(s.all) && s.Valid()
    ensures M.TcbsOk(RULES, s.State(s.list)) && s.State(s.list) == M.Start(count, Queues())
  {
    hide List.Chain, M.TcbOk, M.AllRouted, Blank, Scheduler.Valid, Scheduler.State, Made, Modeled, NewPackets;
    var q1, l1 := NewQueue(2, M.ID_WORKER, M.WorkPacket, 0, 1, {});
    var q2, l2 := NewQueue(3, M.ID_DEVICE_A, M.DevicePacket, 2, 2, l1.all);
    var q3, l3 := NewQueue(3, M.ID_DEVICE_B, M.DevicePacket, 5, 3, l2.all);
    Grow(l1, q1, l3.all);
    Grow(l2, q2, l3.all);
    QueuesRouted();
    var first := AddFirst(count, q1, q2, l1.(all := l3.all), l2.(all := l3.all));
    ghost var ms := M.Start(count, Queues()).tcbs;
    assert ms[..3] == [M.NewTcb(true, [], M.Idle(1, count)), M.NewTcb(false, l1.values, M.Worker(M.ID_HANDLER_A, 0)),
                       M.NewTcb(false, l2.values, M.Handler([], []))];
    var bs := AddRest(first, q3, l3, ms[..3]);
    assert ms == ms[..3] + [M.NewTcb(false, l3.values, M.Handler([], [])), M.NewTcb(false, [], M.Device(None)), M.NewTcb(false, [], M.Device(None))];
    assert bs == first + bs[3..];
    s := new Scheduler(bs, l3.all);
    MadeValid(s, count, Queues());
  }

  lemma QueuesHome()
    ensures L.HomeQueues(Queues())
  {
    NewBlank(2, M.ID_WORKER, M.WorkPacket, 0);
    NewBlank(3, M.ID_DEVICE_A, M.DevicePacket, 2);
    NewBlank(3, M.ID_DEVICE_B, M.DevicePacket, 5);
    hide NewPackets;
    forall i | 0 <= i < M.NUMBER_OF_IDS ensures L.AllHome(i, Queues()[i]) { }
  }

  /** Step `n` of the run of the benchmark keeps to the laws, after as many turns of the idle task and packets of the
      worker as there have been. */
  ghost predicate Keeps(count: int, n: nat) {
    var s0 := M.Start(count, Queues());
    var s, s' := M.Iterate(s0, n), M.Iterate(s0, n + 1);
    s.Running() ==>
      M.Inv(RULES, s) && L.Lawful(s, s', count, L.Times(s0, n, L.IdleTurn), L.Times(s0, n, L.WorkerTakes)) && L.HoldLaw(s, s') && L.MoveLaw(s, s')
  }

  /** The state `s` ends the run of the benchmark after `n` steps. Its counters tell how often a packet changed blocks
      and how often a block became held, and the idle task has had `count` turns. */
  ghost predicate Ran(count: int, s: M.State, n: nat) {
    var s0 := M.Start(count, Queues());
    s == M.Iterate(s0, n) && s.cur < 0 && s.queueCount == L.Times(s0, n, L.Moving) && s.holdCount == L.Times(s0, n, L.Holding) &&
    L.Times(s0, n, L.IdleTurn) == count && forall m: nat :: m < n ==> Keeps(count, m)
  }

  lemma StepKept(count: int, n: nat)
    requires M.Inv(RULES, M.Start(count, Queues()))
    ensures Keeps(count, n)
  {
    hide M.Iterate, M.Inv, Queues, L.Lawful, L.HomeQueues, L.HoldLaw, L.MoveLaw, L.Astray, M.Start, L.Times;
    var s0 := M.Start(count, Queues());
    var s := M.Iterate(s0, n);
    if s.Running() {
      M.ReachableKeeps(RULES, s0, n);
      L.RunLawful(count, Queues(), n);
      L.RunCounts(count, Queues(), n);
      QueuesHome();
      L.RunHome(count, Queues(), n);
      L.AnyStart(count, Queues(), n);
      L.TaskPlaces(s);
      L.HomeNames(s);
    }
  }

  lemma HasRun(count: int) returns (n: nat)
    requires 1 <= count && M.Inv(RULES, M.Start(count, Queues())) && M.Finite(M.Start(count, Queues()))
    ensures Ran(count, M.Run(RULES, M.Start(count, Queues())), n)
  {
    hide M.Run, M.Iterate, M.Inv, Queues, L.HomeQueues, M.Start, L.Times, Keeps;
    n := M.RunSteps(RULES, M.Start(count, Queues()));
    QueuesHome();
    L.RunTotals(count, Queues(), n);
    L.History(count, Queues(), n);
    M.RunEnds(RULES, M.Start(count, Queues()), 0);
    forall m: nat | m < n ensures Keeps(count, m) { StepKept(count, m); }
  }

  /** The benchmark: for every positive count it ends in the state in which the run of the model ends, with
      nothing left to run and with each of its eight packets in exactly one place. */
  method RunRichards(count: int) returns (s: Scheduler)
    requires 1 <= count
    ensures s.Valid() && s.currentTcb == null && M.TcbsOk(RULES, s.State(null)) && M.Count(s.State(null)) == 0
    ensures M.Inv(RULES, M.Start(count, Queues())) && s.State(null) == M.Run(RULES, M.Start(count, Queues()))
    ensures forall i :: 0 <= i < M.NUMBER_OF_IDS ==> s.State(null).tcbs[i].HeldOrSuspended()
    ensures forall uid: nat :: M.Everywhere(s.State(null), uid) == if uid < 8 then 1 else 0
    ensures exists n: nat :: Ran(count, s.State(null), n)
  {
    hide List.Chain, M.TcbOk, M.AllRouted, Scheduler.Valid, Scheduler.State, M.Run, Queues, M.Everywhere, Ran;
    s := SetUp(count);
    s.Start(RULES);
    M.RunEnds(RULES, s.State(s.list), 0);
    forall uid: nat ensures M.Everywhere(M.Start(count, Queues()), uid) == if uid < 8 then 1 else 0 { EachOnce(count, uid); }
    ghost var n := HasRun(count);
    s.Schedule(RULES);
  }
}
