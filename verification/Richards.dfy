/** The task scheduler of the Richards benchmark, one loop iteration as a function of the whole state. */
module RichardsModel {
  import opened Common

  datatype Kind = DevicePacket | WorkPacket

  /** A packet. `uid` is its identity as an object, `id` the task it goes to (or came from), and
      `a2` its payload: empty until a worker has filled it. */
  datatype Packet = Packet(uid: nat, id: int, kind: Kind, a1: int, a2: seq<int>)

  datatype Task =
    | Idle(v1: nat, count: int)
    | Worker(w1: int, w2: int)
    | Handler(work: seq<Packet>, device: seq<Packet>)
    | Device(slot: Option<Packet>)

  /** A task control block. The three flags are the bits 4, 2 and 1 of its state. */
  datatype Tcb = Tcb(held: bool, suspended: bool, runnable: bool, queue: seq<Packet>, task: Task) {
    predicate HeldOrSuspended() {
      held || (suspended && !runnable)
    }

    /** `STATE_SUSPENDED_RUNNABLE`. */
    predicate Waiting() {
      !held && suspended && runnable
    }
  }

  const ID_IDLE := 0
  const ID_WORKER := 1
  const ID_HANDLER_A := 2
  const ID_HANDLER_B := 3
  const ID_DEVICE_A := 4
  const ID_DEVICE_B := 5
  const NUMBER_OF_IDS := 6
  const DATA_SIZE := 4

  /** The blocks by identifier. They were added in the order of their identifiers with rising
      priority, so that the list runs from high identifiers to low ones: the block after block
      `i` is block `i - 1`, and `cur == -1` is the end of the list. */
  datatype State = State(tcbs: seq<Tcb>, cur: int, currentId: int, queueCount: nat, holdCount: nat) {
    predicate WF() {
      |tcbs| == NUMBER_OF_IDS && -1 <= cur < NUMBER_OF_IDS && -1 <= currentId < NUMBER_OF_IDS
    }

    predicate Running() {
      WF() && 0 <= cur
    }

    function Put(i: nat, t: Tcb): State
      requires i < |tcbs|
    {
      this.(tcbs := tcbs[i := t])
    }
  }

  // ----- the scheduler's services

  function HoldCurrent(s: State): State
    requires s.Running()
  {
    s.Put(s.cur, s.tcbs[s.cur].(held := true)).(holdCount := s.holdCount + 1, cur := s.cur - 1)
  }

  function SuspendCurrent(s: State): State
    requires s.Running()
  {
    s.Put(s.cur, s.tcbs[s.cur].(suspended := true))
  }

  function Release(s: State, id: nat): State
    requires s.Running() && id < NUMBER_OF_IDS
  {
    s.Put(id, s.tcbs[id].(held := false)).(cur := if id > s.cur then id else s.cur)
  }

  /** `checkPriorityAdd`: the block with the packet added. */
  function AddPacket(t: Tcb, p: Packet): Tcb {
    if t.queue == [] then t.(queue := [p], runnable := true) else t.(queue := t.queue + [p])
  }

  /** Send a packet to the task it names; a name without a block ends the schedule. */
  function Queue(s: State, p: Packet): State
    requires s.Running()
  {
    if 0 <= p.id < NUMBER_OF_IDS then
      var t := s.tcbs[p.id];
      s.Put(p.id, AddPacket(t, p.(id := s.currentId)))
       .(queueCount := s.queueCount + 1, cur := if t.queue == [] && p.id > s.cur then p.id else s.cur)
    else s.(cur := -1)
  }

  // ----- the tasks

  function Xor(x: nat, y: nat): nat
    decreases x + y
  {
    if x == 0 then y
    else if y == 0 then x
    else (if x % 2 != y % 2 then 1 else 0) + 2 * Xor(x / 2, y / 2)
  }

  function SetTask(s: State, task: Task): State
    requires s.Running()
  {
    s.Put(s.cur, s.tcbs[s.cur].(task := task))
  }

  function RunIdle(s: State, v1: nat, count: int): State
    requires s.Running()
  {
    if count - 1 == 0 then HoldCurrent(SetTask(s, Idle(v1, 0)))
    else if v1 % 2 == 0 then Release(SetTask(s, Idle(v1 / 2, count - 1)), ID_DEVICE_A)
    else Release(SetTask(s, Idle(Xor(v1 / 2, 0xd008), count - 1)), ID_DEVICE_B)
  }

  function RunDevice(s: State, slot: Option<Packet>, packet: Option<Packet>): State
    requires s.Running()
  {
    match packet
    case None =>
      if slot.None? then SuspendCurrent(s) else Queue(SetTask(s, Device(None)), slot.value)
    case Some(p) =>
      HoldCurrent(SetTask(s, Device(Some(p))))
  }

  /** The four values the worker writes into a packet, starting after `w2`. */
  function NextLetter(w2: int): int {
    if w2 + 1 > 26 then 1 else w2 + 1
  }

  function Letters(w2: int, n: nat): seq<int>
    decreases n
  {
    if n == 0 then [] else [NextLetter(w2)] + Letters(NextLetter(w2), n - 1)
  }

  function LettersAfter(w2: int, n: nat): int
    decreases n
  {
    if n == 0 then w2 else LettersAfter(NextLetter(w2), n - 1)
  }

  /** The sequence `s` with its first elements overwritten by `front`. */
  function Overwrite(s: seq<int>, front: seq<int>): seq<int> {
    if |s| <= |front| then front else front + s[|front|..]
  }

  function RunWorker(s: State, w1: int, w2: int, packet: Option<Packet>): State
    requires s.Running()
  {
    match packet
    case None => SuspendCurrent(s)
    case Some(p) =>
      var h := if w1 == ID_HANDLER_A then ID_HANDLER_B else ID_HANDLER_A;
      Queue(SetTask(s, Worker(h, LettersAfter(w2, DATA_SIZE))),
            p.(id := h, a1 := 0, a2 := Overwrite(p.a2, Letters(w2, DATA_SIZE))))
  }

  /** A handler's lists once an arriving packet is filed. */
  function FileWork(work: seq<Packet>, packet: Option<Packet>): seq<Packet> {
    if packet.Some? && packet.value.kind == WorkPacket then work + [packet.value] else work
  }

  function FileDevice(device: seq<Packet>, packet: Option<Packet>): seq<Packet> {
    if packet.Some? && packet.value.kind == DevicePacket then device + [packet.value] else device
  }

  /** `a2[count]`; what is not there is modelled as zero. */
  function Payload(p: Packet, count: int): int {
    if 0 <= count < |p.a2| then p.a2[count] else 0
  }

  function RunHandler(s: State, work0: seq<Packet>, device0: seq<Packet>, packet: Option<Packet>): State
    requires s.Running()
  {
    var work, device := FileWork(work0, packet), FileDevice(device0, packet);
    if work != [] && work[0].a1 < DATA_SIZE && device != [] then
      var count := work[0].a1;
      Queue(SetTask(s, Handler([work[0].(a1 := count + 1)] + work[1..], device[1..])), device[0].(a1 := Payload(work[0], count)))
    else if work != [] && work[0].a1 >= DATA_SIZE then
      Queue(SetTask(s, Handler(work[1..], device)), work[0])
    else
      SuspendCurrent(SetTask(s, Handler(work, device)))
  }

  function RunTask(s: State, packet: Option<Packet>): State
    requires s.Running()
  {
    match s.tcbs[s.cur].task
    case Idle(v1, count) => RunIdle(s, v1, count)
    case Worker(w1, w2) => RunWorker(s, w1, w2, packet)
    case Handler(work, device) => RunHandler(s, work, device, packet)
    case Device(slot) => RunDevice(s, slot, packet)
  }

  /** The block once `run` has taken its packet. */
  function Taken(t: Tcb): Tcb
    requires t.queue != []
  {
    t.(queue := t.queue[1..], suspended := false, runnable := |t.queue| > 1)
  }

  /** One iteration of the loop in `schedule`. */
  function Step(s: State): State
    requires s.Running()
  {
    var t := s.tcbs[s.cur];
    if t.HeldOrSuspended() then s.(cur := s.cur - 1)
    else
      var s1 := s.(currentId := s.cur);
      if t.Waiting() && t.queue != [] then RunTask(s1.Put(s.cur, Taken(t)), Some(t.queue[0]))
      else RunTask(s1, None)
  }

  // ----- what every reachable state keeps

  predicate IsDevice(id: int) {
    id == ID_DEVICE_A || id == ID_DEVICE_B
  }

  predicate IsHandler(id: int) {
    id == ID_HANDLER_A || id == ID_HANDLER_B
  }

  predicate Known(id: int) {
    0 <= id < NUMBER_OF_IDS
  }

  /** The payload a worker has written: four letters. */
  predicate Filled(a2: seq<int>) {
    |a2| == DATA_SIZE && forall k :: 0 <= k < |a2| ==> 1 <= a2[k] <= 26
  }

  /** Work packets carry four letters at a handler and at a device, and no packet carries more. */
  predicate PayloadOk(i: int, p: Packet) {
    |p.a2| <= DATA_SIZE && (p.kind == WorkPacket && (IsHandler(i) || IsDevice(i)) ==> Filled(p.a2) && 0 <= p.a1 <= DATA_SIZE)
  }

  /** `Any` packets at all; `DeviceBound` when device packets keep away from the worker and from
      going between handlers; `NoRefill` when work packets keep away from the worker. */
  datatype Mode = Any | DeviceBound | NoRefill

  /** Packets that may lie at the task `i`. Neither mode lets a work packet at a handler name a handler. */
  predicate Allowed(mode: Mode, i: int, p: Packet) {
    match mode
    case Any => true
    case DeviceBound =>
      if i == ID_WORKER then p.kind == WorkPacket
      else if IsHandler(i) then !IsHandler(p.id) && (p.kind == DevicePacket ==> p.id != ID_WORKER)
      else IsDevice(i) && p.kind == DevicePacket ==> p.id != ID_WORKER
    case NoRefill =>
      if i == ID_WORKER then p.kind == DevicePacket
      else if IsHandler(i) then p.kind == WorkPacket ==> !IsHandler(p.id) && p.id != ID_WORKER
      else IsDevice(i) && p.kind == WorkPacket ==> p.id != ID_WORKER
  }

  /** What is asked of the packets: a mode, that they name known tasks, that their payloads are in order. */
  datatype Rules = Rules(mode: Mode, known: bool, payload: bool)

  predicate Routed(r: Rules, i: int, p: Packet) {
    Allowed(r.mode, i, p) && (r.known ==> Known(p.id)) && (r.payload ==> PayloadOk(i, p))
  }

  predicate AllRouted(r: Rules, i: int, ps: seq<Packet>) {
    forall k :: 0 <= k < |ps| ==> Routed(r, i, ps[k])
  }

  predicate AllOf(kind: Kind, ps: seq<Packet>) {
    forall k :: 0 <= k < |ps| ==> ps[k].kind == kind
  }

  predicate TaskOk(r: Rules, i: int, t: Tcb) {
    match t.task
    case Idle(_, count) => i == ID_IDLE && !t.suspended && (t.held ==> count == 0)
    case Worker(_, w2) => i == ID_WORKER && !t.held && (r.payload ==> 0 <= w2 <= 26)
    case Handler(work, device) =>
      IsHandler(i) && !t.held && AllRouted(r, i, work) && AllRouted(r, i, device) &&
      AllOf(WorkPacket, work) && AllOf(DevicePacket, device)
    case Device(slot) => IsDevice(i) && (slot.Some? ==> Routed(r, i, slot.value) && !t.suspended)
  }

  /** A block is marked runnable exactly when a packet waits for it; the idle task never takes one. */
  predicate TcbOk(r: Rules, i: int, t: Tcb) {
    TaskOk(r, i, t) && AllRouted(r, i, t.queue) && (i != ID_IDLE ==> (t.runnable <==> t.queue != []))
  }

  predicate TcbsOk(r: Rules, s: State) {
    s.WF() && forall i :: 0 <= i < NUMBER_OF_IDS ==> TcbOk(r, i, s.tcbs[i])
  }

  /** No task of higher priority than the current one is ready. */
  predicate HighestReady(s: State) {
    s.WF() && forall i :: s.cur < i < NUMBER_OF_IDS ==> s.tcbs[i].HeldOrSuspended()
  }

  /** The schedule may have been ended by a packet for an unknown task; then some task may be ready. */
  predicate Inv(r: Rules, s: State) {
    TcbsOk(r, s) && (r.known || s.Running() ==> HighestReady(s))
  }

  // ----- the measures of a run

  /** A device packet at a handler can be sent once before a device has to return it. Without
      refills a work packet lets four device packets through and then goes itself. */
  function Weight(mode: Mode, p: Packet): nat {
    if mode.NoRefill? then
      if p.kind == WorkPacket then 1 + (if p.a1 < DATA_SIZE then DATA_SIZE - p.a1 else 0) else 0
    else if p.kind == DevicePacket then 1 else 0
  }

  /** A work packet that a handler has finished still has to go through the worker. */
  function Finished(mode: Mode, p: Packet): nat {
    if !mode.NoRefill? && p.kind == WorkPacket && p.a1 >= DATA_SIZE then 2 else 0
  }

  function Weights(mode: Mode, ps: seq<Packet>): nat {
    if ps == [] then 0 else Weight(mode, ps[0]) + Weights(mode, ps[1..])
  }

  function AllFinished(mode: Mode, ps: seq<Packet>): nat {
    if ps == [] then 0 else Finished(mode, ps[0]) + AllFinished(mode, ps[1..])
  }

  function Occurrences(ps: seq<Packet>, uid: nat): nat {
    if ps == [] then 0 else (if ps[0].uid == uid then 1 else 0) + Occurrences(ps[1..], uid)
  }

  lemma {:induction false} Appended(mode: Mode, ps: seq<Packet>, p: Packet, uid: nat)
    ensures Weights(mode, ps + [p]) == Weights(mode, ps) + Weight(mode, p)
    ensures AllFinished(mode, ps + [p]) == AllFinished(mode, ps) + Finished(mode, p)
    ensures Occurrences(ps + [p], uid) == Occurrences(ps, uid) + Occurrences([p], uid)
  {
    if ps != [] {
      assert (ps + [p])[1..] == ps[1..] + [p];
      Appended(mode, ps[1..], p, uid);
    } else {
      assert ps + [p] == [p];
    }
  }

  /** How often the packet `uid` lies at a task: waiting, in a list or in the device's slot. */
  function At(t: Tcb, uid: nat): nat {
    Occurrences(t.queue, uid) +
    match t.task
    case Handler(work, device) => Occurrences(work, uid) + Occurrences(device, uid)
    case Device(slot) => if slot.Some? && slot.value.uid == uid then 1 else 0
    case _ => 0
  }

  function Located(uid: nat): Tcb -> nat {
    t => At(t, uid)
  }

  function Sum(f: Tcb -> nat, ts: seq<Tcb>): nat {
    if ts == [] then 0 else f(ts[0]) + Sum(f, ts[1..])
  }

  function Everywhere(s: State, uid: nat): nat {
    Sum(Located(uid), s.tcbs)
  }

  function Ready(t: Tcb): nat {
    if t.task.Device? && t.task.slot.Some? && !t.held then 1 else 0
  }

  function ToSend(mode: Mode, t: Tcb): nat {
    if t.task.Handler? then Weights(mode, t.queue) + Weights(mode, t.task.work) + Weights(mode, t.task.device) else 0
  }

  function ToWorker(mode: Mode, t: Tcb): nat {
    match t.task
    case Worker(_, _) => |t.queue|
    case Handler(work, device) => AllFinished(mode, t.queue) + AllFinished(mode, work) + AllFinished(mode, device)
    case _ => 0
  }

  function ToSendIn(mode: Mode): Tcb -> nat {
    t => ToSend(mode, t)
  }

  function ToWorkerIn(mode: Mode): Tcb -> nat {
    t => ToWorker(mode, t)
  }

  function Waiting(t: Tcb): nat {
    |t.queue|
  }

  function Awake(t: Tcb): nat {
    if t.suspended then 0 else 1
  }

  function Count(s: State): int
    requires s.WF()
  {
    if s.tcbs[0].task.Idle? then s.tcbs[0].task.count else 0
  }

  lemma {:induction false} SumPut(f: Tcb -> nat, ts: seq<Tcb>, i: nat, t: Tcb)
    requires i < |ts|
    ensures Sum(f, ts[i := t]) == Sum(f, ts) - f(ts[i]) + f(t)
  {
    if i == 0 {
      assert ts[i := t][1..] == ts[1..];
    } else {
      assert ts[i := t][1..] == ts[1..][i - 1 := t];
      SumPut(f, ts[1..], i - 1, t);
    }
  }

  /** The measures of a run, the most significant first. `ready` counts the devices that were
      released with a packet to forward, `toSend` what the handlers can send before a device has to
      return something, `toWorker` the way left to work packets before a handler needs a device
      packet again, `waiting` the queued packets and `awake` the tasks not suspended. */
  datatype Load = Load(ready: nat, toSend: nat, toWorker: nat, waiting: nat, awake: nat)

  function LoadOf(mode: Mode, ts: seq<Tcb>): Load {
    Load(Sum(Ready, ts), Sum(ToSendIn(mode), ts), Sum(ToWorkerIn(mode), ts), Sum(Waiting, ts), Sum(Awake, ts))
  }

  /** The state with block `i` replaced carries the load `l` instead of that of the old block. */
  predicate Changed(mode: Mode, l: Load, l': Load, t: Tcb, t': Tcb) {
    l'.ready == l.ready - Ready(t) + Ready(t') &&
    l'.toSend == l.toSend - ToSend(mode, t) + ToSend(mode, t') &&
    l'.toWorker == l.toWorker - ToWorker(mode, t) + ToWorker(mode, t') &&
    l'.waiting == l.waiting - Waiting(t) + Waiting(t') &&
    l'.awake == l.awake - Awake(t) + Awake(t')
  }

  lemma LoadPut(mode: Mode, ts: seq<Tcb>, i: nat, t: Tcb)
    requires i < |ts|
    ensures Changed(mode, LoadOf(mode, ts), LoadOf(mode, ts[i := t]), ts[i], t)
  {
    SumPut(Ready, ts, i, t);
    SumPut(ToSendIn(mode), ts, i, t);
    SumPut(ToWorkerIn(mode), ts, i, t);
    SumPut(Waiting, ts, i, t);
    SumPut(Awake, ts, i, t);
  }

  /** Sending a packet on keeps the blocks in order and never overtakes a ready task. */
  lemma QueueKeeps(r: Rules, s: State, p: Packet)
    requires TcbsOk(r, s) && HighestReady(s) && s.Running() && s.currentId == s.cur
    requires Known(p.id) ==> Routed(r, p.id, p.(id := s.cur))
    requires r.known ==> Known(p.id)
    ensures Inv(r, Queue(s, p))
  {
    if Known(p.id) {
      var t := s.tcbs[p.id];
      var q := p.(id := s.cur);
      assert TcbOk(r, p.id, t);
      assert TcbOk(r, p.id, AddPacket(t, q));
    }
  }

  /** What a packet adds to the load when it is put into the queue of the block `t`. */
  function Added(mode: Mode, l: Load, t: Tcb, p: Packet): Load {
    l.(toSend := l.toSend + if t.task.Handler? then Weight(mode, p) else 0,
       toWorker := l.toWorker + if t.task.Handler? then Finished(mode, p) else if t.task.Worker? then 1 else 0,
       waiting := l.waiting + 1)
  }

  lemma AddPacketLoad(mode: Mode, l: Load, l': Load, t: Tcb, p: Packet)
    requires Changed(mode, l, l', t, AddPacket(t, p))
    ensures l' == Added(mode, l, t, p)
  {
    Appended(mode, t.queue, p, 0);
    assert AddPacket(t, p).queue == t.queue + [p];
  }

  lemma AddPacketAt(t: Tcb, p: Packet, uid: nat)
    ensures At(AddPacket(t, p), uid) == At(t, uid) + Occurrences([p], uid)
  {
    Appended(Any, t.queue, p, uid);
    assert AddPacket(t, p).queue == t.queue + [p];
  }

  /** Sending a packet on puts it into one queue. */
  lemma QueueMeasures(mode: Mode, s: State, p: Packet, uid: nat)
    requires s.Running() && Known(p.id)
    ensures var s' := Queue(s, p);
            Everywhere(s', uid) == Everywhere(s, uid) + Occurrences([p], uid) &&
            LoadOf(mode, s'.tcbs) == Added(mode, LoadOf(mode, s.tcbs), s.tcbs[p.id], p)
  {
    var t := s.tcbs[p.id];
    var q := p.(id := s.currentId);
    var t' := AddPacket(t, q);
    assert Occurrences([q], uid) == Occurrences([p], uid) && Weight(mode, q) == Weight(mode, p);
    AddPacketAt(t, q, uid);
    SumPut(Located(uid), s.tcbs, p.id, t');
    LoadPut(mode, s.tcbs, p.id, t');
    AddPacketLoad(mode, LoadOf(mode, s.tcbs), LoadOf(mode, s.tcbs[p.id := t']), t, q);
  }

  // ----- one run of a task

  function InHand(packet: Option<Packet>): seq<Packet> {
    if packet.Some? then [packet.value] else []
  }

  /** The state in which the current task is run, with the packet it was given. */
  predicate Begun(r: Rules, s: State, packet: Option<Packet>) {
    Inv(r, s) && s.Running() && s.currentId == s.cur && !s.tcbs[s.cur].held && !s.tcbs[s.cur].suspended &&
    (packet.Some? ==> Routed(r, s.cur, packet.value))
  }

  /** Giving the current task a new private state that fits it changes nothing else. */
  lemma SetTaskKeeps(r: Rules, s: State, packet: Option<Packet>, task: Task)
    requires Begun(r, s, packet) && TaskOk(r, s.cur, s.tcbs[s.cur].(task := task))
    ensures Begun(r, SetTask(s, task), packet)
    ensures Changed(r.mode, LoadOf(r.mode, s.tcbs), LoadOf(r.mode, SetTask(s, task).tcbs), s.tcbs[s.cur], s.tcbs[s.cur].(task := task))
  {
    LoadPut(r.mode, s.tcbs, s.cur, s.tcbs[s.cur].(task := task));
  }

  lemma SuspendLoad(mode: Mode, l: Load, l': Load, t: Tcb)
    requires Changed(mode, l, l', t, t.(suspended := true)) && !t.suspended
    ensures l'.awake == l.awake - 1 && l' == l.(awake := l'.awake)
  {
  }

  lemma SuspendKeeps(r: Rules, s: State)
    requires Begun(r, s, None) && !s.tcbs[s.cur].task.Idle?
    requires s.tcbs[s.cur].task.Device? ==> s.tcbs[s.cur].task.slot.None?
    ensures Inv(r, SuspendCurrent(s)) && LoadOf(r.mode, s.tcbs).awake > 0
    ensures LoadOf(r.mode, SuspendCurrent(s).tcbs) == LoadOf(r.mode, s.tcbs).(awake := LoadOf(r.mode, s.tcbs).awake - 1)
    ensures forall uid :: Everywhere(SuspendCurrent(s), uid) == Everywhere(s, uid)
  {
    var t := s.tcbs[s.cur].(suspended := true);
    assert TcbOk(r, s.cur, t);
    LoadPut(r.mode, s.tcbs, s.cur, t);
    SuspendLoad(r.mode, LoadOf(r.mode, s.tcbs), LoadOf(r.mode, s.tcbs[s.cur := t]), s.tcbs[s.cur]);
    forall uid ensures Everywhere(SuspendCurrent(s), uid) == Everywhere(s, uid) {
      SumPut(Located(uid), s.tcbs, s.cur, t);
    }
  }

  lemma LettersFilled(w2: int, n: nat)
    requires 0 <= w2 <= 26
    ensures |Letters(w2, n)| == n && forall k :: 0 <= k < n ==> 1 <= Letters(w2, n)[k] <= 26
    ensures 0 <= LettersAfter(w2, n) <= 26
    decreases n
  {
    if n > 0 { LettersFilled(NextLetter(w2), n - 1); }
  }

  /** What a handler or a device forwards is allowed where it arrives. */
  lemma Passes(r: Rules, i: int, p: Packet)
    requires Routed(r, i, p) && (IsHandler(i) || IsDevice(i)) && Known(p.id)
    ensures Routed(r, p.id, p.(id := i))
  {
  }

  /** Where the packet `q` is sent when its task is known; the end of the schedule otherwise. */
  function Sent(mode: Mode, l: Load, s: State, q: Packet): Load
    requires s.WF()
  {
    if Known(q.id) then Added(mode, l, s.tcbs[q.id], q) else l
  }

  /** The current task goes over to the private state `task` and sends `q`. */
  lemma Send(r: Rules, s: State, packet: Option<Packet>, task: Task, q: Packet) returns (l: Load)
    requires Begun(r, s, packet) && TaskOk(r, s.cur, s.tcbs[s.cur].(task := task)) && 0 < s.cur
    requires (Known(q.id) ==> Routed(r, q.id, q.(id := s.cur))) && (r.known ==> Known(q.id))
    requires s.tcbs[s.cur].task.Handler? == task.Handler? && s.tcbs[s.cur].task.Worker? == task.Worker?
    ensures var s', t, t' := Queue(SetTask(s, task), q), s.tcbs[s.cur], s.tcbs[s.cur].(task := task);
            Inv(r, s') && s'.tcbs[0].task == s.tcbs[0].task && s'.tcbs[0].held == s.tcbs[0].held &&
            Changed(r.mode, LoadOf(r.mode, s.tcbs), l, t, t') && LoadOf(r.mode, s'.tcbs) == Sent(r.mode, l, s, q) &&
            (Known(q.id) ==> forall uid :: Everywhere(s', uid) == Everywhere(s, uid) - At(t, uid) + At(t', uid) + Occurrences([q], uid))
  {
    var s1 := SetTask(s, task);
    var t' := s.tcbs[s.cur].(task := task);
    SetTaskKeeps(r, s, packet, task);
    l := LoadOf(r.mode, s1.tcbs);
    QueueKeeps(r, s1, q);
    if Known(q.id) {
      QueueMeasures(r.mode, s1, q, 0);
      forall uid ensures Everywhere(Queue(s1, q), uid) ==
                         Everywhere(s, uid) - At(s.tcbs[s.cur], uid) + At(t', uid) + Occurrences([q], uid) {
        SumPut(Located(uid), s.tcbs, s.cur, t');
        QueueMeasures(r.mode, s1, q, uid);
      }
    }
  }

  /** The idle task's private state and whether it is held. */
  predicate SameIdle(s: State, s': State) {
    s.WF() && s'.WF() && s'.tcbs[0].task == s.tcbs[0].task && s'.tcbs[0].held == s.tcbs[0].held
  }

  /** What a run of the current task does to the packet in its hand and to the idle task. */
  ghost predicate Passed(r: Rules, s: State, packet: Option<Packet>, s': State) {
    Inv(r, s') && s.WF() && (0 < s.cur ==> SameIdle(s, s')) &&
    (r.known ==> forall uid :: Everywhere(s', uid) == Everywhere(s, uid) + Occurrences(InHand(packet), uid))
  }

  lemma Single(p: Packet)
    ensures forall uid :: Occurrences([p], uid) == if p.uid == uid then 1 else 0
  {
  }

  lemma WorkerSends(r: Rules, p: Packet, h: int, w2: int, q: Packet)
    requires Routed(r, ID_WORKER, p) && IsHandler(h) && (r.payload ==> 0 <= w2 <= 26)
    requires q == p.(id := h, a1 := 0, a2 := Overwrite(p.a2, Letters(w2, DATA_SIZE)))
    ensures Routed(r, h, q.(id := ID_WORKER)) && Weight(r.mode, q) == Weight(r.mode, p.(a1 := 0)) && Finished(r.mode, q) == 0
    ensures r.mode == DeviceBound ==> Weight(r.mode, q) == 0
    ensures r.mode == NoRefill ==> Weight(r.mode, q) == 0
  {
    if r.payload { LettersFilled(w2, DATA_SIZE); }
  }

  lemma WorkerRun(r: Rules, s: State, p: Packet)
    requires Begun(r, s, Some(p)) && s.cur == ID_WORKER
    ensures Passed(r, s, Some(p), RunTask(s, Some(p)))
    ensures !r.mode.Any? ==>
      var l, l' := LoadOf(r.mode, s.tcbs), LoadOf(r.mode, RunTask(s, Some(p)).tcbs);
      l'.ready == l.ready && l'.toSend == l.toSend && l'.toWorker == l.toWorker
  {
    assert TcbOk(r, s.cur, s.tcbs[s.cur]);
    var w2 := s.tcbs[s.cur].task.w2;
    var h := if s.tcbs[s.cur].task.w1 == ID_HANDLER_A then ID_HANDLER_B else ID_HANDLER_A;
    assert TcbOk(r, h, s.tcbs[h]);
    var q := p.(id := h, a1 := 0, a2 := Overwrite(p.a2, Letters(w2, DATA_SIZE)));
    WorkerSends(r, p, h, w2, q);
    if r.payload { LettersFilled(w2, DATA_SIZE); }
    var l := Send(r, s, Some(p), Worker(h, LettersAfter(w2, DATA_SIZE)), q);
    Single(q);
    Single(p);
  }

  lemma DeviceForwards(r: Rules, s: State, p: Packet)
    requires Begun(r, s, None) && s.tcbs[s.cur].task == Device(Some(p))
    ensures Passed(r, s, None, RunTask(s, None))
    ensures LoadOf(r.mode, RunTask(s, None).tcbs).ready < LoadOf(r.mode, s.tcbs).ready
  {
    assert TcbOk(r, s.cur, s.tcbs[s.cur]);
    if Known(p.id) { Passes(r, s.cur, p); }
    var l := Send(r, s, None, Device(None), p);
    Single(p);
  }

  /** A device is given a packet only when its slot is empty, and holds itself at once. */
  lemma DeviceAccepts(r: Rules, s: State, p: Packet)
    requires Begun(r, s, Some(p)) && s.tcbs[s.cur].task == Device(None)
    ensures Passed(r, s, Some(p), RunTask(s, Some(p))) && LoadOf(r.mode, RunTask(s, Some(p)).tcbs) == LoadOf(r.mode, s.tcbs)
  {
    var t := s.tcbs[s.cur];
    assert TcbOk(r, s.cur, t);
    var t' := t.(task := Device(Some(p)), held := true);
    assert TcbOk(r, s.cur, t');
    var s' := RunTask(s, Some(p));
    assert s'.tcbs == s.tcbs[s.cur := t'];
    LoadPut(r.mode, s.tcbs, s.cur, t');
    forall uid ensures Everywhere(s', uid) == Everywhere(s, uid) + Occurrences([p], uid) {
      SumPut(Located(uid), s.tcbs, s.cur, t');
    }
  }

  // ----- the handler

  lemma FileOk(r: Rules, s: State, packet: Option<Packet>, work: seq<Packet>, device: seq<Packet>)
    requires Begun(r, s, packet) && s.tcbs[s.cur].task == Handler(work, device)
    ensures TaskOk(r, s.cur, s.tcbs[s.cur].(task := Handler(FileWork(work, packet), FileDevice(device, packet))))
  {
    assert TcbOk(r, s.cur, s.tcbs[s.cur]);
  }

  lemma FileMeasures(mode: Mode, packet: Option<Packet>, work: seq<Packet>, device: seq<Packet>, uid: nat)
    ensures var work', device' := FileWork(work, packet), FileDevice(device, packet);
            Occurrences(work', uid) + Occurrences(device', uid) ==
              Occurrences(work, uid) + Occurrences(device, uid) + Occurrences(InHand(packet), uid) &&
            Weights(mode, work') + Weights(mode, device') ==
              Weights(mode, work) + Weights(mode, device) + Weights(mode, InHand(packet)) &&
            AllFinished(mode, work') + AllFinished(mode, device') ==
              AllFinished(mode, work) + AllFinished(mode, device) + AllFinished(mode, InHand(packet))
  {
    if packet.Some? {
      Appended(mode, work, packet.value, uid);
      Appended(mode, device, packet.value, uid);
    }
  }

  lemma SendOk(r: Rules, i: int, t: Tcb, work: seq<Packet>, device: seq<Packet>, x: int)
    requires TaskOk(r, i, t) && t.task.Handler? && t.task.work != [] && t.task.device != []
    requires t.task.work[0].a1 < DATA_SIZE
    requires work == [t.task.work[0].(a1 := t.task.work[0].a1 + 1)] + t.task.work[1..] && device == t.task.device[1..]
    ensures Routed(r, i, t.task.device[0].(a1 := x)) && t.task.device[0].kind == DevicePacket && t.task.work[0].kind == WorkPacket
    ensures TaskOk(r, i, t.(task := Handler(work, device)))
  {
    assert Routed(r, i, t.task.work[0]) && Routed(r, i, t.task.device[0]);
  }

  /** What a handler files and then sends or keeps is what it held and was given. */
  lemma SentAt(t: Tcb, packet: Option<Packet>, task: Task, q: Packet)
    requires t.task.Handler? && task.Handler?
    requires var work, device := FileWork(t.task.work, packet), FileDevice(t.task.device, packet);
             (work != [] && device != [] && q.uid == device[0].uid && task.device == device[1..] &&
              task.work != [] && task.work[0].uid == work[0].uid && task.work[1..] == work[1..]) ||
             (work != [] && q == work[0] && task == Handler(work[1..], device))
    ensures forall uid :: At(t.(task := task), uid) + Occurrences([q], uid) == At(t, uid) + Occurrences(InHand(packet), uid)
  {
    Single(q);
    forall uid ensures At(t.(task := task), uid) + Occurrences([q], uid) == At(t, uid) + Occurrences(InHand(packet), uid) {
      FileMeasures(Any, packet, t.task.work, t.task.device, uid);
    }
  }

  /** A handler passes the next letter of its first work packet on with a device packet. */
  lemma HandlerSends(r: Rules, s: State, packet: Option<Packet>, task: Task, q: Packet) returns (s': State)
    requires Begun(r, s, packet) && s.tcbs[s.cur].task.Handler?
    requires var work, device := FileWork(s.tcbs[s.cur].task.work, packet), FileDevice(s.tcbs[s.cur].task.device, packet);
             work != [] && device != [] && work[0].a1 < DATA_SIZE &&
             task == Handler([work[0].(a1 := work[0].a1 + 1)] + work[1..], device[1..]) &&
             q == device[0].(a1 := Payload(work[0], work[0].a1))
    ensures s' == Queue(SetTask(s, task), q) && Passed(r, s, packet, s')
    ensures !r.mode.Any? ==> LoadOf(r.mode, s'.tcbs).ready == LoadOf(r.mode, s.tcbs).ready
    ensures !r.mode.Any? ==> LoadOf(r.mode, s'.tcbs).toSend < LoadOf(r.mode, s.tcbs).toSend + Weights(r.mode, InHand(packet))
  {
    hide AllRouted, AllOf, LoadOf, Weights, AllFinished, At, Everywhere, Occurrences;
    var t := s.tcbs[s.cur];
    FileOk(r, s, packet, t.task.work, t.task.device);
    var t1 := t.(task := Handler(FileWork(t.task.work, packet), FileDevice(t.task.device, packet)));
    SendOk(r, s.cur, t1, task.work, task.device, q.a1);
    assert TcbOk(r, s.cur, t) && IsHandler(s.cur);
    if Known(q.id) {
      Passes(r, s.cur, q);
      assert TcbOk(r, q.id, s.tcbs[q.id]);
    }
    var l := Send(r, s, packet, task, q);
    s' := Queue(SetTask(s, task), q);
    SentAt(t, packet, task, q);
    if !r.mode.Any? {
      FileMeasures(r.mode, packet, t.task.work, t.task.device, 0);
      SentWeights(r.mode, t1.task.work, t1.task.device, task);
      SendsLoad(r.mode, LoadOf(r.mode, s.tcbs), l, s, t, packet, task, q);
    }
  }

  lemma SendsLoad(mode: Mode, l0: Load, l: Load, s: State, t: Tcb, packet: Option<Packet>, task: Task, q: Packet)
    requires Changed(mode, l0, l, t, t.(task := task)) && t.task.Handler? && task.Handler? && s.WF() && q.kind == DevicePacket
    requires Known(q.id) && mode != NoRefill ==> !s.tcbs[q.id].task.Handler?
    requires Weights(mode, task.work) + Weights(mode, task.device) ==
             Weights(mode, t.task.work) + Weights(mode, t.task.device) + Weights(mode, InHand(packet)) - 1
    ensures Sent(mode, l, s, q).ready == l0.ready && Sent(mode, l, s, q).toSend < l0.toSend + Weights(mode, InHand(packet))
  {
    hide Weights, AllFinished;
  }

  lemma SentWeights(mode: Mode, work: seq<Packet>, device: seq<Packet>, task: Task)
    requires work != [] && device != [] && work[0].a1 < DATA_SIZE && work[0].kind == WorkPacket && device[0].kind == DevicePacket
    requires task == Handler([work[0].(a1 := work[0].a1 + 1)] + work[1..], device[1..])
    ensures Weights(mode, task.work) + Weights(mode, task.device) == Weights(mode, work) + Weights(mode, device) - 1
  {
    assert task.work[1..] == work[1..];
  }

  /** A handler sends a work packet on whose four letters are delivered. */
  lemma HandlerReturns(r: Rules, s: State, packet: Option<Packet>, task: Task, q: Packet) returns (s': State)
    requires Begun(r, s, packet) && s.tcbs[s.cur].task.Handler?
    requires var work, device := FileWork(s.tcbs[s.cur].task.work, packet), FileDevice(s.tcbs[s.cur].task.device, packet);
             work != [] && work[0].a1 >= DATA_SIZE && task == Handler(work[1..], device) && q == work[0]
    ensures s' == Queue(SetTask(s, task), q) && Passed(r, s, packet, s')
    ensures !r.mode.Any? ==> LoadOf(r.mode, s'.tcbs).ready == LoadOf(r.mode, s.tcbs).ready
    ensures !r.mode.Any? ==>
      var l, l' := LoadOf(r.mode, s.tcbs), LoadOf(r.mode, s'.tcbs);
      l'.toSend < l.toSend + Weights(r.mode, InHand(packet)) ||
      (l'.toSend == l.toSend + Weights(r.mode, InHand(packet)) && l'.toWorker < l.toWorker + AllFinished(r.mode, InHand(packet)))
  {
    hide LoadOf, Weights, AllFinished, At, Everywhere, Occurrences;
    var t := s.tcbs[s.cur];
    FileOk(r, s, packet, t.task.work, t.task.device);
    ReturnOk(r, s.cur, t.(task := Handler(FileWork(t.task.work, packet), FileDevice(t.task.device, packet))), task);
    hide AllRouted, AllOf;
    assert TcbOk(r, s.cur, t) && IsHandler(s.cur);
    if Known(q.id) {
      Passes(r, s.cur, q);
      assert TcbOk(r, q.id, s.tcbs[q.id]);
    }
    var l := Send(r, s, packet, task, q);
    s' := Queue(SetTask(s, task), q);
    SentAt(t, packet, task, q);
    if !r.mode.Any? {
      FileMeasures(r.mode, packet, t.task.work, t.task.device, 0);
      ReturnsLoad(r.mode, LoadOf(r.mode, s.tcbs), l, s, t, packet, task, q);
    }
  }

  lemma ReturnOk(r: Rules, i: int, t: Tcb, task: Task)
    requires TaskOk(r, i, t) && t.task.Handler? && t.task.work != [] && task == Handler(t.task.work[1..], t.task.device)
    ensures Routed(r, i, t.task.work[0]) && t.task.work[0].kind == WorkPacket && TaskOk(r, i, t.(task := task))
  {
  }

  lemma ReturnsLoad(mode: Mode, l0: Load, l: Load, s: State, t: Tcb, packet: Option<Packet>, task: Task, q: Packet)
    requires Changed(mode, l0, l, t, t.(task := task)) && t.task.Handler? && task.Handler? && s.WF()
    requires q.kind == WorkPacket && q.a1 >= DATA_SIZE && FileWork(t.task.work, packet) != [] && q == FileWork(t.task.work, packet)[0]
    requires task == Handler(FileWork(t.task.work, packet)[1..], FileDevice(t.task.device, packet))
    requires Known(q.id) ==> !s.tcbs[q.id].task.Handler? && (mode == NoRefill ==> !s.tcbs[q.id].task.Worker?)
    requires Weights(mode, FileWork(t.task.work, packet)) + Weights(mode, FileDevice(t.task.device, packet)) ==
             Weights(mode, t.task.work) + Weights(mode, t.task.device) + Weights(mode, InHand(packet))
    requires AllFinished(mode, FileWork(t.task.work, packet)) + AllFinished(mode, FileDevice(t.task.device, packet)) ==
             AllFinished(mode, t.task.work) + AllFinished(mode, t.task.device) + AllFinished(mode, InHand(packet))
    ensures Sent(mode, l, s, q).ready == l0.ready
    ensures var l' := Sent(mode, l, s, q);
      (l'.toSend < l0.toSend + Weights(mode, InHand(packet)) ||
       (l'.toSend == l0.toSend + Weights(mode, InHand(packet)) && l'.toWorker < l0.toWorker + AllFinished(mode, InHand(packet))))
  {
  }

  /** A handler with nothing to pass on files its packet and suspends itself. */
  lemma HandlerWaits(r: Rules, s: State, packet: Option<Packet>, task: Task) returns (s': State)
    requires Begun(r, s, packet) && s.tcbs[s.cur].task.Handler?
    requires task == Handler(FileWork(s.tcbs[s.cur].task.work, packet), FileDevice(s.tcbs[s.cur].task.device, packet))
    ensures s' == SuspendCurrent(SetTask(s, task)) && Passed(r, s, packet, s')
    ensures LoadOf(r.mode, s'.tcbs).ready == LoadOf(r.mode, s.tcbs).ready && LoadOf(r.mode, s'.tcbs).waiting == LoadOf(r.mode, s.tcbs).waiting
    ensures LoadOf(r.mode, s'.tcbs).toSend == LoadOf(r.mode, s.tcbs).toSend + Weights(r.mode, InHand(packet))
    ensures LoadOf(r.mode, s'.tcbs).toWorker == LoadOf(r.mode, s.tcbs).toWorker + AllFinished(r.mode, InHand(packet))
    ensures LoadOf(r.mode, s'.tcbs).awake < LoadOf(r.mode, s.tcbs).awake
  {
    var t := s.tcbs[s.cur];
    FileOk(r, s, packet, t.task.work, t.task.device);
    SetTaskKeeps(r, s, packet, task);
    SuspendKeeps(r, SetTask(s, task));
    s' := SuspendCurrent(SetTask(s, task));
    FileMeasures(r.mode, packet, t.task.work, t.task.device, 0);
    forall uid ensures Everywhere(s', uid) == Everywhere(s, uid) + Occurrences(InHand(packet), uid) {
      SumPut(Located(uid), s.tcbs, s.cur, t.(task := task));
      FileMeasures(r.mode, packet, t.task.work, t.task.device, uid);
    }
  }

  // ----- one iteration of the schedule

  /** Lexicographic comparison of the first four measures. */
  predicate Lower(l: Load, m: Load) {
    l.ready < m.ready || (l.ready == m.ready && (
    l.toSend < m.toSend || (l.toSend == m.toSend && (
    l.toWorker < m.toWorker || (l.toWorker == m.toWorker && l.waiting < m.waiting)))))
  }

  predicate Less(l: Load, m: Load) {
    Lower(l, m) || (l == m.(awake := l.awake) && l.awake < m.awake)
  }

  lemma HandMeasures(mode: Mode, p: Packet)
    ensures Weights(mode, [p]) == Weight(mode, p) && AllFinished(mode, [p]) == Finished(mode, p)
  {
  }

  lemma HandlerRun(r: Rules, s: State, packet: Option<Packet>)
    requires Begun(r, s, packet) && s.tcbs[s.cur].task.Handler?
    ensures Passed(r, s, packet, RunTask(s, packet))
    ensures !r.mode.Any? && packet.Some? ==>
      Lower(LoadOf(r.mode, RunTask(s, packet).tcbs), Added(r.mode, LoadOf(r.mode, s.tcbs), s.tcbs[s.cur], packet.value))
    ensures !r.mode.Any? && packet.None? ==> Less(LoadOf(r.mode, RunTask(s, packet).tcbs), LoadOf(r.mode, s.tcbs))
  {
    hide Passed, Queue, SetTask, SuspendCurrent, Inv;
    var work, device := FileWork(s.tcbs[s.cur].task.work, packet), FileDevice(s.tcbs[s.cur].task.device, packet);
    if packet.Some? { HandMeasures(r.mode, packet.value); }
    var s';
    if work != [] && work[0].a1 < DATA_SIZE && device != [] {
      s' := HandlerSends(r, s, packet, Handler([work[0].(a1 := work[0].a1 + 1)] + work[1..], device[1..]),
                         device[0].(a1 := Payload(work[0], work[0].a1)));
    } else if work != [] && work[0].a1 >= DATA_SIZE {
      s' := HandlerReturns(r, s, packet, Handler(work[1..], device), work[0]);
    } else {
      s' := HandlerWaits(r, s, packet, Handler(work, device));
    }
    assert s' == RunTask(s, packet);
  }

  lemma TaskRun(r: Rules, s: State, packet: Option<Packet>)
    requires Begun(r, s, packet) && 0 < s.cur
    requires packet.Some? && s.tcbs[s.cur].task.Device? ==> s.tcbs[s.cur].task.slot.None?
    ensures Passed(r, s, packet, RunTask(s, packet))
    ensures !r.mode.Any? && packet.Some? ==>
      Lower(LoadOf(r.mode, RunTask(s, packet).tcbs), Added(r.mode, LoadOf(r.mode, s.tcbs), s.tcbs[s.cur], packet.value))
    ensures !r.mode.Any? && packet.None? ==> Less(LoadOf(r.mode, RunTask(s, packet).tcbs), LoadOf(r.mode, s.tcbs))
  {
    var t := s.tcbs[s.cur];
    assert TcbOk(r, s.cur, t);
    if t.task.Handler? {
      HandlerRun(r, s, packet);
    } else if packet.None? {
      if t.task.Device? && t.task.slot.Some? {
        DeviceForwards(r, s, t.task.slot.value);
      } else {
        SuspendKeeps(r, s);
      }
    } else if t.task.Device? {
      DeviceAccepts(r, s, packet.value);
    } else {
      WorkerRun(r, s, packet.value);
    }
  }

  lemma IdleRun(r: Rules, s: State)
    requires Begun(r, s, None) && s.cur == ID_IDLE
    ensures Inv(r, RunTask(s, None)) && Count(RunTask(s, None)) == Count(s) - 1
    ensures RunTask(s, None).tcbs[0].held <==> Count(s) == 1
    ensures forall uid :: Everywhere(RunTask(s, None), uid) == Everywhere(s, uid)
  {
    var t := s.tcbs[0];
    assert TcbOk(r, 0, t);
    var d := if t.task.count == 1 then 0 else if t.task.v1 % 2 == 0 then ID_DEVICE_A else ID_DEVICE_B;
    assert TcbOk(r, d, s.tcbs[d]);
    forall uid ensures Everywhere(RunTask(s, None), uid) == Everywhere(s, uid) {
      IdleConserves(r, s, uid);
    }
  }

  lemma IdleConserves(r: Rules, s: State, uid: nat)
    requires Begun(r, s, None) && s.cur == ID_IDLE
    ensures Everywhere(RunTask(s, None), uid) == Everywhere(s, uid)
  {
    var t := s.tcbs[0];
    assert TcbOk(r, 0, t);
    var s' := RunTask(s, None);
    var d := if t.task.count == 1 then 0 else if t.task.v1 % 2 == 0 then ID_DEVICE_A else ID_DEVICE_B;
    SumPut(Located(uid), s.tcbs, 0, s'.tcbs[0]);
    assert d != 0 ==> s'.tcbs == s.tcbs[0 := s'.tcbs[0]][d := s'.tcbs[d]];
    SumPut(Located(uid), s.tcbs[0 := s'.tcbs[0]], d, s'.tcbs[d]);
  }

  lemma TakenOk(r: Rules, i: int, t: Tcb)
    requires TcbOk(r, i, t) && t.Waiting()
    ensures 0 < i && t.queue != [] && TcbOk(r, i, Taken(t)) && Routed(r, i, t.queue[0])
    ensures t.task.Device? ==> t.task.slot.None?
  {
  }

  lemma TakenMeasures(mode: Mode, l: Load, l': Load, t: Tcb)
    requires t.queue != [] && t.suspended && Changed(mode, l, l', t, Taken(t))
    requires t.task.Device? ==> t.task.slot.None?
    ensures Added(mode, l', t, t.queue[0]).(awake := l.awake) == l
    ensures forall uid :: At(t, uid) == At(Taken(t), uid) + Occurrences([t.queue[0]], uid)
  {
    Single(t.queue[0]);
  }

  lemma LowerThan(l: Load, m: Load, n: Load)
    requires Lower(l, m) && m.(awake := n.awake) == n
    ensures Lower(l, n)
  {
  }

  lemma PacketStep(r: Rules, s: State)
    requires Inv(r, s) && s.Running() && s.tcbs[s.cur].Waiting()
    ensures Inv(r, Step(s)) && SameIdle(s, Step(s))
    ensures !r.mode.Any? ==> Lower(LoadOf(r.mode, Step(s).tcbs), LoadOf(r.mode, s.tcbs))
    ensures r.known ==> forall uid :: Everywhere(Step(s), uid) == Everywhere(s, uid)
  {
    hide RunTask, LoadOf, Changed, Lower;
    var t := s.tcbs[s.cur];
    assert TcbOk(r, s.cur, t);
    TakenOk(r, s.cur, t);
    var p := Some(t.queue[0]);
    var s1 := s.(currentId := s.cur).Put(s.cur, Taken(t));
    assert Begun(r, s1, p);
    TaskRun(r, s1, p);
    LoadPut(r.mode, s.tcbs, s.cur, Taken(t));
    TakenMeasures(r.mode, LoadOf(r.mode, s.tcbs), LoadOf(r.mode, s1.tcbs), t);
    if !r.mode.Any? {
      LowerThan(LoadOf(r.mode, Step(s).tcbs), Added(r.mode, LoadOf(r.mode, s1.tcbs), s1.tcbs[s.cur], p.value), LoadOf(r.mode, s.tcbs));
    }
    forall uid | r.known ensures Everywhere(Step(s), uid) == Everywhere(s, uid) {
      SumPut(Located(uid), s.tcbs, s.cur, Taken(t));
    }
  }

  lemma EmptyStep(r: Rules, s: State)
    requires Inv(r, s) && s.Running() && 0 < s.cur && !s.tcbs[s.cur].HeldOrSuspended() && !s.tcbs[s.cur].Waiting()
    ensures Inv(r, Step(s)) && SameIdle(s, Step(s))
    ensures !r.mode.Any? ==> Less(LoadOf(r.mode, Step(s).tcbs), LoadOf(r.mode, s.tcbs))
    ensures r.known ==> forall uid :: Everywhere(Step(s), uid) == Everywhere(s, uid)
  {
    var s1 := s.(currentId := s.cur);
    assert Begun(r, s1, None);
    TaskRun(r, s1, None);
  }

  /** The idle task can stop the schedule: its count will come down to zero. */
  predicate Finite(s: State)
    requires s.WF()
  {
    s.tcbs[0].held || 1 <= Count(s)
  }

  /** Lexicographically: the idle task's count, the load, the position in the list. */
  predicate Closer(mode: Mode, s': State, s: State)
    requires s.WF() && s'.WF()
  {
    0 <= Count(s') < Count(s) || (Count(s') == Count(s) && Less(LoadOf(mode, s'.tcbs), LoadOf(mode, s.tcbs))) ||
    (s'.tcbs == s.tcbs && s'.cur < s.cur)
  }

  /** Every iteration keeps the invariant, for any packets: the task run is the ready task of highest
      priority. With the packets of a mode every iteration comes closer to the end. */
  lemma StepKeeps(r: Rules, s: State)
    requires Inv(r, s) && s.Running()
    ensures Inv(r, Step(s))
    ensures Finite(s) <==> Finite(Step(s))
    ensures !r.mode.Any? && Finite(s) ==> Closer(r.mode, Step(s), s)
  {
    assert TcbOk(r, s.cur, s.tcbs[s.cur]) && TcbOk(r, 0, s.tcbs[0]);
    if s.tcbs[s.cur].HeldOrSuspended() {
    } else if s.tcbs[s.cur].Waiting() {
      PacketStep(r, s);
    } else if s.cur == 0 {
      var s1 := s.(currentId := s.cur);
      assert Begun(r, s1, None);
      IdleRun(r, s1);
    } else {
      EmptyStep(r, s);
    }
  }

  /** No iteration loses, duplicates or overwrites a packet when every packet names a task. */
  lemma StepConserves(r: Rules, s: State, uid: nat)
    requires Inv(r, s) && r.known && s.Running()
    ensures Everywhere(Step(s), uid) == Everywhere(s, uid)
  {
    assert TcbOk(r, s.cur, s.tcbs[s.cur]) && TcbOk(r, 0, s.tcbs[0]);
    if s.tcbs[s.cur].HeldOrSuspended() {
    } else if s.tcbs[s.cur].Waiting() {
      PacketStep(r, s);
    } else if s.cur == 0 {
      var s1 := s.(currentId := s.cur);
      assert Begun(r, s1, None);
      IdleRun(r, s1);
    } else {
      EmptyStep(r, s);
    }
  }

  // ----- whole runs

  /** The state after at most `n` iterations. */
  function Iterate(s: State, n: nat): State
    decreases n
  {
    if n == 0 || !s.Running() then s else Iterate(Step(s), n - 1)
  }

  lemma {:induction false} ReachableKeeps(r: Rules, s: State, n: nat)
    requires Inv(r, s)
    ensures Inv(r, Iterate(s, n))
    decreases n
  {
    hide Step, Inv;
    if n > 0 && s.Running() {
      StepKeeps(r, s);
      ReachableKeeps(r, Step(s), n - 1);
    }
  }

  lemma {:induction false} ReachableConserves(r: Rules, s: State, n: nat, uid: nat)
    requires Inv(r, s) && r.known
    ensures Everywhere(Iterate(s, n), uid) == Everywhere(s, uid)
    decreases n
  {
    hide Step, Inv;
    if n > 0 && s.Running() {
      StepKeeps(r, s);
      StepConserves(r, s, uid);
      ReachableConserves(r, Step(s), n - 1, uid);
    }
  }

  lemma InvWF(r: Rules, s: State)
    requires Inv(r, s)
    ensures s.WF() && (s.Running() <==> s.cur >= 0)
  {
  }

  /** The state in which the schedule ends. */
  function Run(r: Rules, s: State): State
    requires Inv(r, s) && !r.mode.Any? && Finite(s)
    decreases Count(s), LoadOf(r.mode, s.tcbs).ready, LoadOf(r.mode, s.tcbs).toSend, LoadOf(r.mode, s.tcbs).toWorker,
              LoadOf(r.mode, s.tcbs).waiting, LoadOf(r.mode, s.tcbs).awake, s.cur
  {
    if s.cur < 0 then s
    else
      StepKeeps(r, s);
      Run(r, Step(s))
  }

  lemma {:induction false} RunSteps(r: Rules, s: State) returns (n: nat)
    requires Inv(r, s) && !r.mode.Any? && Finite(s)
    ensures Run(r, s) == Iterate(s, n) && Run(r, s).cur < 0
    decreases Count(s), LoadOf(r.mode, s.tcbs).ready, LoadOf(r.mode, s.tcbs).toSend, LoadOf(r.mode, s.tcbs).toWorker,
              LoadOf(r.mode, s.tcbs).waiting, LoadOf(r.mode, s.tcbs).awake, s.cur
  {
    hide Step, Inv;
    InvWF(r, s);
    if s.cur < 0 {
      n := 0;
    } else {
      StepKeeps(r, s);
      var m := RunSteps(r, Step(s));
      n := m + 1;
    }
  }

  /** The schedule ends. When every packet names a task it ends after the idle task's last turn, with
      nothing ready to run and with every packet in exactly the number of places it was in before. */
  lemma RunEnds(r: Rules, s: State, uid: nat)
    requires Inv(r, s) && !r.mode.Any? && Finite(s)
    ensures Inv(r, Run(r, s)) && Run(r, s).cur == -1
    ensures r.known ==> Count(Run(r, s)) == 0 && Everywhere(Run(r, s), uid) == Everywhere(s, uid)
    ensures r.known ==> forall i :: 0 <= i < NUMBER_OF_IDS ==> Run(r, s).tcbs[i].HeldOrSuspended()
  {
    var n := RunSteps(r, s);
    ReachableKeeps(r, s, n);
    if r.known {
      ReachableConserves(r, s, n, uid);
      assert TcbOk(r, 0, Run(r, s).tcbs[0]) && Run(r, s).tcbs[0].HeldOrSuspended();
    }
  }

  lemma {:induction false} NeverEnds(r: Rules, s: State, n: nat)
    requires Inv(r, s) && r.known && s.Running() && !Finite(s)
    ensures Iterate(s, n).Running()
    decreases n
  {
    hide Step;
    if n > 0 {
      StepKeeps(r, s);
      var s' := Step(s);
      assert TcbOk(r, 0, s'.tcbs[0]) && !s'.tcbs[0].HeldOrSuspended();
      NeverEnds(r, s', n - 1);
    }
  }

  ghost predicate Ends(s: State) {
    exists n :: !Iterate(s, n).Running()
  }

  /** With the packets of a mode the schedule ends exactly when the idle task's count is positive
      (or it is held from the start). */
  lemma EndsIffFinite(r: Rules, s: State)
    requires Inv(r, s) && !r.mode.Any? && s.Running()
    ensures Finite(s) ==> Ends(s)
    ensures r.known ==> (Ends(s) <==> Finite(s))
  {
    if Finite(s) {
      var n := RunSteps(r, s);
      assert !Iterate(s, n).Running();
    } else if r.known {
      forall n ensures Iterate(s, n).Running() { NeverEnds(r, s, n); }
    }
  }

  // ----- the state in which a schedule starts

  function NewTcb(running: bool, queue: seq<Packet>, task: Task): Tcb {
    Tcb(false, !running, !running && queue != [], queue, task)
  }

  /** The six tasks as they are added, each with its queue. */
  function Start(count: int, queues: seq<seq<Packet>>): State
    requires |queues| == NUMBER_OF_IDS
  {
    State([NewTcb(true, queues[0], Idle(1, count)), NewTcb(false, queues[1], Worker(ID_HANDLER_A, 0)),
           NewTcb(false, queues[2], Handler([], [])), NewTcb(false, queues[3], Handler([], [])),
           NewTcb(false, queues[4], Device(None)), NewTcb(false, queues[5], Device(None))],
          ID_DEVICE_B, -1, 0, 0)
  }

  predicate AllQueuesRouted(r: Rules, queues: seq<seq<Packet>>) {
    |queues| == NUMBER_OF_IDS && forall i :: 0 <= i < NUMBER_OF_IDS ==> AllRouted(r, i, queues[i])
  }

  lemma StartOk(r: Rules, count: int, queues: seq<seq<Packet>>)
    requires AllQueuesRouted(r, queues)
    ensures Inv(r, Start(count, queues)) && Start(count, queues).Running() && (Finite(Start(count, queues)) <==> 1 <= count)
  {
    var s := Start(count, queues);
    assert forall i :: 0 <= i < NUMBER_OF_IDS ==> s.tcbs[i].queue == queues[i];
    assert TcbOk(r, 0, s.tcbs[0]) && TcbOk(r, 1, s.tcbs[1]) && TcbOk(r, 2, s.tcbs[2]);
    assert TcbOk(r, 3, s.tcbs[3]) && TcbOk(r, 4, s.tcbs[4]) && TcbOk(r, 5, s.tcbs[5]);
  }

  /** From the start, with any packets of a mode in the queues, the schedule ends for every positive count. */
  lemma StartEnds(r: Rules, count: int, queues: seq<seq<Packet>>)
    requires AllQueuesRouted(r, queues) && !r.mode.Any? && 1 <= count
    ensures Ends(Start(count, queues))
  {
    StartOk(r, count, queues);
    EndsIffFinite(r, Start(count, queues));
  }
}
