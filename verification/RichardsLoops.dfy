/** Starting states of the Richards scheduler from which it never ends. */
module RichardsLoops {
  import opened Common
  import opened RichardsModel

  function Other(h: int): int {
    if h == ID_HANDLER_A then ID_HANDLER_B else ID_HANDLER_A
  }

  // ----- a work packet that names a handler

  /** A device that sends nothing: it is held, or its slot is empty. */
  predicate QuietDevice(t: Tcb) {
    t.held || t.task == Device(None)
  }

  predicate QuietHandler(t: Tcb) {
    !t.held && t.task == Handler([], []) && t.queue == []
  }

  /** The handler `h` has a finished work packet that names a handler. */
  predicate Bouncing(s: State, h: int) {
    s.Running() && IsHandler(h) && s.cur >= h && QuietDevice(s.tcbs[ID_DEVICE_A]) && QuietDevice(s.tcbs[ID_DEVICE_B]) &&
    QuietHandler(s.tcbs[Other(h)]) &&
    var t := s.tcbs[h];
    !t.held && t.runnable && t.task == Handler([], []) && |t.queue| == 1 &&
    t.queue[0].kind == WorkPacket && IsHandler(t.queue[0].id) && t.queue[0].a1 >= DATA_SIZE
  }

  /** A quiet task lets the schedule go on to the next one, and stays quiet. */
  lemma QuietStep(s: State) returns (t': Tcb)
    requires s.Running() && (QuietDevice(s.tcbs[s.cur]) || QuietHandler(s.tcbs[s.cur]))
    ensures Step(s).tcbs == s.tcbs[s.cur := t'] && (Step(s).cur == s.cur || Step(s).cur == s.cur - 1)
    ensures (QuietDevice(s.tcbs[s.cur]) ==> QuietDevice(t')) && (QuietHandler(s.tcbs[s.cur]) ==> QuietHandler(t'))
  {
    t' := Step(s).tcbs[s.cur];
  }

  lemma BounceStep(s: State, h: int) returns (h': int)
    requires Bouncing(s, h)
    ensures Bouncing(Step(s), h')
  {
    if s.cur > h {
      var t' := QuietStep(s);
      hide Step;
      h' := h;
    } else if s.tcbs[h].Waiting() {
      h' := s.tcbs[h].queue[0].id;
      Bounced(s, h);
    } else {
      h' := h;
      assert Step(s).tcbs == s.tcbs[h := s.tcbs[h].(suspended := true)] && Step(s).cur == h;
    }
  }

  lemma Bounced(s: State, h: int)
    requires Bouncing(s, h) && s.cur == h && s.tcbs[h].Waiting()
    ensures Bouncing(Step(s), s.tcbs[h].queue[0].id)
  {
    var p := s.tcbs[h].queue[0];
    BouncedTo(s, h);
    hide Step, Queue;
  }

  /** The packet lies alone in the queue of the handler it named. */
  lemma BouncedTo(s: State, h: int)
    requires Bouncing(s, h) && s.cur == h && s.tcbs[h].Waiting()
    ensures var t, p := s.tcbs[h], s.tcbs[h].queue[0];
      Step(s).tcbs == s.tcbs[h := Taken(t)][p.id := AddPacket(s.tcbs[h := Taken(t)][p.id], p.(id := h))] &&
      Step(s).cur == (if p.id > h then p.id else h)
  {
    var t, p := s.tcbs[h], s.tcbs[h].queue[0];
    assert Taken(t).queue == [] && FileWork([], Some(p)) == [p] && FileDevice([], Some(p)) == [] && [p][1..] == [];
    var s1 := s.(currentId := h).Put(h, Taken(t));
    assert SetTask(s1, Handler([], [])) == s1;
    assert Step(s) == Queue(s1, p);
  }

  lemma {:induction false} BouncingNeverEnds(s: State, h: int, n: nat)
    requires Bouncing(s, h)
    ensures Iterate(s, n).Running()
    decreases n
  {
    hide Step;
    if n > 0 {
      var h' := BounceStep(s, h);
      BouncingNeverEnds(Step(s), h', n - 1);
    }
  }

  /** Queues that are empty but for the one of task `i`. */
  function Alone(i: nat, queue: seq<Packet>): seq<seq<Packet>> {
    seq(NUMBER_OF_IDS, k => if k == i then queue else [])
  }

  /** A work packet at a handler that names a handler and has nothing left to deliver goes on for ever,
      whatever the count. */
  lemma HandlerWorkNeverEnds(count: int, i: nat, p: Packet)
    requires IsHandler(i) && p.kind == WorkPacket && IsHandler(p.id) && p.a1 >= DATA_SIZE
    ensures !Ends(Start(count, Alone(i, [p])))
  {
    var s := Start(count, Alone(i, [p]));
    assert Bouncing(s, i);
    forall n ensures Iterate(s, n).Running() { BouncingNeverEnds(s, i, n); }
  }

  // ----- the same with new packets

  predicate ForDeviceA(ps: seq<Packet>) {
    forall k :: 0 <= k < |ps| ==> ps[k].kind == DevicePacket && ps[k].id == ID_DEVICE_A
  }

  predicate Quiet(s: State) {
    s.Running() && s.cur >= ID_HANDLER_A && QuietDevice(s.tcbs[ID_DEVICE_A]) && QuietDevice(s.tcbs[ID_DEVICE_B]) &&
    QuietHandler(s.tcbs[ID_HANDLER_B]) && !s.tcbs[ID_HANDLER_A].held
  }

  predicate NamesA(p: Packet, j: int) {
    p.kind == WorkPacket && p.id == ID_HANDLER_A && p.a1 == j
  }

  /** Handler A still has the work packet in its queue, with four device packets behind it. */
  predicate Queued(s: State) {
    Quiet(s) && var t := s.tcbs[ID_HANDLER_A];
    t.runnable && t.task == Handler([], []) && |t.queue| == 1 + DATA_SIZE && NamesA(t.queue[0], 0) && ForDeviceA(t.queue[1..])
  }

  /** Handler A has sent `j` of them on. */
  predicate Fed(s: State, j: int) {
    Quiet(s) && 0 <= j <= DATA_SIZE && var t := s.tcbs[ID_HANDLER_A];
    t.task.Handler? && |t.task.work| == 1 && t.task.device == [] && NamesA(t.task.work[0], j) &&
    |t.queue| == DATA_SIZE - j && ForDeviceA(t.queue) && (if j < DATA_SIZE then t.runnable else !t.suspended)
  }

  lemma QueuedStep(s: State)
    requires Queued(s)
    ensures Queued(Step(s)) || Fed(Step(s), 0)
  {
    if s.cur > ID_HANDLER_A {
      var t' := QuietStep(s);
      hide Step;
    }
  }

  lemma FedStep(s: State, j: int)
    requires Fed(s, j)
    ensures Fed(Step(s), j) || (j < DATA_SIZE && Fed(Step(s), j + 1)) || (j == DATA_SIZE && Bouncing(Step(s), ID_HANDLER_A))
  {
    if s.cur > ID_HANDLER_A {
      var t' := QuietStep(s);
      hide Step;
    } else if j == DATA_SIZE {
      FedLast(s);
    } else if s.tcbs[ID_HANDLER_A].Waiting() {
      FedOne(s, j);
    } else {
      var t := s.tcbs[ID_HANDLER_A];
      assert FileWork(t.task.work, None) == t.task.work && FileDevice([], None) == [];
      assert Step(s).tcbs == s.tcbs[ID_HANDLER_A := t.(suspended := true)] && Step(s).cur == ID_HANDLER_A;
    }
  }

  lemma FedOne(s: State, j: int)
    requires Fed(s, j) && s.cur == ID_HANDLER_A && j < DATA_SIZE && s.tcbs[ID_HANDLER_A].Waiting()
    ensures Fed(Step(s), j + 1)
  {
    var t := s.tcbs[ID_HANDLER_A];
    var d, w, t1 := t.queue[0], t.task.work[0], Taken(t);
    assert FileWork(t.task.work, Some(d)) == [w] && FileDevice([], Some(d)) == [d] && [d][1..] == [] && [w][1..] == [];
    assert [w.(a1 := j + 1)] + [w][1..] == [w.(a1 := j + 1)];
    var s1 := s.(currentId := ID_HANDLER_A).Put(ID_HANDLER_A, t1.(task := Handler([w.(a1 := j + 1)], [])));
    assert Step(s) == Queue(s1, d.(a1 := Payload(w, j)));
  }

  lemma FedLast(s: State)
    requires Fed(s, DATA_SIZE) && s.cur == ID_HANDLER_A
    ensures Bouncing(Step(s), ID_HANDLER_A)
  {
    var t := s.tcbs[ID_HANDLER_A];
    var w := t.task.work[0];
    assert t.queue == [] && FileWork(t.task.work, None) == [w] && FileDevice([], None) == [] && [w][1..] == [];
    var s1 := s.(currentId := ID_HANDLER_A).Put(ID_HANDLER_A, t.(task := Handler([], [])));
    assert Step(s) == Queue(s1, w);
  }

  lemma {:induction false} FedNeverEnds(s: State, j: int, n: nat)
    requires Fed(s, j)
    ensures Iterate(s, n).Running()
    decreases n
  {
    hide Step, Fed, Bouncing;
    FedRuns(s, j);
    if n > 0 {
      FedStep(s, j);
      if Fed(Step(s), j) {
        FedNeverEnds(Step(s), j, n - 1);
      } else if j < DATA_SIZE {
        FedNeverEnds(Step(s), j + 1, n - 1);
      } else {
        BouncingNeverEnds(Step(s), ID_HANDLER_A, n - 1);
      }
    }
  }

  lemma FedRuns(s: State, j: int)
    requires Fed(s, j)
    ensures s.Running()
  {
  }

  lemma {:induction false} QueuedNeverEnds(s: State, n: nat)
    requires Queued(s)
    ensures Iterate(s, n).Running()
    decreases n
  {
    hide Step, Fed;
    if n > 0 {
      QueuedStep(s);
      if Queued(Step(s)) {
        QueuedNeverEnds(Step(s), n - 1);
      } else {
        FedNeverEnds(Step(s), 0, n - 1);
      }
    }
  }

  function NewPacket(uid: nat, id: int, kind: Kind): Packet {
    Packet(uid, id, kind, 0, [])
  }

  function NewDevicePackets(uid: nat, n: nat, id: int): seq<Packet> {
    seq(n, k requires 0 <= k < n => NewPacket(uid + k, id, DevicePacket))
  }

  /** A new work packet at handler A that names handler A, and four new device packets for device A
      behind it: the schedule never ends, whatever the count. */
  lemma NewPacketsNeverEnd(count: int)
    ensures !Ends(Start(count, Alone(ID_HANDLER_A, [NewPacket(0, ID_HANDLER_A, WorkPacket)] + NewDevicePackets(1, 4, ID_DEVICE_A))))
  {
    var queue := [NewPacket(0, ID_HANDLER_A, WorkPacket)] + NewDevicePackets(1, 4, ID_DEVICE_A);
    assert queue[1..] == NewDevicePackets(1, 4, ID_DEVICE_A);
    var s := Start(count, Alone(ID_HANDLER_A, queue));
    assert Queued(s);
    forall n ensures Iterate(s, n).Running() { QueuedNeverEnds(s, n); }
  }

  // ----- device packets that go through the worker beside a work packet

  const ANY := Rules(Any, false, false)

  predicate Loose(ps: seq<Packet>) {
    forall k :: 0 <= k < |ps| ==> ps[k].kind == DevicePacket && ps[k].id == ID_WORKER
  }

  /** A handler with `n` device packets that name the worker. */
  predicate Supplied(t: Tcb, n: int) {
    t.task.Handler? && Loose(t.task.device) && |t.task.device| + |t.queue| == n
  }

  predicate Resting(t: Tcb, n: int) {
    Supplied(t, n) && t.task.work == [] && Loose(t.queue)
  }

  predicate IsWork(p: Packet, j: int) {
    p.kind == WorkPacket && p.id == ID_WORKER && p.a1 == j
  }

  /** A handler that has sent `j` device packets for its work packet. */
  predicate Serving(t: Tcb, n: int, j: int) {
    Supplied(t, n) && Loose(t.queue) && |t.task.work| == 1 && IsWork(t.task.work[0], j) &&
    (t.suspended ==> t.task.device == [] && j < DATA_SIZE)
  }

  /** A handler to which the work packet has just been sent. */
  predicate Given(t: Tcb, n: int) {
    Supplied(t, n + 1) && t.task.work == [] && |t.queue| == 1 && IsWork(t.queue[0], 0) && t.suspended
  }

  predicate DevicePackets(ps: seq<Packet>) {
    forall k :: 0 <= k < |ps| ==> ps[k].kind == DevicePacket
  }

  predicate Calm(s: State) {
    Inv(ANY, s) && s.Running() && ID_WORKER <= s.cur && QuietDevice(s.tcbs[ID_DEVICE_A]) && QuietDevice(s.tcbs[ID_DEVICE_B]) &&
    s.tcbs[ID_WORKER].task.Worker? && IsHandler(s.tcbs[ID_WORKER].task.w1)
  }

  predicate Enough(p: int, q: int) {
    p + q == 8 && (p == 4 || p == 6)
  }

  /** The worker has `a` device packets and then the work packet; the handlers have `m` and `n` device
      packets, `m` the one that is served next. In the end enough are where the work packet goes. */
  predicate Delivering(s: State, a: nat, m: int, n: int) {
    Calm(s) && var t := s.tcbs[ID_WORKER];
    |t.queue| == a + 1 && DevicePackets(t.queue[..a]) && t.queue[a].kind == WorkPacket &&
    Resting(s.tcbs[Other(t.task.w1)], m) && Resting(s.tcbs[t.task.w1], n) &&
    if a % 2 == 0 then Enough(m + a / 2, n + a / 2) else Enough(n + a / 2, m + (a + 1) / 2)
  }

  /** The handler `w1` of the worker has the work packet, and the worker the `j` packets it sent. */
  predicate Working(s: State, j: nat, p: int, q: int) {
    Calm(s) && var t := s.tcbs[ID_WORKER];
    |t.queue| == j && DevicePackets(t.queue) && Resting(s.tcbs[Other(t.task.w1)], q) && Enough(p, q) && j <= DATA_SIZE &&
    (Serving(s.tcbs[t.task.w1], p - j, j) || (j == 0 && Given(s.tcbs[t.task.w1], p)))
  }

  ghost predicate Circling(s: State) {
    (exists a: nat, m, n :: Delivering(s, a, m, n)) || (exists j: nat, p, q :: Working(s, j, p, q))
  }

  /** A handler without work files what comes and suspends itself. */
  lemma RestingStep(s: State, n: int) returns (t': Tcb)
    requires Inv(ANY, s) && s.Running() && IsHandler(s.cur) && Resting(s.tcbs[s.cur], n)
    ensures Step(s).tcbs == s.tcbs[s.cur := t'] && (Step(s).cur == s.cur || Step(s).cur == s.cur - 1) && Resting(t', n)
  {
    var t := s.tcbs[s.cur];
    assert TcbOk(ANY, s.cur, t);
    t' := Step(s).tcbs[s.cur];
  }

  lemma WorkerBlocked(s: State, h: int, n: int)
    requires Calm(s) && s.cur == ID_WORKER && IsHandler(h) && Resting(s.tcbs[h], n)
    ensures s.tcbs[h].queue == [] && s.tcbs[h].suspended && !s.tcbs[h].runnable && !s.tcbs[h].held
  {
    assert TcbOk(ANY, h, s.tcbs[h]) && s.tcbs[h].HeldOrSuspended();
  }

  /** The worker sends the packet `p` on to the handler `h`. */
  lemma WorkerStep(s: State) returns (q: Packet, w2: int)
    requires Calm(s) && s.cur == ID_WORKER && s.tcbs[ID_WORKER].Waiting() && s.tcbs[ID_WORKER].queue != []
    ensures var t, h := s.tcbs[ID_WORKER], Other(s.tcbs[ID_WORKER].task.w1);
      q.kind == t.queue[0].kind && q.id == ID_WORKER && q.a1 == 0 &&
      Step(s).tcbs == s.tcbs[ID_WORKER := Taken(t).(task := Worker(h, w2))][h := AddPacket(s.tcbs[h], q)] &&
      (s.tcbs[h].queue == [] ==> Step(s).cur == h)
  {
    var t, h := s.tcbs[ID_WORKER], Other(s.tcbs[ID_WORKER].task.w1);
    var p := t.queue[0].(id := h, a1 := 0, a2 := Overwrite(t.queue[0].a2, Letters(t.task.w2, DATA_SIZE)));
    q := p.(id := ID_WORKER);
    w2 := LettersAfter(t.task.w2, DATA_SIZE);
    var s1 := s.(currentId := s.cur).Put(s.cur, Taken(t).(task := Worker(h, w2)));
    assert Step(s) == Queue(s1, p);
  }

  lemma CalmStep(s: State)
    requires Calm(s)
    ensures Inv(ANY, Step(s)) && Step(s).WF()
  {
    hide Step;
    StepKeeps(ANY, s);
  }

  /** Above the worker, while the work packet waits there. */
  lemma DeliverPass(s: State, a: nat, m: int, n: int)
    requires Delivering(s, a, m, n) && s.cur > ID_WORKER
    ensures Delivering(Step(s), a, m, n)
  {
    CalmStep(s);
    var h := s.tcbs[ID_WORKER].task.w1;
    assert TcbOk(ANY, s.cur, s.tcbs[s.cur]);
    var t';
    if IsDevice(s.cur) {
      t' := QuietStep(s);
    } else {
      t' := RestingStep(s, if s.cur == h then n else m);
    }
    hide Step, Inv, Resting, QuietDevice;
  }

  /** The worker's turn: a device packet goes to the next handler. */
  lemma DeliverDevice(s: State, a: nat, m: int, n: int)
    requires Delivering(s, a, m, n) && s.cur == ID_WORKER && s.tcbs[ID_WORKER].Waiting() && a > 0
    ensures Delivering(Step(s), a - 1, n, m + 1)
  {
    CalmStep(s);
    var t := s.tcbs[ID_WORKER];
    var h := Other(t.task.w1);
    WorkerBlocked(s, h, m);
    var q, w2 := WorkerStep(s);
    hide Step, Inv, Taken;
    var th := AddPacket(s.tcbs[h], q);
    assert th.queue == [q];
    TakenQueue(t);
    assert t.queue[0] == t.queue[..a][0] && t.queue[1..][..a - 1] == t.queue[..a][1..];
    assert Resting(th, m + 1);
    hide Resting, QuietDevice;
  }

  /** The worker's turn: the work packet goes to the next handler. */
  lemma DeliverWork(s: State, m: int, n: int)
    requires Delivering(s, 0, m, n) && s.cur == ID_WORKER && s.tcbs[ID_WORKER].Waiting()
    ensures Working(Step(s), 0, m, n)
  {
    CalmStep(s);
    var t := s.tcbs[ID_WORKER];
    var h := Other(t.task.w1);
    WorkerBlocked(s, h, m);
    var q, w2 := WorkerStep(s);
    hide Step, Inv, Taken;
    var th := AddPacket(s.tcbs[h], q);
    assert th.queue == [q];
    TakenQueue(t);
    assert Given(th, m);
    hide Given, QuietDevice, Serving;
  }

  lemma TakenQueue(t: Tcb)
    requires t.queue != []
    ensures Taken(t).queue == t.queue[1..] && Taken(t).task == t.task
  {
  }

  lemma DeliverWait(s: State, a: nat, m: int, n: int)
    requires Delivering(s, a, m, n) && s.cur == ID_WORKER && !s.tcbs[ID_WORKER].Waiting()
    ensures Delivering(Step(s), a, m, n)
  {
    CalmStep(s);
    var t := s.tcbs[ID_WORKER];
    assert TcbOk(ANY, ID_WORKER, t);
    assert Step(s).tcbs == s.tcbs[ID_WORKER := t.(suspended := true)] && Step(s).cur == ID_WORKER;
    hide Step, Inv;
  }

  /** The handler that works is ready. */
  lemma WorkingReady(s: State, j: nat, p: int, q: int)
    requires Working(s, j, p, q)
    ensures !s.tcbs[s.tcbs[ID_WORKER].task.w1].HeldOrSuspended() && s.cur > ID_WORKER
  {
    var z := s.tcbs[ID_WORKER].task.w1;
    assert TcbOk(ANY, z, s.tcbs[z]);
  }

  lemma WorkPass(s: State, j: nat, p: int, q: int)
    requires Working(s, j, p, q) && s.cur != s.tcbs[ID_WORKER].task.w1
    ensures Working(Step(s), j, p, q)
  {
    CalmStep(s);
    WorkingReady(s, j, p, q);
    assert TcbOk(ANY, s.cur, s.tcbs[s.cur]);
    var t';
    if IsDevice(s.cur) {
      t' := QuietStep(s);
    } else {
      t' := RestingStep(s, q);
    }
    hide Step, Inv, Resting, QuietDevice, Serving, Given;
  }

  /** A handler sends something to the worker. */
  lemma ToWorker(s: State, t': Tcb, x: Packet)
    requires s.Running() && IsHandler(s.cur) && x.id == ID_WORKER
    ensures var s' := Queue(s.(currentId := s.cur).Put(s.cur, t'), x);
      s'.cur == s.cur && s'.tcbs == s.tcbs[s.cur := t'][ID_WORKER := AddPacket(s.tcbs[ID_WORKER], x.(id := s.cur))]
  {
  }

  /** What the schedule does when the handler `z` goes over to the block `t'` and sends `x` to the worker. */
  ghost predicate Sends(s: State, t': Tcb, x: Packet) {
    s.Running() && Step(s).cur == s.cur && Step(s).tcbs == s.tcbs[s.cur := t'][ID_WORKER := AddPacket(s.tcbs[ID_WORKER], x)]
  }

  lemma SendsDevice(s: State, t': Tcb, x: Packet, j: nat, p: int, q: int)
    requires Working(s, j, p, q) && s.cur == s.tcbs[ID_WORKER].task.w1 && Sends(s, t', x) && j < DATA_SIZE
    requires x.kind == DevicePacket && Serving(t', p - j - 1, j + 1)
    ensures Working(Step(s), j + 1, p, q)
  {
    CalmStep(s);
    hide Step, Inv, Serving, Given, Resting;
    var t := s.tcbs[ID_WORKER];
    assert AddPacket(t, x).queue == t.queue + [x];
  }

  /** A handler with one work packet sends the first of its device packets to the worker. */
  lemma HandlerStep(s: State, t1: Tcb, packet: Option<Packet>, w: Packet, device: seq<Packet>)
    requires s.Running() && IsHandler(s.cur) && t1.task.Handler? && !s.tcbs[s.cur].HeldOrSuspended()
    requires var t := s.tcbs[s.cur];
      if packet.Some? then t.Waiting() && t.queue != [] && t1 == Taken(t) && packet.value == t.queue[0] else t1 == t && !t.Waiting()
    requires FileWork(t1.task.work, packet) == [w] && FileDevice(t1.task.device, packet) == device && device != []
    requires w.a1 < DATA_SIZE && device[0].id == ID_WORKER
    ensures Sends(s, t1.(task := Handler([w.(a1 := w.a1 + 1)], device[1..])), device[0].(a1 := Payload(w, w.a1), id := s.cur))
  {
    var x := device[0].(a1 := Payload(w, w.a1));
    var t' := t1.(task := Handler([w.(a1 := w.a1 + 1)], device[1..]));
    assert [w.(a1 := w.a1 + 1)] + [w][1..] == [w.(a1 := w.a1 + 1)];
    assert Step(s) == Queue(s.(currentId := s.cur).Put(s.cur, t'), x);
    ToWorker(s, t', x);
  }

  /** The handler takes the work packet and sends its first device packet for it. */
  lemma WorkFirst(s: State, p: int, q: int)
    requires Working(s, 0, p, q) && s.cur == s.tcbs[ID_WORKER].task.w1 && Given(s.tcbs[s.cur], p)
    ensures Working(Step(s), 1, p, q)
  {
    hide Step;
    var t := s.tcbs[s.cur];
    assert TcbOk(ANY, s.cur, t);
    var w, device := t.queue[0], t.task.device;
    assert FileWork([], Some(w)) == [w];
    HandlerStep(s, Taken(t), Some(w), w, device);
    var t' := Taken(t).(task := Handler([w.(a1 := 1)], device[1..]));
    assert Serving(t', p - 1, 1);
    SendsDevice(s, t', device[0].(a1 := Payload(w, 0), id := s.cur), 0, p, q);
  }

  /** A suspended handler with work waits for a device packet, and one has come. */
  lemma TakesReady(s: State, j: nat, p: int, q: int)
    requires Working(s, j, p, q) && s.cur == s.tcbs[ID_WORKER].task.w1 && Serving(s.tcbs[s.cur], p - j, j) && s.tcbs[s.cur].suspended
    ensures var t := s.tcbs[s.cur]; t.Waiting() && t.queue != [] && t.queue[0].kind == DevicePacket && t.queue[0].id == ID_WORKER
  {
    assert TcbOk(ANY, s.cur, s.tcbs[s.cur]);
  }

  lemma TakesServing(t: Tcb, n: int, j: int)
    requires Serving(t, n, j) && t.suspended && t.queue != []
    ensures Serving(Taken(t).(task := Handler([t.task.work[0].(a1 := j + 1)], [])), n - 1, j + 1)
  {
  }

  /** The handler takes a device packet and sends it at once. */
  lemma WorkTakes(s: State, j: nat, p: int, q: int)
    requires Working(s, j, p, q) && s.cur == s.tcbs[ID_WORKER].task.w1 && Serving(s.tcbs[s.cur], p - j, j) && s.tcbs[s.cur].suspended
    ensures Working(Step(s), j + 1, p, q)
  {
    hide Step, Inv, Resting, Given;
    var t := s.tcbs[s.cur];
    WorkingReady(s, j, p, q);
    TakesReady(s, j, p, q);
    TakesServing(t, p - j, j);
    var w, d := t.task.work[0], t.queue[0];
    assert t.task.work == [w] && FileDevice([], Some(d)) == [d] && [d][1..] == [];
    HandlerStep(s, Taken(t), Some(d), w, [d]);
    SendsDevice(s, Taken(t).(task := Handler([w.(a1 := j + 1)], [])), d.(a1 := Payload(w, j), id := s.cur), j, p, q);
  }

  /** The handler sends a device packet of its list. */
  lemma WorkSends(s: State, j: nat, p: int, q: int)
    requires Working(s, j, p, q) && s.cur == s.tcbs[ID_WORKER].task.w1 && Serving(s.tcbs[s.cur], p - j, j)
    requires !s.tcbs[s.cur].suspended && s.tcbs[s.cur].task.device != [] && j < DATA_SIZE
    ensures Working(Step(s), j + 1, p, q)
  {
    hide Step;
    var t := s.tcbs[s.cur];
    assert TcbOk(ANY, s.cur, t);
    var w, device := t.task.work[0], t.task.device;
    assert t.task.work == [w];
    HandlerStep(s, t, None, w, device);
    var t' := t.(task := Handler([w.(a1 := j + 1)], device[1..]));
    assert Serving(t', p - j - 1, j + 1);
    SendsDevice(s, t', device[0].(a1 := Payload(w, j), id := s.cur), j, p, q);
  }

  lemma WorkWaits(s: State, j: nat, p: int, q: int)
    requires Working(s, j, p, q) && s.cur == s.tcbs[ID_WORKER].task.w1 && Serving(s.tcbs[s.cur], p - j, j)
    requires !s.tcbs[s.cur].suspended && s.tcbs[s.cur].task.device == [] && j < DATA_SIZE
    ensures Working(Step(s), j, p, q)
  {
    CalmStep(s);
    var t := s.tcbs[s.cur];
    assert TcbOk(ANY, s.cur, t);
    assert t.task.work == [t.task.work[0]];
    assert Step(s).tcbs == s.tcbs[s.cur := t.(suspended := true)] && Step(s).cur == s.cur;
    hide Step, Inv;
  }

  /** The handler returns the work packet: the round begins again for the other handler. */
  lemma WorkReturns(s: State, p: int, q: int)
    requires Working(s, DATA_SIZE, p, q) && s.cur == s.tcbs[ID_WORKER].task.w1
    ensures Delivering(Step(s), DATA_SIZE, q, p - DATA_SIZE)
  {
    CalmStep(s);
    var t := s.tcbs[s.cur];
    assert TcbOk(ANY, s.cur, t);
    var w := t.task.work[0];
    var t' := t.(task := Handler([], t.task.device));
    assert t.task.work == [w] && [w][1..] == [];
    assert Step(s) == Queue(s.(currentId := s.cur).Put(s.cur, t'), w);
    ToWorker(s, t', w);
    hide Step, Inv;
    var x := w.(id := s.cur);
    var tw := s.tcbs[ID_WORKER];
    assert AddPacket(tw, x).queue == tw.queue + [x];
    assert (tw.queue + [x])[..DATA_SIZE] == tw.queue;
    assert Resting(t', p - DATA_SIZE);
  }

  lemma WorkTurn(s: State, j: nat, p: int, q: int)
    requires Working(s, j, p, q) && s.cur == s.tcbs[ID_WORKER].task.w1
    ensures Circling(Step(s))
  {
    hide Step, Inv;
    var t := s.tcbs[s.cur];
    if j == DATA_SIZE {
      WorkReturns(s, p, q);
    } else if Serving(t, p - j, j) {
      if t.suspended {
        WorkTakes(s, j, p, q);
      } else if t.task.device != [] {
        WorkSends(s, j, p, q);
      } else {
        WorkWaits(s, j, p, q);
      }
    } else {
      WorkFirst(s, p, q);
    }
  }

  lemma CirclingStep(s: State)
    requires Circling(s)
    ensures s.Running() && Circling(Step(s))
  {
    hide Step, Inv;
    if a: nat, m, n :| Delivering(s, a, m, n) {
      if s.cur > ID_WORKER {
        DeliverPass(s, a, m, n);
      } else if s.tcbs[ID_WORKER].Waiting() {
        if a > 0 { DeliverDevice(s, a, m, n); } else { DeliverWork(s, m, n); }
      } else {
        DeliverWait(s, a, m, n);
      }
    } else {
      var j: nat, p, q :| Working(s, j, p, q);
      if s.cur != s.tcbs[ID_WORKER].task.w1 {
        WorkPass(s, j, p, q);
      } else {
        WorkTurn(s, j, p, q);
      }
    }
  }

  lemma {:induction false} CirclingNeverEnds(s: State, n: nat)
    requires Circling(s)
    ensures Iterate(s, n).Running()
    decreases n
  {
    hide Step, Circling;
    CirclingStep(s);
    if n > 0 { CirclingNeverEnds(Step(s), n - 1); }
  }

  /** Eight new device packets and a new work packet behind them, all at the worker: they go round
      between the worker and the handlers for ever, whatever the count. */
  lemma BothKindsNeverEnd(count: int)
    ensures !Ends(Start(count, Alone(ID_WORKER, NewDevicePackets(1, 8, ID_WORKER) + [NewPacket(0, ID_WORKER, WorkPacket)])))
  {
    var queue := NewDevicePackets(1, 8, ID_WORKER) + [NewPacket(0, ID_WORKER, WorkPacket)];
    var queues := Alone(ID_WORKER, queue);
    var s := Start(count, queues);
    StartOk(ANY, count, queues);
    assert queue[..8] == NewDevicePackets(1, 8, ID_WORKER);
    assert Delivering(s, 8, 0, 0);
    forall n ensures Iterate(s, n).Running() { CirclingNeverEnds(s, n); }
  }

  // ----- device packets that go round at the handlers beside a work packet

  /** A handler whose one device packet names the handler itself. */
  predicate OwnPacket(t: Tcb, h: int) {
    t.task.Handler? && var ps := if t.queue == [] then t.task.device else t.queue;
    (t.queue == [] || t.task.device == []) && |ps| == 1 && ps[0].kind == DevicePacket && ps[0].id == h
  }

  predicate Idling(t: Tcb, h: int) {
    OwnPacket(t, h) && t.task.work == []
  }

  /** The handler has sent its device packet to itself `j` times for the work packet. */
  predicate Turning(t: Tcb, h: int, j: int) {
    OwnPacket(t, h) && |t.task.work| == 1 && IsWork(t.task.work[0], j) && (t.suspended ==> t.task.device == [] && j < DATA_SIZE)
  }

  /** The work packet has just been sent to the handler. */
  predicate Receiving(t: Tcb, h: int) {
    t.task.Handler? && t.task.work == [] && |t.task.device| == 1 && t.task.device[0].kind == DevicePacket && t.task.device[0].id == h &&
    |t.queue| == 1 && IsWork(t.queue[0], 0) && t.suspended
  }

  /** The worker has the work packet. */
  predicate Assigning(s: State) {
    Calm(s) && var t := s.tcbs[ID_WORKER];
    |t.queue| == 1 && t.queue[0].kind == WorkPacket &&
    Idling(s.tcbs[t.task.w1], t.task.w1) && Idling(s.tcbs[Other(t.task.w1)], Other(t.task.w1))
  }

  /** The handler `w1` of the worker has it. */
  predicate Spinning(s: State, j: nat) {
    Calm(s) && var t := s.tcbs[ID_WORKER];
    t.queue == [] && j <= DATA_SIZE && Idling(s.tcbs[Other(t.task.w1)], Other(t.task.w1)) &&
    (Turning(s.tcbs[t.task.w1], t.task.w1, j) || (j == 0 && Receiving(s.tcbs[t.task.w1], t.task.w1)))
  }

  ghost predicate Revolving(s: State) {
    Assigning(s) || exists j: nat :: Spinning(s, j)
  }

  /** A handler without work files its packet and suspends itself. */
  lemma IdlingStep(s: State) returns (t': Tcb)
    requires Inv(ANY, s) && s.Running() && IsHandler(s.cur) && Idling(s.tcbs[s.cur], s.cur)
    ensures Step(s).tcbs == s.tcbs[s.cur := t'] && (Step(s).cur == s.cur || Step(s).cur == s.cur - 1) && Idling(t', s.cur)
  {
    var t := s.tcbs[s.cur];
    assert TcbOk(ANY, s.cur, t);
    t' := Step(s).tcbs[s.cur];
  }

  lemma AssignPass(s: State)
    requires Assigning(s) && s.cur > ID_WORKER
    ensures Assigning(Step(s))
  {
    CalmStep(s);
    assert TcbOk(ANY, s.cur, s.tcbs[s.cur]);
    var t';
    if IsDevice(s.cur) {
      t' := QuietStep(s);
    } else {
      t' := IdlingStep(s);
    }
    hide Step, Inv, Idling, QuietDevice;
  }

  lemma AssignWait(s: State)
    requires Assigning(s) && s.cur == ID_WORKER && !s.tcbs[ID_WORKER].Waiting()
    ensures Assigning(Step(s))
  {
    CalmStep(s);
    var t := s.tcbs[ID_WORKER];
    assert TcbOk(ANY, ID_WORKER, t);
    assert Step(s).tcbs == s.tcbs[ID_WORKER := t.(suspended := true)] && Step(s).cur == ID_WORKER;
    hide Step, Inv, Idling;
  }

  /** The worker's turn: the work packet goes to the next handler. */
  lemma Assign(s: State)
    requires Assigning(s) && s.cur == ID_WORKER && s.tcbs[ID_WORKER].Waiting()
    ensures Spinning(Step(s), 0)
  {
    CalmStep(s);
    var t := s.tcbs[ID_WORKER];
    var h := Other(t.task.w1);
    assert TcbOk(ANY, h, s.tcbs[h]) && s.tcbs[h].HeldOrSuspended();
    var q, w2 := WorkerStep(s);
    hide Step, Inv, Taken;
    TakenQueue(t);
    assert Receiving(AddPacket(s.tcbs[h], q), h);
    hide Receiving, Turning, Idling, QuietDevice;
  }

  /** The handler that has the work packet is ready. */
  lemma SpinningReady(s: State, j: nat)
    requires Spinning(s, j)
    ensures !s.tcbs[s.tcbs[ID_WORKER].task.w1].HeldOrSuspended() && s.cur > ID_WORKER
  {
    var z := s.tcbs[ID_WORKER].task.w1;
    assert TcbOk(ANY, z, s.tcbs[z]);
  }

  lemma SpinPass(s: State, j: nat)
    requires Spinning(s, j) && s.cur != s.tcbs[ID_WORKER].task.w1
    ensures Spinning(Step(s), j)
  {
    CalmStep(s);
    SpinningReady(s, j);
    assert TcbOk(ANY, s.cur, s.tcbs[s.cur]);
    var t';
    if IsDevice(s.cur) {
      t' := QuietStep(s);
    } else {
      t' := IdlingStep(s);
    }
    hide Step, Inv, Idling, QuietDevice, Turning, Receiving;
  }

  /** A handler with one work packet sends its one device packet to itself. */
  lemma SelfStep(s: State, t1: Tcb, packet: Option<Packet>, w: Packet, d: Packet) returns (t': Tcb)
    requires s.Running() && IsHandler(s.cur) && t1.task.Handler? && !s.tcbs[s.cur].HeldOrSuspended()
    requires var t := s.tcbs[s.cur];
      if packet.Some? then t.Waiting() && t.queue != [] && t1 == Taken(t) && packet.value == t.queue[0] else t1 == t && !t.Waiting()
    requires FileWork(t1.task.work, packet) == [w] && FileDevice(t1.task.device, packet) == [d] && t1.queue == []
    requires IsWork(w, w.a1) && w.a1 < DATA_SIZE && d.kind == DevicePacket && d.id == s.cur && !t1.suspended
    ensures Step(s).cur == s.cur && Step(s).tcbs == s.tcbs[s.cur := t'] && Turning(t', s.cur, w.a1 + 1)
  {
    var x := d.(a1 := Payload(w, w.a1));
    var t2 := t1.(task := Handler([w.(a1 := w.a1 + 1)], []));
    assert [w.(a1 := w.a1 + 1)] + [w][1..] == [w.(a1 := w.a1 + 1)] && [d][1..] == [];
    var s1 := s.(currentId := s.cur).Put(s.cur, t2);
    assert Step(s) == Queue(s1, x);
    t' := t2.(queue := [x], runnable := true);
    assert Step(s).tcbs == s.tcbs[s.cur := t'];
  }

  lemma SpinOn(s: State, t': Tcb, j: nat)
    requires Spinning(s, j) && s.cur == s.tcbs[ID_WORKER].task.w1
    requires Step(s).cur == s.cur && Step(s).tcbs == s.tcbs[s.cur := t'] && Turning(t', s.cur, j + 1)
    requires j < DATA_SIZE
    ensures Spinning(Step(s), j + 1)
  {
    CalmStep(s);
    hide Step, Inv, Turning, Receiving, Idling;
  }

  /** The handler sends its device packet to itself: the one it has, or the one that comes. */
  lemma SpinSends(s: State, j: nat)
    requires Spinning(s, j) && s.cur == s.tcbs[ID_WORKER].task.w1 && j < DATA_SIZE
    requires s.tcbs[s.cur].suspended || s.tcbs[s.cur].task.device != []
    ensures Spinning(Step(s), j + 1)
  {
    hide Step;
    var t := s.tcbs[s.cur];
    assert TcbOk(ANY, s.cur, t);
    SpinningReady(s, j);
    var t';
    if Turning(t, s.cur, j) {
      var w := t.task.work[0];
      assert t.task.work == [w];
      if t.suspended {
        assert FileDevice([], Some(t.queue[0])) == [t.queue[0]];
        t' := SelfStep(s, Taken(t), Some(t.queue[0]), w, t.queue[0]);
      } else {
        assert t.task.device == [t.task.device[0]];
        t' := SelfStep(s, t, None, w, t.task.device[0]);
      }
    } else {
      assert FileWork([], Some(t.queue[0])) == [t.queue[0]] && t.task.device == [t.task.device[0]];
      t' := SelfStep(s, Taken(t), Some(t.queue[0]), t.queue[0], t.task.device[0]);
    }
    SpinOn(s, t', j);
  }

  lemma SpinWaits(s: State, j: nat)
    requires Spinning(s, j) && s.cur == s.tcbs[ID_WORKER].task.w1 && j < DATA_SIZE
    requires !s.tcbs[s.cur].suspended && s.tcbs[s.cur].task.device == []
    ensures Spinning(Step(s), j)
  {
    CalmStep(s);
    var t := s.tcbs[s.cur];
    assert TcbOk(ANY, s.cur, t);
    assert t.task.work == [t.task.work[0]];
    assert Step(s).tcbs == s.tcbs[s.cur := t.(suspended := true)] && Step(s).cur == s.cur;
    hide Step, Inv;
  }

  /** The handler returns the work packet to the worker. */
  lemma SpinReturns(s: State)
    requires Spinning(s, DATA_SIZE) && s.cur == s.tcbs[ID_WORKER].task.w1
    ensures Assigning(Step(s))
  {
    CalmStep(s);
    var t := s.tcbs[s.cur];
    assert TcbOk(ANY, s.cur, t);
    var w := t.task.work[0];
    var t' := t.(task := Handler([], t.task.device));
    assert t.task.work == [w] && [w][1..] == [];
    assert Step(s) == Queue(s.(currentId := s.cur).Put(s.cur, t'), w);
    ToWorker(s, t', w);
    hide Step, Inv;
    assert Idling(t', s.cur);
  }

  lemma RevolvingStep(s: State)
    requires Revolving(s)
    ensures s.Running() && Revolving(Step(s))
  {
    hide Step, Inv, Idling;
    if Assigning(s) {
      if s.cur > ID_WORKER {
        AssignPass(s);
      } else if s.tcbs[ID_WORKER].Waiting() {
        Assign(s);
      } else {
        AssignWait(s);
      }
    } else {
      var j: nat :| Spinning(s, j);
      var z := s.tcbs[ID_WORKER].task.w1;
      if s.cur != z {
        SpinPass(s, j);
      } else if j == DATA_SIZE {
        SpinReturns(s);
      } else if s.tcbs[z].suspended || s.tcbs[z].task.device != [] {
        SpinSends(s, j);
      } else {
        SpinWaits(s, j);
      }
    }
  }

  lemma {:induction false} RevolvingNeverEnds(s: State, n: nat)
    requires Revolving(s)
    ensures Iterate(s, n).Running()
    decreases n
  {
    hide Step, Revolving;
    RevolvingStep(s);
    if n > 0 { RevolvingNeverEnds(Step(s), n - 1); }
  }

  /** The queues of a new work packet at the worker and, at each handler, a new device packet that names it. */
  function OwnPackets(): seq<seq<Packet>> {
    [[], [NewPacket(0, ID_WORKER, WorkPacket)], [NewPacket(1, ID_HANDLER_A, DevicePacket)], [NewPacket(2, ID_HANDLER_B, DevicePacket)], [], []]
  }

  /** Each handler uses its device packet over and over, and the work packet goes round for ever, whatever
      the count. */
  lemma OwnPacketsNeverEnd(count: int)
    ensures !Ends(Start(count, OwnPackets()))
  {
    var s := Start(count, OwnPackets());
    StartOk(ANY, count, OwnPackets());
    assert Assigning(s);
    forall n ensures Iterate(s, n).Running() { RevolvingNeverEnds(s, n); }
  }

  // ----- which routings always end

  /** What a routing permits: work packets at the worker or naming it, device packets at the worker or
      naming it, work packets at a handler that name a handler, and device packets at a handler that name
      a handler. Everything else is free, unknown tasks included. */
  datatype Routing = Routing(work: bool, device: bool, handler: bool, between: bool)

  predicate Fits(f: Routing, i: int, p: Packet) {
    (i == ID_WORKER || ((IsHandler(i) || IsDevice(i)) && p.id == ID_WORKER) ==> if p.kind == WorkPacket then f.work else f.device) &&
    (IsHandler(i) && IsHandler(p.id) ==> if p.kind == WorkPacket then f.handler else f.between)
  }

  predicate AllFit(f: Routing, queues: seq<seq<Packet>>) {
    |queues| == NUMBER_OF_IDS && forall i, k :: 0 <= i < NUMBER_OF_IDS && 0 <= k < |queues[i]| ==> Fits(f, i, queues[i][k])
  }

  ghost predicate AlwaysEnds(f: Routing) {
    forall count, queues :: 1 <= count && AllFit(f, queues) ==> Ends(Start(count, queues))
  }

  /** With every flag set a routing permits all packets. */
  lemma AllPermitted(queues: seq<seq<Packet>>)
    requires |queues| == NUMBER_OF_IDS
    ensures AllFit(Routing(true, true, true, true), queues)
  {
  }

  lemma FitsMode(f: Routing, queues: seq<seq<Packet>>)
    requires AllFit(f, queues) && !f.handler && !(f.work && (f.device || f.between))
    ensures AllQueuesRouted(Rules(if f.work then DeviceBound else NoRefill, false, false), queues)
  {
  }

  /** The schedule ends for every positive count and all packets that a routing permits, if and only if
      the routing keeps work packets at handlers from naming handlers, and either keeps work packets
      from the worker, or keeps device packets from the worker and, at handlers, from naming handlers. */
  lemma RoutingEnds(f: Routing)
    ensures AlwaysEnds(f) <==> !f.handler && !(f.work && (f.device || f.between))
  {
    if f.handler {
      var p := NewPacket(0, ID_HANDLER_A, WorkPacket).(a1 := DATA_SIZE);
      HandlerWorkNeverEnds(1, ID_HANDLER_A, p);
      assert AllFit(f, Alone(ID_HANDLER_A, [p]));
    } else if f.work && f.device {
      var queue := NewDevicePackets(1, 8, ID_WORKER) + [NewPacket(0, ID_WORKER, WorkPacket)];
      BothKindsNeverEnd(1);
      assert AllFit(f, Alone(ID_WORKER, queue));
    } else if f.work && f.between {
      OwnPacketsNeverEnd(1);
      assert AllFit(f, OwnPackets());
    } else {
      forall count, queues | 1 <= count && AllFit(f, queues) ensures Ends(Start(count, queues)) {
        FitsMode(f, queues);
        StartEnds(Rules(if f.work then DeviceBound else NoRefill, false, false), count, queues);
      }
    }
  }
}
