/** Laws of the runs of the Richards scheduler that compare one state of a run with the next. */
module RichardsLaws {
  import opened Common
  import opened RichardsModel

  // ----- the shift register of the idle task, by the bits that leave it

  /** The bits of the register that starts from 1 and has its feedback at the bits 3, 12, 14 and 15: each bit
      that leaves is the sum, modulo two, of those that left 4, 13, 15 and 16 turns before. */
  function Bit(k: int): bool
    decreases if k < 0 then 0 else k + 1
  {
    if k <= 0 then k == 0 else (Bit(k - 4) != Bit(k - 13)) != (Bit(k - 15) != Bit(k - 16))
  }

  predicate Tap(i: int) {
    i == 3 || i == 12 || i == 14 || i == 15
  }

  /** What is in place `i` of the register after `k` turns. */
  function Cell(k: nat, i: nat): bool {
    ((k == 0 && i == 0) != (i <= 3 && Bit(k - 4 + i))) != ((i <= 12 && Bit(k - 13 + i)) != ((i <= 14 && Bit(k - 15 + i)) != (i <= 15 && Bit(k - 16 + i))))
  }

  lemma CellFirst(k: nat)
    ensures Cell(k, 0) == Bit(k)
  {
  }

  lemma CellNext(k: nat, i: nat)
    ensures Cell(k + 1, i) == (Cell(k, i + 1) != (Bit(k) && Tap(i)))
  {
    hide Bit;
  }

  lemma CellStart(i: nat)
    ensures Cell(0, i) == (i == 0)
  {
  }

  /** Bit `i` of a number. */
  function BitOf(x: nat, i: nat): bool
    decreases i
  {
    if i == 0 then x % 2 == 1 else BitOf(x / 2, i - 1)
  }

  lemma {:induction false} ZeroBits(i: nat)
    ensures !BitOf(0, i)
  {
    if i > 0 { ZeroBits(i - 1); }
  }

  lemma {:induction false} XorBits(x: nat, y: nat, i: nat)
    ensures BitOf(Xor(x, y), i) == (BitOf(x, i) != BitOf(y, i))
    decreases i
  {
    if x == 0 || y == 0 {
      ZeroBits(i);
    } else {
      XorHalf(x, y);
      hide Xor;
      if i > 0 { XorBits(x / 2, y / 2, i - 1); }
    }
  }

  lemma XorHalf(x: nat, y: nat)
    requires x > 0 && y > 0
    ensures Xor(x, y) / 2 == Xor(x / 2, y / 2) && (Xor(x, y) % 2 == 1 <==> x % 2 != y % 2)
  {
    var h := Xor(x / 2, y / 2);
    assert Xor(x, y) == (if x % 2 != y % 2 then 1 else 0) + 2 * h;
  }

  lemma {:induction false} ShiftBits(xs: seq<nat>, j: nat, i: nat)
    requires j < |xs| && j <= i && forall k :: 0 <= k < |xs| - 1 ==> xs[k + 1] == xs[k] / 2
    ensures BitOf(xs[0], i) == BitOf(xs[j], i - j)
  {
    if j > 0 { ShiftBits(xs, j - 1, i); }
  }

  lemma TapBits(i: nat)
    ensures BitOf(0xd008, i) == Tap(i)
  {
    var xs: seq<nat> := [0xd008, 26628, 13314, 6657, 3328, 1664, 832, 416, 208, 104, 52, 26, 13, 6, 3, 1, 0];
    if i < 16 {
      ShiftBits(xs, i, i);
    } else {
      ShiftBits(xs, 16, i);
      ZeroBits(i - 16);
    }
  }

  /** The number `v` is the register after `k` turns. */
  ghost predicate Holds(v: nat, k: nat) {
    forall i: nat :: BitOf(v, i) == Cell(k, i)
  }

  lemma RegisterStarts()
    ensures Holds(1, 0)
  {
    forall i: nat ensures BitOf(1, i) == Cell(0, i) {
      CellStart(i);
      if i > 0 { ZeroBits(i - 1); }
    }
  }

  lemma RegisterTurns(v: nat, k: nat)
    requires Holds(v, k)
    ensures v % 2 == 1 <==> Bit(k)
    ensures Holds(if v % 2 == 0 then v / 2 else Xor(v / 2, 0xd008), k + 1)
  {
    CellFirst(k);
    assert BitOf(v, 0) == Cell(k, 0);
    var v' := if v % 2 == 0 then v / 2 else Xor(v / 2, 0xd008);
    forall i: nat ensures BitOf(v', i) == Cell(k + 1, i) {
      CellNext(k, i);
      XorBits(v / 2, 0xd008, i);
      TapBits(i);
      assert BitOf(v, i + 1) == BitOf(v / 2, i) == Cell(k, i + 1);
    }
  }

  // ----- one state of a run and the next

  /** Every start: its packets may be anything. */
  const ANY := Rules(Mode.Any, false, false)

  lemma AnyStart(count: int, queues: seq<seq<Packet>>, n: nat)
    requires |queues| == NUMBER_OF_IDS
    ensures Inv(ANY, Iterate(Start(count, queues), n))
  {
    hide Inv;
    StartOk(ANY, count, queues);
    ReachableKeeps(ANY, Start(count, queues), n);
  }

  lemma {:induction false} IterateNext(s: State, n: nat)
    requires Iterate(s, n).Running()
    ensures Iterate(s, n + 1) == Step(Iterate(s, n))
    decreases n
  {
    hide Step;
    if n > 0 { IterateNext(Step(s), n - 1); }
  }

  /** How many of the first `n` states of the run from `s` are of the kind `p`. */
  ghost function Times(s: State, n: nat, p: State -> bool): nat {
    if n == 0 then 0
    else Times(s, n - 1, p) + if Iterate(s, n - 1).Running() && p(Iterate(s, n - 1)) then 1 else 0
  }

  function Block(s: State): Tcb
    requires s.Running()
  {
    s.tcbs[s.cur]
  }

  /** The current block has nothing to run for. */
  predicate Rests(s: State)
    requires s.Running()
  {
    Block(s).held || (Block(s).suspended && Block(s).queue == [])
  }

  /** The current task is given the first packet of its queue. */
  predicate Takes(s: State)
    requires s.Running()
  {
    !Block(s).held && Block(s).suspended && Block(s).queue != []
  }

  /** A block that rests is passed over, and that changes nothing. */
  ghost predicate PassLaw(s: State, s': State)
    requires s.Running()
  {
    Rests(s) ==> s' == s.(cur := s.cur - 1)
  }

  predicate IdleTurn(s: State) {
    s.Running() && s.cur == ID_IDLE && !s.tcbs[0].held
  }

  /** In its turn after `k` others the idle task counts down. Then it releases device B or A as the bit says that
      leaves the register, and the schedule goes on with that device; or its count is used up, it becomes held, and
      the schedule ends. */
  ghost predicate IdleLaw(s: State, s': State, count: int, k: nat) {
    IdleTurn(s) ==>
      s.tcbs[0].task.Idle? && s.tcbs[0].task.count == count - k && s'.WF() && s'.tcbs[0].task.Idle? && s'.tcbs[0].task.count == count - k - 1 &&
      s'.queueCount == s.queueCount && s'.currentId == ID_IDLE && s'.tcbs[0].queue == s.tcbs[0].queue &&
      s'.tcbs[0].suspended == s.tcbs[0].suspended && s'.tcbs[0].runnable == s.tcbs[0].runnable &&
      if k + 1 == count then s'.tcbs[0].held && s'.tcbs[1..] == s.tcbs[1..] && s'.cur == -1 && s'.holdCount == s.holdCount + 1
      else
        var d := if Bit(k) then ID_DEVICE_B else ID_DEVICE_A;
        !s'.tcbs[0].held && s'.tcbs[1..] == s.tcbs[d := s.tcbs[d].(held := false)][1..] && s'.cur == d && s'.holdCount == s.holdCount
  }

  /** The current task sends `p`, and its block is then `t`. The packet comes to the end of the queue of the task that
      it names and names its sender. The schedule goes on with that task if it had no packets and has the higher
      priority. A packet that names no task ends the schedule. */
  ghost predicate Sends(s: State, s': State, t: Tcb, to: int, p: Packet)
    requires s.Running()
  {
    var ts := s.tcbs[s.cur := t];
    p.id == s.cur && s'.currentId == s.cur && s'.holdCount == s.holdCount &&
    if Known(to) then
      s'.queueCount == s.queueCount + 1 && s'.cur == (if ts[to].queue == [] && s.cur < to then to else s.cur) &&
      s'.tcbs == ts[to := ts[to].(queue := ts[to].queue + [p], runnable := ts[to].runnable || ts[to].queue == [])]
    else s'.queueCount == s.queueCount && s'.cur == -1 && s'.tcbs == ts
  }

  /** The current task becomes suspended, and its block is otherwise `t`. */
  ghost predicate Sleeps(s: State, s': State, t: Tcb)
    requires s.Running()
  {
    s' == State(s.tcbs[s.cur := t.(suspended := true)], s.cur, s.cur, s.queueCount, s.holdCount)
  }

  /** The block without the packet that its task is given. */
  function Emptied(t: Tcb): Tcb
    requires t.queue != []
  {
    t.(queue := t.queue[1..], suspended := false, runnable := |t.queue| > 1)
  }

  /** The letter that follows `m` others. */
  function Letter(m: nat): int {
    m % 26 + 1
  }

  predicate WorkerTakes(s: State) {
    s.Running() && s.cur == ID_WORKER && Takes(s)
  }

  /** What the worker makes of a packet after `k` others: the next four letters, for one handler and the other in turn. */
  ghost predicate Refilled(p: Packet, q: Packet, k: nat) {
    q.uid == p.uid && q.kind == p.kind && q.a1 == 0 && |q.a2| == (if |p.a2| < 4 then 4 else |p.a2|) &&
    forall j :: 0 <= j < |q.a2| ==> q.a2[j] == if j < 4 then Letter(4 * k + j) else p.a2[j]
  }

  ghost predicate WorkerLaw(s: State, s': State, k: nat) {
    s.Running() && s.cur == ID_WORKER && !Rests(s) ==>
      s.tcbs[1].task.Worker? && !s.tcbs[1].held &&
      if Takes(s) then
        exists task: Task, q: Packet :: task.Worker? && Refilled(s.tcbs[1].queue[0], q, k) &&
          Sends(s, s', Emptied(s.tcbs[1]).(task := task), if k % 2 == 0 then ID_HANDLER_B else ID_HANDLER_A, q)
      else Sleeps(s, s', s.tcbs[1])
  }

  /** The packets of one kind that a handler has, with the one that it is given. */
  function Filed(s: State, kind: Kind): seq<Packet>
    requires s.Running() && Block(s).task.Handler?
  {
    var ps := if kind == WorkPacket then Block(s).task.work else Block(s).task.device;
    if Takes(s) && Block(s).queue[0].kind == kind then ps + [Block(s).queue[0]] else ps
  }

  /** A handler with work that is not finished sends a device packet with the letter that is due. With finished work
      it sends that back. Otherwise it waits. */
  ghost predicate HandlerLaw(s: State, s': State) {
    s.Running() && IsHandler(s.cur) && !Rests(s) ==>
      Block(s).task.Handler? && !Block(s).held &&
      HandlerDoes(s, s', if Takes(s) then Emptied(Block(s)) else Block(s), Filed(s, WorkPacket), Filed(s, DevicePacket))
  }

  ghost predicate HandlerDoes(s: State, s': State, t: Tcb, work: seq<Packet>, device: seq<Packet>)
    requires s.Running()
  {
    if work != [] && work[0].a1 >= 4 then
      Sends(s, s', t.(task := Handler(work[1..], device)), work[0].id, work[0].(id := s.cur))
    else if work != [] && device != [] then
      var c := work[0].a1;
      exists x :: (0 <= c < |work[0].a2| ==> x == work[0].a2[c]) &&
        Sends(s, s', t.(task := Handler([work[0].(a1 := c + 1)] + work[1..], device[1..])), device[0].id, device[0].(id := s.cur, a1 := x))
    else Sleeps(s, s', t.(task := Handler(work, device)))
  }

  /** A device that is given a packet keeps it and becomes held. Once released it sends it on; without one it waits. */
  ghost predicate DeviceLaw(s: State, s': State) {
    s.Running() && IsDevice(s.cur) && !Rests(s) ==>
      Block(s).task.Device? &&
      if Takes(s) then
        Block(s).task.slot.None? && s'.cur == s.cur - 1 && s'.currentId == s.cur && s'.queueCount == s.queueCount && s'.holdCount == s.holdCount + 1 &&
        s'.tcbs == s.tcbs[s.cur := Emptied(Block(s)).(held := true, task := Device(Some(Block(s).queue[0])))]
      else
        match Block(s).task.slot
        case None => Sleeps(s, s', Block(s))
        case Some(p) => Sends(s, s', Block(s).(task := Device(None)), p.id, p.(id := s.cur))
  }

  // ----- the laws hold for every step

  lemma Conditions(s: State)
    requires Inv(ANY, s) && s.Running()
    ensures Rests(s) <==> Block(s).HeldOrSuspended()
    ensures Takes(s) <==> Block(s).Waiting() && Block(s).queue != []
    ensures TcbOk(ANY, s.cur, Block(s)) && (s.cur == 0 ==> !Takes(s) && !Block(s).suspended) && HighestReady(s)
  {
    assert TcbOk(ANY, s.cur, Block(s));
  }

  /** A task that runs, with the packet that it is given. */
  lemma Runs(s: State)
    requires Inv(ANY, s) && s.Running() && !Rests(s)
    ensures Takes(s) ==> Step(s) == RunTask(s.(currentId := s.cur).Put(s.cur, Emptied(Block(s))), Some(Block(s).queue[0]))
    ensures !Takes(s) ==> Step(s) == RunTask(s.(currentId := s.cur), None)
  {
    Conditions(s);
    hide RunTask, Inv;
  }

  lemma PassHolds(s: State)
    requires Inv(ANY, s) && s.Running()
    ensures PassLaw(s, Step(s))
  {
    Conditions(s);
    hide RunTask, Inv;
  }

  lemma IdleHolds(s: State, count: int, k: nat)
    requires Inv(ANY, s) && s.Running() && s.tcbs[0].task.Idle? && s.tcbs[0].task.count == count - k && (!s.tcbs[0].held ==> Holds(s.tcbs[0].task.v1, k))
    ensures IdleLaw(s, Step(s), count, k)
    ensures IdleTurn(s) && !Step(s).tcbs[0].held ==> Holds(Step(s).tcbs[0].task.v1, k + 1)
  {
    hide Holds, Bit, Xor;
    if IdleTurn(s) {
      Conditions(s);
      RegisterTurns(s.tcbs[0].task.v1, k);
      Runs(s);
      hide Inv, Step;
    }
  }

  /** Sending is what `Queue` does, once the block of the sender has its new task. */
  lemma SendIs(s: State, t: Tcb, task: Task, p: Packet)
    requires s.Running()
    ensures Sends(s, Queue(SetTask(s.(currentId := s.cur).Put(s.cur, t), task), p), t.(task := task), p.id, p.(id := s.cur))
  {
    var ts := s.tcbs[s.cur := t.(task := task)];
    assert s.tcbs[s.cur := t][s.cur := t.(task := task)] == ts;
    if Known(p.id) && ts[p.id].queue == [] { assert ts[p.id].queue + [p.(id := s.cur)] == [p.(id := s.cur)]; }
  }

  lemma {:induction false} LettersAre(w2: int, m: nat, n: nat)
    requires w2 == if m == 0 then 0 else Letter(m - 1)
    ensures |Letters(w2, n)| == n && (forall j :: 0 <= j < n ==> Letters(w2, n)[j] == Letter(m + j))
    ensures n > 0 ==> LettersAfter(w2, n) == Letter(m + n - 1)
    decreases n
  {
    if n > 0 {
      assert NextLetter(w2) == Letter(m);
      LettersAre(NextLetter(w2), m + 1, n - 1);
    }
  }

  /** The worker after `k` packets. */
  predicate WorkerAt(s: State, k: nat) {
    |s.tcbs| == NUMBER_OF_IDS &&
    var task := s.tcbs[1].task;
    task.Worker? && task.w1 == (if k % 2 == 0 then ID_HANDLER_A else ID_HANDLER_B) && task.w2 == if k == 0 then 0 else Letter(4 * k - 1)
  }

  lemma WorkerHolds(s: State, k: nat)
    requires Inv(ANY, s) && s.Running() && WorkerAt(s, k)
    ensures WorkerLaw(s, Step(s), k)
    ensures WorkerAt(Step(s), if WorkerTakes(s) then k + 1 else k) || s.cur != ID_WORKER
  {
    if s.cur == ID_WORKER && !Rests(s) {
      Conditions(s);
      Runs(s);
      if Takes(s) {
        WorkerSent(s, k);
      }
    }
  }

  lemma WorkerKept(s: State, t: Tcb, task: Task, p: Packet)
    requires s.Running() && s.cur == 1
    ensures var s' := Queue(SetTask(s.(currentId := s.cur).Put(s.cur, t), task), p); s'.WF() && s'.tcbs[1].task == task
  {
  }

  lemma RefilledIs(p: Packet, q: Packet, k: nat, letters: seq<int>)
    requires |letters| == 4 && (forall j :: 0 <= j < 4 ==> letters[j] == Letter(4 * k + j))
    requires q.uid == p.uid && q.kind == p.kind && q.a1 == 0 && q.a2 == Overwrite(p.a2, letters)
    ensures Refilled(p, q, k)
  {
    hide Letter;
  }

  lemma WorkerSent(s: State, k: nat)
    requires Inv(ANY, s) && s.Running() && WorkerAt(s, k) && WorkerTakes(s)
    ensures WorkerLaw(s, Step(s), k) && WorkerAt(Step(s), k + 1)
  {
    Conditions(s);
    Runs(s);
    hide Inv, Step, Queue, Letters, LettersAfter, Letter, Overwrite, Refilled, Sends, SetTask;
    var p, w := s.tcbs[1].queue[0], s.tcbs[1].task;
    LettersAre(w.w2, 4 * k, 4);
    var h := if w.w1 == ID_HANDLER_A then ID_HANDLER_B else ID_HANDLER_A;
    var task, q := Worker(h, LettersAfter(w.w2, DATA_SIZE)), p.(id := h, a1 := 0, a2 := Overwrite(p.a2, Letters(w.w2, DATA_SIZE)));
    SendIs(s, Emptied(s.tcbs[1]), task, q);
    RefilledIs(p, q.(id := s.cur), k, Letters(w.w2, DATA_SIZE));
    WorkerKept(s, Emptied(s.tcbs[1]), task, q);
  }

  lemma HandlerDone(s: State, t: Tcb, work0: seq<Packet>, device0: seq<Packet>, packet: Option<Packet>)
    requires s.Running()
    ensures HandlerDoes(s, RunHandler(s.(currentId := s.cur).Put(s.cur, t), work0, device0, packet), t, FileWork(work0, packet), FileDevice(device0, packet))
  {
    var work, device := FileWork(work0, packet), FileDevice(device0, packet);
    hide FileWork, FileDevice;
    if work != [] && work[0].a1 >= 4 {
      hide Sends, Queue, SetTask;
      SendIs(s, t, Handler(work[1..], device), work[0]);
    } else if work != [] && device != [] {
      hide Sends, Queue, SetTask;
      HandlerDelivers(s, t, work, device);
    } else {
      assert s.tcbs[s.cur := t][s.cur := t.(task := Handler(work, device))] == s.tcbs[s.cur := t.(task := Handler(work, device))];
    }
  }

  lemma HandlerDelivers(s: State, t: Tcb, work: seq<Packet>, device: seq<Packet>)
    requires s.Running() && work != [] && work[0].a1 < 4 && device != []
    ensures var c := work[0].a1;
      HandlerDoes(s, Queue(SetTask(s.(currentId := s.cur).Put(s.cur, t), Handler([work[0].(a1 := c + 1)] + work[1..], device[1..])),
                           device[0].(a1 := Payload(work[0], c))), t, work, device)
  {
    hide Sends, Queue, SetTask;
    var c := work[0].a1;
    SendIs(s, t, Handler([work[0].(a1 := c + 1)] + work[1..], device[1..]), device[0].(a1 := Payload(work[0], c)));
  }

  lemma HandlerHolds(s: State)
    requires Inv(ANY, s) && s.Running()
    ensures HandlerLaw(s, Step(s))
  {
    if IsHandler(s.cur) && !Rests(s) {
      Conditions(s);
      Runs(s);
      hide Inv, Step, RunHandler, HandlerDoes;
      var t := if Takes(s) then Emptied(Block(s)) else Block(s);
      var packet := if Takes(s) then Some(Block(s).queue[0]) else None;
      HandlerDone(s, t, Block(s).task.work, Block(s).task.device, packet);
      assert !Takes(s) ==> s.tcbs[s.cur := t] == s.tcbs;
    }
  }

  lemma DeviceHolds(s: State)
    requires Inv(ANY, s) && s.Running()
    ensures DeviceLaw(s, Step(s))
  {
    if IsDevice(s.cur) && !Rests(s) {
      Conditions(s);
      Runs(s);
      hide Inv, Step, Queue;
      if !Takes(s) && Block(s).task.slot.Some? {
        SendIs(s, Block(s), Device(None), Block(s).task.slot.value);
      }
    }
  }

  // ----- what has happened before

  /** Only the running task changes its own fields, and only a device can be released by another. */
  lemma OthersKeep(s: State, i: nat)
    requires s.Running() && i < NUMBER_OF_IDS && i != s.cur
    ensures Untouched(s, Step(s), i)
  {
    hide Xor, Letters, LettersAfter, Overwrite, FileWork, FileDevice, Payload, Queue, RunTask;
    var s1 := s.(currentId := s.cur);
    if !Block(s).HeldOrSuspended() {
      if Block(s).Waiting() && Block(s).queue != [] {
        TaskOthers(s1.Put(s.cur, Taken(Block(s))), Some(Block(s).queue[0]), i);
      } else {
        TaskOthers(s1, None, i);
      }
    }
  }

  ghost predicate Untouched(s: State, s': State, i: nat)
    requires s.WF() && i < NUMBER_OF_IDS
  {
    s'.WF() && s'.tcbs[i].task == s.tcbs[i].task && (!IsDevice(i) ==> s'.tcbs[i].held == s.tcbs[i].held)
  }

  lemma QueueOthers(s: State, p: Packet, i: nat)
    requires s.Running() && i < NUMBER_OF_IDS
    ensures Untouched(s, Queue(s, p), i)
  {
  }

  lemma TaskOthers(s: State, packet: Option<Packet>, i: nat)
    requires s.Running() && i < NUMBER_OF_IDS && i != s.cur
    ensures Untouched(s, RunTask(s, packet), i)
  {
    match s.tcbs[s.cur].task
    case Idle(v1, count) => { hide Xor; }
    case Worker(w1, w2) => WorkerOthers(s, w1, w2, packet, i);
    case Handler(work, device) => HandlerOthers(s, work, device, packet, i);
    case Device(slot) => DeviceOthers(s, slot, packet, i);
  }

  lemma WorkerOthers(s: State, w1: int, w2: int, packet: Option<Packet>, i: nat)
    requires s.Running() && i < NUMBER_OF_IDS && i != s.cur
    ensures Untouched(s, RunWorker(s, w1, w2, packet), i)
  {
    hide Queue, Letters, LettersAfter, Overwrite;
    if packet.Some? {
      var h := if w1 == ID_HANDLER_A then ID_HANDLER_B else ID_HANDLER_A;
      QueueOthers(SetTask(s, Worker(h, LettersAfter(w2, DATA_SIZE))),
                  packet.value.(id := h, a1 := 0, a2 := Overwrite(packet.value.a2, Letters(w2, DATA_SIZE))), i);
    }
  }

  lemma HandlerOthers(s: State, work0: seq<Packet>, device0: seq<Packet>, packet: Option<Packet>, i: nat)
    requires s.Running() && i < NUMBER_OF_IDS && i != s.cur
    ensures Untouched(s, RunHandler(s, work0, device0, packet), i)
  {
    hide Queue, FileWork, FileDevice, Payload;
    var work, device := FileWork(work0, packet), FileDevice(device0, packet);
    if work != [] && work[0].a1 < DATA_SIZE && device != [] {
      var c := work[0].a1;
      QueueOthers(SetTask(s, Handler([work[0].(a1 := c + 1)] + work[1..], device[1..])), device[0].(a1 := Payload(work[0], c)), i);
    } else if work != [] && work[0].a1 >= DATA_SIZE {
      QueueOthers(SetTask(s, Handler(work[1..], device)), work[0], i);
    }
  }

  lemma DeviceOthers(s: State, slot: Option<Packet>, packet: Option<Packet>, i: nat)
    requires s.Running() && i < NUMBER_OF_IDS && i != s.cur
    ensures Untouched(s, RunDevice(s, slot, packet), i)
  {
    hide Queue;
    if packet.None? && slot.Some? { QueueOthers(SetTask(s, Device(None)), slot.value, i); }
  }

  lemma {:induction false} IterateStays(s: State, n: nat)
    requires !Iterate(s, n).Running()
    ensures Iterate(s, n + 1) == Iterate(s, n)
    decreases n
  {
    hide Step;
    if n > 0 && s.Running() { IterateStays(Step(s), n - 1); }
  }

  /** After `k` turns of the idle task and `f` packets of the worker. */
  ghost predicate After(s: State, count: int, k: nat, f: nat) {
    s.WF() && s.tcbs[0].task.Idle? && s.tcbs[0].task.count == count - k && (!s.tcbs[0].held ==> Holds(s.tcbs[0].task.v1, k)) &&
    WorkerAt(s, f)
  }

  lemma AfterStep(s: State, count: int, k: nat, f: nat)
    requires Inv(ANY, s) && s.Running() && After(s, count, k, f)
    ensures After(Step(s), count, if IdleTurn(s) then k + 1 else k, if WorkerTakes(s) then f + 1 else f)
  {
    Conditions(s);
    IdleHolds(s, count, k);
    WorkerHolds(s, f);
    PassHolds(s);
    if s.cur != 0 { OthersKeep(s, 0); }
    if s.cur != 1 { OthersKeep(s, 1); }
    hide Step, Inv, Holds, WorkerAt, WorkerLaw;
  }

  lemma AfterStart(count: int, queues: seq<seq<Packet>>)
    requires |queues| == NUMBER_OF_IDS
    ensures After(Start(count, queues), count, 0, 0)
  {
    hide Holds;
    RegisterStarts();
  }

  lemma {:induction false} History(count: int, queues: seq<seq<Packet>>, n: nat)
    requires |queues| == NUMBER_OF_IDS
    ensures var s := Start(count, queues); After(Iterate(s, n), count, Times(s, n, IdleTurn), Times(s, n, WorkerTakes))
  {
    hide Step, Inv, After, WorkerTakes, IdleTurn, Start;
    var s := Start(count, queues);
    if n == 0 {
      AfterStart(count, queues);
    } else {
      History(count, queues, n - 1);
      var s1 := Iterate(s, n - 1);
      hide Iterate;
      if s1.Running() {
        AnyStart(count, queues, n - 1);
        IterateNext(s, n - 1);
        AfterStep(s1, count, Times(s, n - 1, IdleTurn), Times(s, n - 1, WorkerTakes));
      } else {
        IterateStays(s, n - 1);
      }
    }
  }

  /** The laws of all tasks. */
  ghost predicate Lawful(s: State, s': State, count: int, k: nat, f: nat)
    requires s.Running()
  {
    PassLaw(s, s') && IdleLaw(s, s', count, k) && WorkerLaw(s, s', f) && HandlerLaw(s, s') && DeviceLaw(s, s')
  }

  /** Every run from every start keeps to the laws. */
  lemma RunLawful(count: int, queues: seq<seq<Packet>>, n: nat)
    requires |queues| == NUMBER_OF_IDS && Iterate(Start(count, queues), n).Running()
    ensures var s := Start(count, queues); Lawful(Iterate(s, n), Iterate(s, n + 1), count, Times(s, n, IdleTurn), Times(s, n, WorkerTakes))
  {
    hide Iterate, Step, Inv, Start, PassLaw, IdleLaw, WorkerLaw, HandlerLaw, DeviceLaw, Times;
    var s0 := Start(count, queues);
    var s := Iterate(s0, n);
    AnyStart(count, queues, n);
    IterateNext(s0, n);
    History(count, queues, n);
    PassHolds(s);
    IdleHolds(s, count, Times(s0, n, IdleTurn));
    WorkerHolds(s, Times(s0, n, WorkerTakes));
    HandlerHolds(s);
    DeviceHolds(s);
  }

  // ----- the counters

  /** A block becomes held. */
  ghost predicate BecomesHeld(s: State, s': State) {
    s.WF() && s'.WF() && exists i :: 0 <= i < NUMBER_OF_IDS && !s.tcbs[i].held && s'.tcbs[i].held
  }

  /** A packet comes to a block or leaves it. */
  ghost predicate Shifts(s: State, s': State) {
    s.WF() && s'.WF() && exists i, uid: nat :: 0 <= i < NUMBER_OF_IDS && At(s'.tcbs[i], uid) != At(s.tcbs[i], uid)
  }

  ghost predicate HoldLaw(s: State, s': State) {
    s'.holdCount == s.holdCount + if BecomesHeld(s, s') then 1 else 0
  }

  /** The current task parts with the packet `p`, which names `to`. */
  ghost predicate Parts(s: State, s': State, t: Tcb, to: int, p: Packet)
    requires s.Running()
  {
    Sends(s, s', t, to, p) && t.held == Block(s).held && forall uid: nat :: At(t, uid) + Occurrences([p], uid) == At(Block(s), uid)
  }

  lemma PartsHold(s: State, s': State, t: Tcb, to: int, p: Packet)
    requires s.Running() && Parts(s, s', t, to, p)
    ensures HoldLaw(s, s') && s'.WF()
  {
  }

  /** The packet changes blocks just if it names a block other than its own; the counter says so of all blocks. */
  lemma PartsShift(s: State, s': State, t: Tcb, to: int, p: Packet)
    requires s.Running() && Parts(s, s', t, to, p)
    ensures s'.WF() && (Shifts(s, s') <==> to != s.cur)
    ensures s'.queueCount == s.queueCount + if Known(to) then 1 else 0
  {
    var cur := s.cur;
    assert Occurrences([p], p.uid) == 1 + Occurrences([p][1..], p.uid);
    assert At(t, p.uid) + 1 == At(Block(s), p.uid);
    if to == cur {
      forall i, uid: nat | 0 <= i < NUMBER_OF_IDS ensures At(s'.tcbs[i], uid) == At(s.tcbs[i], uid) {
        if i == cur { ArrivesAt(t, s'.tcbs[i], p, uid); }
      }
    } else {
      assert At(s'.tcbs[cur], p.uid) != At(s.tcbs[cur], p.uid);
    }
  }

  lemma ArrivesAt(t: Tcb, t': Tcb, p: Packet, uid: nat)
    requires t'.queue == t.queue + [p] && t'.task == t.task
    ensures At(t', uid) == At(t, uid) + Occurrences([p], uid)
  {
    Appended(Mode.Any, t.queue, p, uid);
  }

  /** Nothing is sent. */
  ghost predicate Stills(s: State, s': State) {
    s.WF() && s'.WF() && s'.queueCount == s.queueCount && !Shifts(s, s') && HoldLaw(s, s')
  }

  lemma BlockStills(s: State, s': State, t: Tcb)
    requires s.Running() && s'.WF() && s'.queueCount == s.queueCount && s'.tcbs == s.tcbs[s.cur := t] && !Block(s).held
    requires (forall uid: nat :: At(t, uid) == At(Block(s), uid)) && s'.holdCount == s.holdCount + if t.held then 1 else 0
    ensures Stills(s, s')
  {
    hide At;
    if t.held { assert !s.tcbs[s.cur].held && s'.tcbs[s.cur].held; }
  }

  lemma IdleStills(s: State, s': State, count: int, k: nat)
    requires s.Running() && IdleTurn(s) && IdleLaw(s, s', count, k)
    ensures Stills(s, s')
  {
    hide Bit;
    var d := if Bit(k) then ID_DEVICE_B else ID_DEVICE_A;
    forall i | 1 <= i < NUMBER_OF_IDS ensures s'.tcbs[i] == s.tcbs[i] || (i == d && s'.tcbs[i] == s.tcbs[i].(held := false)) {
      assert s'.tcbs[i] == s'.tcbs[1..][i - 1];
    }
    if k + 1 == count { assert !s.tcbs[0].held && s'.tcbs[0].held; }
  }

  /** The packet that is given comes from the queue. */
  lemma GivenAt(t: Tcb, uid: nat)
    requires t.queue != []
    ensures Occurrences(t.queue, uid) == Occurrences(Emptied(t).queue, uid) + Occurrences([t.queue[0]], uid)
  {
    assert [t.queue[0]][1..] == [];
  }

  lemma WorkerParts(s: State, s': State, f: nat) returns (t: Tcb, to: int, p: Packet)
    requires s.Running() && WorkerTakes(s) && WorkerLaw(s, s', f)
    ensures Parts(s, s', t, to, p) && IsHandler(to) && p.kind == s.tcbs[1].queue[0].kind
    ensures t.queue == s.tcbs[1].queue[1..] && t.task.Worker?
  {
    hide Sends, Refilled;
    to := if f % 2 == 0 then ID_HANDLER_B else ID_HANDLER_A;
    var p0 := s.tcbs[1].queue[0];
    var task: Task, q: Packet :| task.Worker? && Refilled(p0, q, f) && Sends(s, s', Emptied(s.tcbs[1]).(task := task), to, q);
    t, p := Emptied(s.tcbs[1]).(task := task), q;
    assert q.uid == p0.uid && q.kind == p0.kind by { RefilledUid(p0, q, f); }
    forall uid: nat ensures At(t, uid) + Occurrences([p], uid) == At(s.tcbs[1], uid) { GivenAt(s.tcbs[1], uid); }
  }

  lemma RefilledUid(p: Packet, q: Packet, f: nat)
    requires Refilled(p, q, f)
    ensures q.uid == p.uid && q.kind == p.kind
  {
  }

  /** Filing the packet that is given changes nothing of what the block has. */
  lemma FiledAt(s: State, t: Tcb, uid: nat)
    requires s.Running() && Block(s).task.Handler? && t == (if Takes(s) then Emptied(Block(s)) else Block(s))
    ensures Occurrences(t.queue, uid) + Occurrences(Filed(s, WorkPacket), uid) + Occurrences(Filed(s, DevicePacket), uid) == At(Block(s), uid)
  {
    if Takes(s) {
      var p := Block(s).queue[0];
      GivenAt(Block(s), uid);
      Appended(Mode.Any, Block(s).task.work, p, uid);
      Appended(Mode.Any, Block(s).task.device, p, uid);
    }
  }

  lemma FrontAt(ps: seq<Packet>, p: Packet, uid: nat)
    requires ps != [] && p.uid == ps[0].uid
    ensures Occurrences(ps, uid) == Occurrences([p], uid) + Occurrences(ps[1..], uid) == Occurrences([p] + ps[1..], uid)
  {
    assert [p][1..] == [] && ([p] + ps[1..])[1..] == ps[1..];
  }

  /** What a handler sends: its finished work, or its first device packet. */
  predicate HandlerSent(s: State, t: Tcb, to: int, p: Packet)
    requires s.Running() && Block(s).task.Handler?
  {
    var work, device := Filed(s, WorkPacket), Filed(s, DevicePacket);
    var t0 := if Takes(s) then Emptied(Block(s)) else Block(s);
    t.queue == t0.queue && t.task.Handler? && work != [] &&
    if work[0].a1 >= 4 then
      to == work[0].id && p == work[0].(id := s.cur) && t.task == Handler(work[1..], device)
    else
      device != [] && to == device[0].id && p == device[0].(id := s.cur, a1 := p.a1) &&
      t.task == Handler([work[0].(a1 := work[0].a1 + 1)] + work[1..], device[1..])
  }

  lemma HandlerParts(s: State, s': State) returns (sent: bool, t: Tcb, to: int, p: Packet)
    requires s.Running() && IsHandler(s.cur) && !Rests(s) && HandlerLaw(s, s')
    ensures Block(s).task.Handler?
    ensures sent <==> Filed(s, WorkPacket) != [] && (Filed(s, WorkPacket)[0].a1 >= 4 || Filed(s, DevicePacket) != [])
    ensures if sent then Parts(s, s', t, to, p) && HandlerSent(s, t, to, p)
            else Sleeps(s, s', t) && !t.held && t.task == Handler(Filed(s, WorkPacket), Filed(s, DevicePacket)) && t.queue == (if Takes(s) then Emptied(Block(s)) else Block(s)).queue
  {
    hide Sends, At, Filed;
    var work, device := Filed(s, WorkPacket), Filed(s, DevicePacket);
    var t0 := if Takes(s) then Emptied(Block(s)) else Block(s);
    sent, to := work != [] && (work[0].a1 >= 4 || device != []), 0;
    if work != [] && work[0].a1 >= 4 {
      t, to, p := t0.(task := Handler(work[1..], device)), work[0].id, work[0].(id := s.cur);
      forall uid: nat ensures At(t, uid) + Occurrences([p], uid) == At(Block(s), uid) {
        FiledAt(s, t0, uid);
        FrontAt(work, p, uid);
        HandlerAt(t, uid);
      }
    } else if work != [] && device != [] {
      var c := work[0].a1;
      var w := work[0].(a1 := c + 1);
      t, to := t0.(task := Handler([w] + work[1..], device[1..])), device[0].id;
      var x :| (0 <= c < |work[0].a2| ==> x == work[0].a2[c]) && Sends(s, s', t, device[0].id, device[0].(id := s.cur, a1 := x));
      p := device[0].(id := s.cur, a1 := x);
      forall uid: nat ensures At(t, uid) + Occurrences([p], uid) == At(Block(s), uid) {
        FiledAt(s, t0, uid);
        FrontAt(work, w, uid);
        FrontAt(device, p, uid);
        HandlerAt(t, uid);
      }
    } else {
      t, p := t0.(task := Handler(work, device)), Packet(0, 0, WorkPacket, 0, []);
    }
  }

  lemma HandlerNames(s: State, s': State, sent: bool, t: Tcb, to: int, p: Packet)
    requires s.Running() && IsHandler(s.cur) && !Rests(s) && Block(s).task.Handler? && (sent ==> HandlerSent(s, t, to, p))
    requires sent <==> Filed(s, WorkPacket) != [] && (Filed(s, WorkPacket)[0].a1 >= 4 || Filed(s, DevicePacket) != [])
    ensures Naming(s) == if sent then Some(to) else None
  {
    hide Filed;
  }

  lemma HandlerAt(t: Tcb, uid: nat)
    requires t.task.Handler?
    ensures At(t, uid) == Occurrences(t.queue, uid) + Occurrences(t.task.work, uid) + Occurrences(t.task.device, uid)
  {
  }

  lemma SleepStills(s: State, s': State, t: Tcb)
    requires s.Running() && Sleeps(s, s', t) && !Block(s).held && !t.held && forall uid: nat :: At(t, uid) == At(Block(s), uid)
    ensures Stills(s, s')
  {
    hide At;
    forall uid: nat ensures At(t.(suspended := true), uid) == At(Block(s), uid) { SuspendedAt(t, uid); }
    BlockStills(s, s', t.(suspended := true));
  }

  lemma SuspendedAt(t: Tcb, uid: nat)
    ensures At(t.(suspended := true), uid) == At(t, uid)
  {
  }

  lemma DeviceParts(s: State, s': State) returns (sent: bool, t: Tcb, to: int, p: Packet)
    requires s.Running() && IsDevice(s.cur) && !Rests(s) && DeviceLaw(s, s')
    ensures Block(s).task.Device? && (sent <==> !Takes(s) && Block(s).task.slot.Some?)
    ensures if sent then Parts(s, s', t, to, p) && Block(s).task.slot.Some? && to == Block(s).task.slot.value.id && p.kind == Block(s).task.slot.value.kind &&
                         t.queue == Block(s).queue && t.task == Device(None)
            else Stills(s, s')
  {
    hide Sends;
    t, to, p := Block(s), 0, Packet(0, 0, WorkPacket, 0, []);
    sent := !Takes(s) && Block(s).task.slot.Some?;
    if Takes(s) {
      t := Emptied(Block(s)).(held := true, task := Device(Some(Block(s).queue[0])));
      forall uid: nat ensures At(t, uid) == At(Block(s), uid) { GivenAt(Block(s), uid); }
      BlockStills(s, s', t);
    } else if sent {
      var q := Block(s).task.slot.value;
      t, to, p := Block(s).(task := Device(None)), q.id, q.(id := s.cur);
      forall uid: nat ensures At(t, uid) + Occurrences([p], uid) == At(Block(s), uid) { assert [p][1..] == []; }
    } else {
      SleepStills(s, s', t);
    }
  }

  lemma PassStills(s: State, s': State)
    requires s.Running() && Rests(s) && PassLaw(s, s')
    ensures Stills(s, s')
  {
    hide At;
  }

  /** The name on the packet that a handler or a device is about to send. */
  function Naming(s: State): Option<int>
    requires s.Running()
  {
    if Rests(s) then None
    else
      match Block(s).task
      case Handler(_, _) =>
        var work, device := Filed(s, WorkPacket), Filed(s, DevicePacket);
        if work != [] && work[0].a1 >= 4 then Some(work[0].id) else if work != [] && device != [] then Some(device[0].id) else None
      case Device(slot) => if Takes(s) || slot.None? then None else Some(slot.value.id)
      case _ => None
  }

  /** Every step parts with one packet or stills all of them. */
  lemma Classified(s: State, s': State, count: int, k: nat, f: nat) returns (sent: bool, t: Tcb, to: int, p: Packet)
    requires s.Running() && Lawful(s, s', count, k, f)
    ensures if sent then Parts(s, s', t, to, p) else Stills(s, s')
    ensures sent ==> Naming(s) == if s.cur == 1 then None else Some(to)
    ensures !sent ==> Naming(s).None?
    ensures sent && s.cur == 1 ==> IsHandler(to)
  {
    sent, t, to, p := false, Block(s), 0, Packet(0, 0, WorkPacket, 0, []);
    if Rests(s) {
      PassStills(s, s');
    } else if s.cur == 0 {
      IdleStills(s, s', count, k);
    } else if s.cur == 1 {
      if Takes(s) {
        t, to, p := WorkerParts(s, s', f);
        sent := true;
      } else {
        SleepStills(s, s', s.tcbs[1]);
      }
    } else if IsHandler(s.cur) {
      sent, t, to, p := HandlerParts(s, s');
      HandlerNames(s, s', sent, t, to, p);
      if !sent {
        forall uid: nat ensures At(t, uid) == At(Block(s), uid) {
          FiledAt(s, if Takes(s) then Emptied(Block(s)) else Block(s), uid);
          HandlerAt(t, uid);
        }
        SleepStills(s, s', t);
      }
    } else {
      sent, t, to, p := DeviceParts(s, s');
    }
  }

  /** The packets queued grow by one as often as a packet changes blocks. */
  ghost predicate MoveLaw(s: State, s': State) {
    s'.queueCount == s.queueCount + if Shifts(s, s') then 1 else 0
  }

  /** The packet names the block that it is in, or none at all. */
  predicate Astray(s: State)
    requires s.Running()
  {
    Naming(s).Some? && (Naming(s).value == s.cur || !Known(Naming(s).value))
  }

  /** In every run the holds count the blocks that become held. The queued packets count those that change blocks,
      but for the step of a packet that goes astray. */
  lemma RunCounts(count: int, queues: seq<seq<Packet>>, n: nat)
    requires |queues| == NUMBER_OF_IDS && Iterate(Start(count, queues), n).Running()
    ensures var s, s' := Iterate(Start(count, queues), n), Iterate(Start(count, queues), n + 1);
      HoldLaw(s, s') && (MoveLaw(s, s') <==> !Astray(s))
  {
    hide Iterate, Lawful, Times, HoldLaw, Parts, Shifts, Naming, Start;
    RunLawful(count, queues, n);
    var s0 := Start(count, queues);
    var s, s' := Iterate(s0, n), Iterate(s0, n + 1);
    var sent, t, to, p := Classified(s, s', count, Times(s0, n, IdleTurn), Times(s0, n, WorkerTakes));
    if sent {
      PartsHold(s, s', t, to, p);
      PartsShift(s, s', t, to, p);
    }
  }

  /** A finished work packet at a handler that names this handler is queued and stays. */
  lemma OwnPacketCounts(count: int, p: Packet, queues: seq<seq<Packet>>)
    requires p.kind == WorkPacket && p.id == ID_HANDLER_A && p.a1 >= 4 && queues == [[], [], [p], [], [], []]
    ensures var s, s' := Iterate(Start(count, queues), 3), Iterate(Start(count, queues), 4);
      s.Running() && Astray(s) && s'.queueCount == s.queueCount + 1 && !Shifts(s, s')
  {
    var s0 := Start(count, queues);
    var s3 := s0.(cur := 2);
    assert Iterate(s0, 3) == s3 by { ThreePasses(count, queues); }
    assert Filed(s3, WorkPacket) == [p];
    hide Iterate, Shifts;
    RunCounts(count, queues, 3);
    RunLawful(count, queues, 3);
    assert HandlerLaw(s3, Iterate(s0, 4));
    hide Filed, At;
    var sent, t, to, q := HandlerParts(s3, Iterate(s0, 4));
    PartsShift(s3, Iterate(s0, 4), t, to, q);
  }

  lemma ThreePasses(count: int, queues: seq<seq<Packet>>)
    requires |queues| == NUMBER_OF_IDS && queues[3] == queues[4] == queues[5] == []
    ensures Iterate(Start(count, queues), 3) == Start(count, queues).(cur := 2)
  {
    var s0 := Start(count, queues);
    assert Step(s0) == s0.(cur := 4);
    assert Step(s0.(cur := 4)) == s0.(cur := 3);
    assert Step(s0.(cur := 3)) == s0.(cur := 2);
    hide Step;
    assert Iterate(s0.(cur := 3), 1) == s0.(cur := 2);
    assert Iterate(s0.(cur := 4), 2) == s0.(cur := 2);
  }

  // ----- packets at home

  /** Where the packets of the benchmark are, and what they name: work packets at the worker, and at the handlers with
      the name of the worker; device packets at a handler and its device, with the name of the other of the two. */
  predicate Home(i: int, p: Packet) {
    if i == ID_WORKER then p.kind == WorkPacket
    else if IsHandler(i) then if p.kind == WorkPacket then p.id == ID_WORKER else p.id == i + 2
    else IsDevice(i) && p.kind == DevicePacket && p.id == i - 2
  }

  predicate AllHome(i: int, ps: seq<Packet>) {
    forall k :: 0 <= k < |ps| ==> Home(i, ps[k])
  }

  predicate HomeBlock(i: int, t: Tcb) {
    AllHome(i, t.queue) &&
    match t.task
    case Handler(work, device) => AllHome(i, work) && AllHome(i, device) && AllOf(WorkPacket, work) && AllOf(DevicePacket, device)
    case Device(slot) => slot.Some? ==> Home(i, slot.value)
    case _ => true
  }

  predicate HomeState(s: State) {
    s.WF() && forall i :: 0 <= i < NUMBER_OF_IDS ==> HomeBlock(i, s.tcbs[i])
  }

  lemma HomeFiled(s: State)
    requires s.Running() && HomeState(s) && Block(s).task.Handler?
    ensures var work, device := Filed(s, WorkPacket), Filed(s, DevicePacket);
      AllHome(s.cur, work) && AllHome(s.cur, device) && AllOf(WorkPacket, work) && AllOf(DevicePacket, device)
    ensures AllHome(s.cur, (if Takes(s) then Emptied(Block(s)) else Block(s)).queue)
  {
    assert HomeBlock(s.cur, Block(s));
  }

  /** A packet at home does not go astray. */
  lemma HomeNames(s: State)
    requires s.Running() && HomeState(s) && (Block(s).task.Handler? ==> IsHandler(s.cur)) && (Block(s).task.Device? ==> IsDevice(s.cur))
    ensures !Astray(s)
  {
    assert HomeBlock(s.cur, Block(s));
    if Block(s).task.Handler? {
      HomeFiled(s);
      hide Filed, HomeState;
    }
  }

  /** After a packet is sent all are at home, if the sender and the packet are. */
  lemma SendsHome(s: State, s': State, t: Tcb, to: int, p: Packet)
    requires s.Running() && HomeState(s) && Sends(s, s', t, to, p) && Known(to) && HomeBlock(s.cur, t) && Home(to, p)
    ensures HomeState(s')
  {
    hide Home;
    var ts := s.tcbs[s.cur := t];
    forall i | 0 <= i < NUMBER_OF_IDS ensures HomeBlock(i, s'.tcbs[i]) {
      assert HomeBlock(i, ts[i]);
      if i == to { assert s'.tcbs[i].queue == ts[i].queue + [p] && s'.tcbs[i].task == ts[i].task; }
    }
  }

  lemma BlockHome(s: State, s': State, t: Tcb)
    requires s.Running() && HomeState(s) && s'.WF() && s'.tcbs == s.tcbs[s.cur := t] && HomeBlock(s.cur, t)
    ensures HomeState(s')
  {
    hide HomeBlock;
  }

  lemma HandlerHome(s: State, s': State)
    requires s.Running() && HomeState(s) && IsHandler(s.cur) && !Rests(s) && HandlerLaw(s, s')
    ensures HomeState(s')
  {
    hide HomeState, HandlerLaw, Parts, Filed;
    var sent, t, to, p := HandlerParts(s, s');
    HomeFiled(s);
    if sent {
      assert HomeBlock(s.cur, t) && Known(to) && Home(to, p);
      assert Sends(s, s', t, to, p) by { PartsSends(s, s', t, to, p); }
      SendsHome(s, s', t, to, p);
    } else {
      BlockHome(s, s', t.(suspended := true));
    }
  }

  lemma PartsSends(s: State, s': State, t: Tcb, to: int, p: Packet)
    requires s.Running() && Parts(s, s', t, to, p)
    ensures Sends(s, s', t, to, p) && p.id == s.cur
  {
  }

  lemma WorkerHome(s: State, s': State, f: nat)
    requires s.Running() && HomeState(s) && s.cur == ID_WORKER && !Rests(s) && WorkerLaw(s, s', f)
    ensures HomeState(s')
  {
    assert HomeBlock(1, s.tcbs[1]);
    hide Parts;
    if Takes(s) {
      var t, to, p := WorkerParts(s, s', f);
      PartsSends(s, s', t, to, p);
      hide WorkerLaw, HomeState;
      SendsHome(s, s', t, to, p);
    } else {
      BlockHome(s, s', s.tcbs[1].(suspended := true));
    }
  }

  lemma DeviceHome(s: State, s': State)
    requires s.Running() && HomeState(s) && IsDevice(s.cur) && !Rests(s) && DeviceLaw(s, s')
    ensures HomeState(s')
  {
    assert HomeBlock(s.cur, Block(s));
    hide Parts, Stills;
    var sent, t, to, p := DeviceParts(s, s');
    if sent {
      PartsSends(s, s', t, to, p);
      hide DeviceLaw, HomeState;
      SendsHome(s, s', t, to, p);
    } else if Takes(s) {
      BlockHome(s, s', Emptied(Block(s)).(held := true, task := Device(Some(Block(s).queue[0]))));
    } else {
      BlockHome(s, s', Block(s).(suspended := true));
    }
  }

  lemma IdleHome(s: State, s': State, count: int, k: nat)
    requires HomeState(s) && IdleTurn(s) && IdleLaw(s, s', count, k)
    ensures HomeState(s')
  {
    hide Bit, Home;
    var d := if Bit(k) then ID_DEVICE_B else ID_DEVICE_A;
    forall i | 0 <= i < NUMBER_OF_IDS ensures HomeBlock(i, s'.tcbs[i]) {
      assert HomeBlock(i, s.tcbs[i]);
      if i > 0 { assert s'.tcbs[i] == s'.tcbs[1..][i - 1]; }
    }
  }

  lemma HomeKept(s: State, s': State, count: int, k: nat, f: nat)
    requires s.Running() && HomeState(s) && Lawful(s, s', count, k, f)
    ensures HomeState(s')
  {
    hide HomeState, IdleLaw, WorkerLaw, HandlerLaw, DeviceLaw;
    if Rests(s) {
      HomePass(s, s');
    } else if s.cur == 0 {
      IdleHome(s, s', count, k);
    } else if s.cur == 1 {
      WorkerHome(s, s', f);
    } else if IsHandler(s.cur) {
      HandlerHome(s, s');
    } else {
      DeviceHome(s, s');
    }
  }

  lemma HomePass(s: State, s': State)
    requires s.Running() && HomeState(s) && s' == s.(cur := s.cur - 1)
    ensures HomeState(s')
  {
  }

  predicate HomeQueues(queues: seq<seq<Packet>>) {
    |queues| == NUMBER_OF_IDS && forall i :: 0 <= i < NUMBER_OF_IDS ==> AllHome(i, queues[i])
  }

  lemma HomeStart(count: int, queues: seq<seq<Packet>>)
    requires HomeQueues(queues)
    ensures |queues| == NUMBER_OF_IDS && HomeState(Start(count, queues))
  {
    var s := Start(count, queues);
    assert forall i :: 0 <= i < NUMBER_OF_IDS ==> s.tcbs[i].queue == queues[i];
  }

  lemma {:induction false} RunHome(count: int, queues: seq<seq<Packet>>, n: nat)
    requires HomeQueues(queues)
    ensures HomeState(Iterate(Start(count, queues), n))
  {
    hide Start, HomeState, Lawful, HomeQueues, Step;
    HomeStart(count, queues);
    var s := Start(count, queues);
    if n > 0 {
      RunHome(count, queues, n - 1);
      hide Iterate;
      if Iterate(s, n - 1).Running() {
        RunLawful(count, queues, n - 1);
        HomeKept(Iterate(s, n - 1), Iterate(s, n), count, Times(s, n - 1, IdleTurn), Times(s, n - 1, WorkerTakes));
      } else {
        IterateStays(s, n - 1);
      }
    }
  }

  /** A packet changes blocks in the next step. */
  ghost predicate Moving(s: State) {
    Shifts(s, Iterate(s, 1))
  }

  /** A block becomes held in the next step. */
  ghost predicate Holding(s: State) {
    BecomesHeld(s, Iterate(s, 1))
  }

  lemma NextOnce(s: State, n: nat)
    requires Iterate(s, n).Running()
    ensures Iterate(s, n + 1) == Iterate(Iterate(s, n), 1)
  {
    IterateNext(s, n);
    IterateNext(Iterate(s, n), 0);
  }

  /** In every run the hold count is the number of times that a block became held; with all packets at home the queue
      count is the number of times that a packet changed blocks. */
  lemma {:induction false} RunTotals(count: int, queues: seq<seq<Packet>>, n: nat)
    requires |queues| == NUMBER_OF_IDS
    ensures var s := Start(count, queues);
      Iterate(s, n).holdCount == Times(s, n, Holding) && (HomeQueues(queues) ==> Iterate(s, n).queueCount == Times(s, n, Moving))
  {
    hide HomeQueues, Shifts, BecomesHeld, Astray, HomeState, Step;
    var s := Start(count, queues);
    assert s.holdCount == s.queueCount == 0;
    if n > 0 {
      RunTotals(count, queues, n - 1);
      var s1 := Iterate(s, n - 1);
      hide Iterate, Start;
      if s1.Running() {
        RunCounts(count, queues, n - 1);
        NextOnce(s, n - 1);
        if HomeQueues(queues) {
          RunHome(count, queues, n - 1);
          AnyStart(count, queues, n - 1);
          TaskPlaces(s1);
          HomeNames(s1);
        }
      } else {
        IterateStays(s, n - 1);
      }
    }
  }

  lemma TaskPlaces(s: State)
    requires Inv(ANY, s) && s.Running()
    ensures (Block(s).task.Handler? ==> IsHandler(s.cur)) && (Block(s).task.Device? ==> IsDevice(s.cur))
  {
    assert TcbOk(ANY, s.cur, Block(s));
  }
}
