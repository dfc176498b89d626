/** The objects of the Richards benchmark: packets chained by their links, task control blocks and
    the scheduler that updates them, refining the steps of `RichardsModel`. */
module Richards {
  import opened Common
  import M = RichardsModel

  const NOWHERE := -1

  class Packet {
    const uid: nat
    const kind: M.Kind
    var link: Packet?
    var id: int
    var a1: int
    var a2: seq<int>

    /** The number of the list this packet is in, or `NOWHERE` while a task has it in hand. */
    ghost var owner: int

    constructor (link: Packet?, id: int, kind: M.Kind, uid: nat)
      ensures this.link == link && owner == NOWHERE && Value() == M.Packet(uid, id, kind, 0, [])
    {
      this.link, this.id, this.kind, this.uid := link, id, kind, uid;
      a1, a2, owner := 0, [], NOWHERE;
    }

    ghost function Value(): M.Packet
      reads `id, `a1, `a2
    {
      M.Packet(uid, id, kind, a1, a2)
    }

    twostate predicate Same()
      reads this
    {
      link == old(link) && id == old(id) && a1 == old(a1) && a2 == old(a2) && owner == old(owner)
    }

    /** Take this packet from the front of its list; its own link is left as it is. */
    method Unlink(ghost l: List) returns (rest: Packet?)
      requires l.Chain(this)
      modifies `owner
      ensures owner == NOWHERE && l.Rest().Chain(rest)
    {
      l.NoRepeat(this);
      rest := link;
      owner := NOWHERE;
    }

    /** Change `a1` of the packet at the front of its list. */
    method SetFirst(x: int, ghost l: List)
      requires l.Chain(this)
      modifies `a1
      ensures a1 == x && l.(values := [l.values[0].(a1 := x)] + l.values[1..]).Chain(this)
    {
      l.NoRepeat(this);
      a1 := x;
    }

    /** Address this packet and overwrite its payload with the next four letters after `w2`. */
    method Fill(id: int, w2: int) returns (v2: int)
      modifies `id, `a1, `a2
      ensures v2 == M.LettersAfter(w2, M.DATA_SIZE)
      ensures Value() == old(Value()).(id := id, a1 := 0, a2 := M.Overwrite(old(a2), M.Letters(w2, M.DATA_SIZE)))
    {
      this.id := id;
      a1 := 0;
      v2 := w2;
      var i := 0;
      while i < M.DATA_SIZE
        invariant 0 <= i <= M.DATA_SIZE && v2 == M.LettersAfter(w2, i)
        invariant a2 == M.Overwrite(old(a2), M.Letters(w2, i))
        invariant |M.Letters(w2, i)| == i
        modifies `a2
      {
        v2 := v2 + 1;
        if v2 > 26 {
          v2 := 1;
        }
        LettersSnoc(w2, i);
        OverwriteSnoc(old(a2), M.Letters(w2, i), v2);
        a2 := if i < |a2| then a2[i := v2] else a2 + [v2];
        i := i + 1;
      }
    }

    /** Append this packet to a list by walking its links. */
    method AddTo(queue: Packet?, ghost l: List) returns (r: Packet)
      requires l.Chain(queue) && owner == NOWHERE && this in l.all
      modifies `link, `owner, Last(l.packets)`link
      ensures l.Plus(this, old(Value())).Chain(r)
    {
      link := null;
      owner := l.number;
      if queue == null {
        return this;
      }
      var next := queue;
      ghost var i := 0;
      while next.link != null
        invariant 0 <= i < |l.packets| && next == l.packets[i]
        invariant l.Chain(queue)
        modifies {}
        decreases |l.packets| - i
      {
        next := next.link;
        i := i + 1;
      }
      l.NoRepeat(queue);
      next.link := this;
      r := queue;
    }
  }

  lemma OverwriteSnoc(s: seq<int>, front: seq<int>, x: int)
    ensures var t := M.Overwrite(s, front);
            M.Overwrite(s, front + [x]) == if |front| < |t| then t[|front| := x] else t + [x]
  {
  }

  lemma {:induction false} LettersSnoc(w2: int, n: nat)
    ensures M.LettersAfter(w2, n + 1) == M.NextLetter(M.LettersAfter(w2, n))
    ensures M.Letters(w2, n + 1) == M.Letters(w2, n) + [M.LettersAfter(w2, n + 1)]
    decreases n
  {
    if n > 0 { LettersSnoc(M.NextLetter(w2), n - 1); }
  }

  /** The packets of the list with a given number, in order, with their contents; all of them are
      among the packets `all` of the system. */
  datatype List = List(packets: seq<Packet>, values: seq<M.Packet>, number: int, all: set<Packet>) {

    /** The links from `h` lead through exactly these packets and end: the list is acyclic, and no
        two lists with different numbers share a packet. */
    ghost predicate Chain(h: Packet?)
      reads packets
    {
      0 <= number && h == At(packets, 0) && |values| == |packets| &&
      forall k :: 0 <= k < |packets| ==>
        packets[k] in all && packets[k].owner == number && packets[k].Value() == values[k] &&
        packets[k].link == At(packets, k + 1)
    }

    /** At most one packet, whatever its link: a device's slot. */
    ghost predicate Slot(h: Packet?)
      reads packets
    {
      0 <= number && h == At(packets, 0) && |values| == |packets| <= 1 &&
      forall k :: 0 <= k < |packets| ==>
        packets[k] in all && packets[k].owner == number && packets[k].Value() == values[k]
    }

    ghost function Rest(): List
      requires packets != [] && values != []
    {
      this.(packets := packets[1..], values := values[1..])
    }

    ghost function Plus(p: Packet, v: M.Packet): List {
      this.(packets := packets + [p], values := values + [v])
    }

    lemma NoRepeat(h: Packet?)
      requires Chain(h)
      ensures forall i, j :: 0 <= i < j < |packets| ==> packets[i] != packets[j]
    {
      forall i, j | 0 <= i < j < |packets| ensures packets[i] != packets[j] { Distinct(h, i, j); }
    }

    lemma {:induction false} Distinct(h: Packet?, i: nat, j: nat)
      requires Chain(h) && i < j < |packets|
      ensures packets[i] != packets[j]
      decreases |packets| - j
    {
      if j + 1 < |packets| { Distinct(h, i + 1, j + 1); }
    }

    lemma Front(h: Packet?)
      requires Chain(h)
      ensures h == null <==> values == []
      ensures packets == [] <==> values == []
      ensures h != null ==> h == packets[0] && h.Value() == values[0] && h.owner == number && h in all &&
                            h.id == values[0].id && h.a1 == values[0].a1 && h.a2 == values[0].a2
    {
    }

    /** A packet whose owner is another list is not in this one. */
    lemma Apart(h: Packet?, p: Packet)
      requires (Chain(h) || Slot(h)) && p.owner != number
      ensures p !in packets
    {
    }

    lemma EndsOwned(h: Packet?)
      requires Chain(h) || Slot(h)
      ensures forall p :: p in Ends(packets) ==> p.owner == number && p in all
    {
    }
  }

  ghost function First(s: seq<Packet>): set<Packet> {
    if s == [] then {} else {s[0]}
  }

  ghost function Last(s: seq<Packet>): set<Packet> {
    if s == [] then {} else {s[|s| - 1]}
  }

  ghost function Ends(s: seq<Packet>): set<Packet> {
    First(s) + Last(s)
  }

  ghost function At(s: seq<Packet>, k: nat): Packet? {
    if k < |s| then s[k] else null
  }

  lemma Alone(p: Packet, all: set<Packet>)
    requires p.link == null && p in all && 0 <= p.owner
    ensures List([p], [p.Value()], p.owner, all).Chain(p)
  {
  }

  // ----- task control blocks

  const RUNNING: bv3 := 0
  const RUNNABLE: bv3 := 1
  const SUSPENDED: bv3 := 2
  const HELD: bv3 := 4
  const SUSPENDED_RUNNABLE: bv3 := SUSPENDED | RUNNABLE
  const NOT_HELD: bv3 := !HELD

  /** The private state of the four kinds of task. */
  datatype Task =
    | IdleTask(seed: nat, count: int)
    | WorkerTask(w1: int, w2: int)
    | HandlerTask(v1: Packet?, v2: Packet?)
    | DeviceTask(slot: Packet?)
  {
    function V1(): Packet? {
      match this
      case HandlerTask(v1, _) => v1
      case DeviceTask(slot) => slot
      case _ => null
    }

    function V2(): Packet? {
      if HandlerTask? then v2 else null
    }

    ghost function Value(work: List, device: List): M.Task {
      match this
      case IdleTask(seed, count) => M.Idle(seed, count)
      case WorkerTask(w1, w2) => M.Worker(w1, w2)
      case HandlerTask(_, _) => M.Handler(work.values, device.values)
      case DeviceTask(_) => M.Device(if work.values == [] then None else Some(work.values[0]))
    }
  }

  ghost function Block(state: bv3, queued: seq<M.Packet>, task: M.Task): M.Tcb {
    M.Tcb(state & HELD != 0, state & SUSPENDED != 0, state & RUNNABLE != 0, queued, task)
  }

  class TaskControlBlock {
    const link: TaskControlBlock?
    const id: nat
    const priority: int
    var queue: Packet?
    var state: bv3
    var task: Task

    /** The worklist and the task's own lists; a device's slot is its `work`. */
    ghost const all: set<Packet>
    ghost var waiting: List
    ghost var work: List
    ghost var device: List

    ghost function Model(): M.Tcb
      reads `state, `task, `waiting, `work, `device
    {
      Block(state, waiting.values, task.Value(work, device))
    }

    constructor (link: TaskControlBlock?, id: nat, priority: int, queue: Packet?, task: Task, ghost waiting: List)
      requires waiting.Chain(queue) && waiting.number == 3 * id && task.V1() == null && task.V2() == null
      ensures this.link == link && this.id == id && this.priority == priority && all == waiting.all && this.task == task
      ensures Valid() && state != RUNNING && work.packets == [] && device.packets == [] && this.waiting == waiting
      ensures Model() == M.Tcb(false, true, waiting.values != [], waiting.values, task.Value(work, device))
      ensures work.values == [] && device.values == []
    {
      this.link, this.id, this.priority, this.queue, this.task := link, id, priority, queue, task;
      if queue == null {
        state := SUSPENDED;
      } else {
        state := SUSPENDED_RUNNABLE;
      }
      all := waiting.all;
      this.waiting := waiting;
      work := List([], [], 3 * id + 1, waiting.all);
      device := List([], [], 3 * id + 2, waiting.all);
    }

    method SetRunning()
      modifies `state
      ensures Model() == old(Model()).(held := false, suspended := false, runnable := false)
    {
      state := RUNNING;
    }

    ghost predicate Numbered()
      reads `waiting, `work, `device
    {
      waiting.number == 3 * id && work.number == 3 * id + 1 && device.number == 3 * id + 2 &&
      waiting.all == work.all == device.all == all
    }

    ghost predicate Work()
      reads `task, `work, work.packets
    {
      if task.DeviceTask? then work.Slot(task.V1()) else work.Chain(task.V1())
    }

    ghost predicate Valid()
      reads `queue, `task, `waiting, `work, `device, waiting.packets, work.packets, device.packets
    {
      Numbered() && waiting.Chain(queue) && Work() && device.Chain(task.V2())
    }

    ghost predicate Inside()
      reads `waiting, `work, `device
    {
      (forall p :: p in waiting.packets ==> p in all) && (forall p :: p in work.packets ==> p in all) &&
      (forall p :: p in device.packets ==> p in all)
    }

    ghost function AllEnds(): set<Packet>
      reads `waiting, `work, `device
    {
      Ends(waiting.packets) + Ends(work.packets) + Ends(device.packets)
    }

    twostate predicate Same()
      reads this
    {
      queue == old(queue) && state == old(state) && task == old(task) &&
      waiting == old(waiting) && work == old(work) && device == old(device)
    }

    ghost predicate Without(p: Packet)
      reads `waiting, `work, `device
    {
      p !in waiting.packets && p !in work.packets && p !in device.packets
    }

    /** A change of packets that are not in its lists does not affect a block. */
    twostate lemma Untouched(new xs: set<Packet>)
      requires old(Valid()) && old(Inside()) && Same()
      requires forall p :: p in xs ==> Without(p)
      requires forall p :: p in all && p !in xs ==> p.Same()
      ensures Valid() && Inside() && Model() == old(Model())
    {
    }

    lemma EndsOwned()
      requires Valid()
      ensures forall p :: p in AllEnds() ==> p in all && 3 * id <= p.owner <= 3 * id + 2
    {
      hide List.Chain, List.Slot;
      waiting.EndsOwned(queue);
      work.EndsOwned(task.V1());
      device.EndsOwned(task.V2());
    }

    lemma IsInside()
      requires Valid()
      ensures Inside()
    {
    }

    lemma Apart(p: Packet)
      requires Valid()
      ensures p.owner != 3 * id ==> p !in waiting.packets
      ensures p.owner != 3 * id + 1 ==> p !in work.packets
      ensures p.owner != 3 * id + 2 ==> p !in device.packets
    {
      hide List.Chain, List.Slot;
      if p.owner != 3 * id { waiting.Apart(queue, p); }
      if p.owner != 3 * id + 1 { work.Apart(task.V1(), p); }
      if p.owner != 3 * id + 2 { device.Apart(task.V2(), p); }
    }

    /** The two ends of a list are in no other list of this block. */
    lemma Separate()
      requires Valid()
      ensures forall p :: p in Ends(waiting.packets) ==> p !in work.packets && p !in device.packets
      ensures forall p :: p in Ends(work.packets) ==> p !in waiting.packets && p !in device.packets
      ensures forall p :: p in Ends(device.packets) ==> p !in waiting.packets && p !in work.packets
    {
      hide List.Chain, List.Slot;
      waiting.EndsOwned(queue);
      work.EndsOwned(task.V1());
      device.EndsOwned(task.V2());
      forall p | p in Ends(waiting.packets) || p in Ends(work.packets) || p in Ends(device.packets)
        ensures p.owner != 3 * id ==> p !in waiting.packets
        ensures p.owner != 3 * id + 1 ==> p !in work.packets
        ensures p.owner != 3 * id + 2 ==> p !in device.packets
      {
        Apart(p);
      }
    }

    lemma Parts()
      ensures Valid() <==> Numbered() && waiting.Chain(queue) && Work() && device.Chain(task.V2())
    {
    }

    /** The block with the worklist `q` and the private state `t` in place of its own. */
    lemma Models(q: seq<M.Packet>, t: M.Task)
      ensures Model() == Block(state, q, t).(queue := waiting.values, task := task.Value(work, device))
      ensures task.HandlerTask? ==> task.Value(work, device) == M.Handler(work.values, device.values)
      ensures Model().queue == waiting.values && Model().task == task.Value(work, device)
    {
    }

    method MarkAsNotHeld()
      modifies `state
      ensures Model() == old(Model()).(held := false)
    {
      state := state & NOT_HELD;
    }

    method MarkAsHeld()
      modifies `state
      ensures Model() == old(Model()).(held := true)
    {
      state := state | HELD;
    }

    method MarkAsSuspended()
      modifies `state
      ensures Model() == old(Model()).(suspended := true)
    {
      state := state | SUSPENDED;
    }

    method MarkAsRunnable()
      modifies `state
      ensures Model() == old(Model()).(runnable := true)
    {
      state := state | RUNNABLE;
    }

    method IsHeldOrSuspended() returns (r: bool)
      ensures r == Model().HeldOrSuspended()
    {
      r := state & HELD != 0 || state == SUSPENDED;
    }

    // ----- the worklist

    /** Take the first packet of the worklist. */
    method DropFirst() returns (packet: Packet)
      requires Valid() && Model().queue != []
      modifies `queue, `waiting, First(waiting.packets)`owner
      ensures Valid() && packet == old(queue) && packet.owner == NOWHERE && packet in all
      ensures packet.Value() == old(Model().queue[0])
      ensures Model() == old(Model()).(queue := old(Model().queue)[1..])
      ensures queue == null <==> Model().queue == []
    {
      hide List.Chain, List.Slot, Work, Valid, Model, Block;
      Parts();
      Separate();
      Models(waiting.values, task.Value(work, device));
      waiting.Front(queue);
      ghost var q := waiting.values;
      packet := queue;
      assert packet in Ends(waiting.packets);
      queue := packet.Unlink(waiting);
      waiting := waiting.Rest();
      waiting.Front(queue);
      Parts();
      Models(q, task.Value(work, device));
    }

    /** The first part of `run`: the packet the task is run with. */
    method NextPacket() returns (packet: Packet?)
      requires Valid() && (Model().Waiting() ==> Model().queue != [])
      modifies `queue, `state, `waiting, First(waiting.packets)`owner
      ensures Valid()
      ensures if old(Model().Waiting())
              then packet != null && packet == old(queue) && packet.owner == NOWHERE && packet in all &&
                   packet.Value() == old(Model().queue[0]) && Model() == M.Taken(old(Model()))
              else packet == null && Model() == old(Model())
    {
      hide List.Chain, List.Slot, Work;
      if state == SUSPENDED_RUNNABLE {
        packet := DropFirst();
        if queue == null {
          state := RUNNING;
        } else {
          state := RUNNABLE;
        }
      } else {
        packet := null;
      }
    }

    /** Append a packet to the worklist. */
    method Append(packet: Packet)
      requires Valid() && packet.owner == NOWHERE && packet in all
      modifies `queue, `waiting, packet`link, packet`owner, Last(waiting.packets)`link
      ensures Valid() && Model() == old(Model()).(queue := old(Model()).queue + [old(packet.Value())])
    {
      hide List.Chain, List.Slot, Work, Valid, Model, Block;
      Parts();
      Separate();
      Apart(packet);
      Models(waiting.values, task.Value(work, device));
      ghost var q, v := waiting.values, packet.Value();
      assert Last(waiting.packets) <= Ends(waiting.packets);
      queue := packet.AddTo(queue, waiting);
      waiting := waiting.Plus(packet, v);
      Parts();
      Models(q, task.Value(work, device));
    }

    /** Make an empty worklist hold one packet. */
    method Begin(packet: Packet)
      requires Valid() && packet.owner == NOWHERE && packet.link == null && packet in all && Model().queue == []
      modifies `queue, `waiting, packet`owner
      ensures Valid() && Model() == old(Model()).(queue := [old(packet.Value())])
    {
      hide List.Chain, List.Slot, Work, Valid, Model, Block;
      Parts();
      Apart(packet);
      Models(waiting.values, task.Value(work, device));
      ghost var q := waiting.values;
      queue := packet;
      packet.owner := 3 * id;
      Alone(packet, all);
      waiting := List([packet], [packet.Value()], 3 * id, all);
      Parts();
      Models(q, task.Value(work, device));
    }

    /** Add a packet to the worklist and return the block of higher priority among this one, when
        its worklist was empty, and `other`. */
    method CheckPriorityAdd(other: TaskControlBlock, packet: Packet) returns (r: TaskControlBlock)
      requires Valid() && packet.owner == NOWHERE && packet.link == null && packet in all
      modifies `queue, `state, `waiting, packet`link, packet`owner, Last(waiting.packets)`link
      ensures Valid() && Model() == M.AddPacket(old(Model()), old(packet.Value()))
      ensures r == if old(Model().queue) == [] && priority > other.priority then this else other
    {
      waiting.Front(queue);
      hide List.Chain, List.Slot, Work, Block;
      if queue == null {
        Begin(packet);
        MarkAsRunnable();
        if priority > other.priority {
          return this;
        }
      } else {
        Append(packet);
      }
      return other;
    }

    /** Replace the private state of a task without lists. */
    method SetTask(task: Task)
      requires Valid() && (this.task.IdleTask? || this.task.WorkerTask?) && (task.IdleTask? || task.WorkerTask?)
      modifies `task
      ensures Valid() && Model() == old(Model()).(task := task.Value(work, device)) && this.task == task
    {
      this.task := task;
    }

    // ----- the lists of a handler

    /** File a packet in the list of work packets or of device packets. */
    method File(packet: Packet)
      requires Valid() && task.HandlerTask? && packet.owner == NOWHERE && packet in all
      modifies `task, `work, `device, packet`link, packet`owner, Last(work.packets)`link, Last(device.packets)`link
      ensures Valid() && task.HandlerTask?
      ensures work.values == M.FileWork(old(work.values), Some(old(packet.Value())))
      ensures device.values == M.FileDevice(old(device.values), Some(old(packet.Value())))
      ensures Model() == old(Model()).(task := M.Handler(M.FileWork(old(work.values), Some(old(packet.Value()))),
                                                         M.FileDevice(old(device.values), Some(old(packet.Value())))))
    {
      if packet.kind == M.WorkPacket {
        FileWork(packet);
      } else {
        FileDevice(packet);
      }
    }

    lemma HandlerParts()
      requires task.HandlerTask?
      ensures Valid() <==> Numbered() && waiting.Chain(queue) && work.Chain(task.v1) && device.Chain(task.v2)
    {
    }

    method FileWork(packet: Packet)
      requires Valid() && task.HandlerTask? && packet.owner == NOWHERE && packet in all
      modifies `task, `work, packet`link, packet`owner, Last(work.packets)`link
      ensures Valid() && task.HandlerTask?
      ensures Model() == old(Model()).(task := M.Handler(old(work.values) + [old(packet.Value())], old(device.values)))
    {
      hide List.Chain, List.Slot, Work, Valid, Model, Block;
      HandlerParts();
      Separate();
      Apart(packet);
      Models(waiting.values, task.Value(work, device));
      ghost var t, v := task.Value(work, device), packet.Value();
      assert Last(work.packets) <= Ends(work.packets);
      var v1 := packet.AddTo(task.v1, work);
      task := HandlerTask(v1, task.v2);
      work := work.Plus(packet, v);
      HandlerParts();
      Models(waiting.values, t);
    }

    method FileDevice(packet: Packet)
      requires Valid() && task.HandlerTask? && packet.owner == NOWHERE && packet in all
      modifies `task, `device, packet`link, packet`owner, Last(device.packets)`link
      ensures Valid() && task.HandlerTask?
      ensures Model() == old(Model()).(task := M.Handler(old(work.values), old(device.values) + [old(packet.Value())]))
    {
      hide List.Chain, List.Slot, Work, Valid, Model, Block;
      HandlerParts();
      Separate();
      Apart(packet);
      Models(waiting.values, task.Value(work, device));
      ghost var t, v := task.Value(work, device), packet.Value();
      assert Last(device.packets) <= Ends(device.packets);
      var v2 := packet.AddTo(task.v2, device);
      task := HandlerTask(task.v1, v2);
      device := device.Plus(packet, v);
      HandlerParts();
      Models(waiting.values, t);
    }

    /** Take the first work packet from a handler's list. */
    method TakeWork() returns (v: Packet)
      requires Valid() && task.HandlerTask? && work.values != []
      modifies `task, `work, First(work.packets)`owner
      ensures Valid() && task.HandlerTask? && v.owner == NOWHERE && v in all && v == old(task.v1)
      ensures v.Value() == old(work.values[0]) && work.values == old(work.values)[1..] && device == old(device)
      ensures Model() == old(Model()).(task := M.Handler(old(work.values)[1..], old(device.values)))
    {
      hide List.Chain, List.Slot, Work, Valid, Model, Block;
      HandlerParts();
      Separate();
      work.Front(task.v1);
      Models(waiting.values, task.Value(work, device));
      ghost var t := task.Value(work, device);
      v := task.v1;
      assert v in Ends(work.packets);
      var v1 := v.Unlink(work);
      task := HandlerTask(v1, task.v2);
      work := work.Rest();
      HandlerParts();
      Models(waiting.values, t);
    }

    /** Take the first device packet from a handler's list. */
    method TakeDevice() returns (v: Packet)
      requires Valid() && task.HandlerTask? && device.values != []
      modifies `task, `device, First(device.packets)`owner
      ensures Valid() && task.HandlerTask? && v.owner == NOWHERE && v in all && v == old(task.v2)
      ensures v.Value() == old(device.values[0]) && device.values == old(device.values)[1..] && work == old(work)
      ensures Model() == old(Model()).(task := M.Handler(old(work.values), old(device.values)[1..]))
    {
      hide List.Chain, List.Slot, Work, Valid, Model, Block;
      HandlerParts();
      Separate();
      device.Front(task.v2);
      Models(waiting.values, task.Value(work, device));
      ghost var t := task.Value(work, device);
      v := task.v2;
      assert v in Ends(device.packets);
      var v2 := v.Unlink(device);
      task := HandlerTask(task.v1, v2);
      device := device.Rest();
      HandlerParts();
      Models(waiting.values, t);
    }

    /** Count a letter of the first work packet as delivered. */
    method Deliver()
      requires Valid() && task.HandlerTask? && work.values != []
      modifies `work, First(work.packets)`a1
      ensures Valid() && task.HandlerTask?
      ensures var w := old(work.values);
              Model() == old(Model()).(task := M.Handler([w[0].(a1 := w[0].a1 + 1)] + w[1..], old(device.values)))
    {
      hide List.Chain, List.Slot, Work, Valid, Model, Block;
      HandlerParts();
      Separate();
      work.Front(task.v1);
      Models(waiting.values, task.Value(work, device));
      ghost var t, w := task.Value(work, device), work.values;
      assert task.v1 in Ends(work.packets);
      task.v1.SetFirst(task.v1.a1 + 1, work);
      work := work.(values := [w[0].(a1 := w[0].a1 + 1)] + w[1..]);
      HandlerParts();
      Models(waiting.values, t);
    }

    // ----- the slot of a device

    lemma DeviceParts()
      requires task.DeviceTask?
      ensures Valid() <==> Numbered() && waiting.Chain(queue) && work.Slot(task.slot) && device.Chain(null)
    {
    }

    lemma DeviceValue()
      requires task.DeviceTask? && work.Slot(task.slot)
      ensures task.Value(work, device) == M.Device(if task.slot == null then None else Some(task.slot.Value()))
      ensures task.slot != null ==> task.slot in all || work.all != all
      ensures task.slot != null ==> task.slot.owner == work.number && task.slot in First(work.packets)
    {
    }

    method TakeSlot() returns (v: Packet)
      requires Valid() && task.DeviceTask? && task.slot != null
      modifies `task, `work, First(work.packets)`owner
      ensures Valid() && task == DeviceTask(null) && v.owner == NOWHERE && v in all && v == old(task.slot)
      ensures old(Model()).task == M.Device(Some(v.Value())) && Model() == old(Model()).(task := M.Device(None))
    {
      hide List.Chain, List.Slot, Work, Valid, Model, Block;
      DeviceParts();
      DeviceValue();
      Separate();
      Models(waiting.values, task.Value(work, device));
      ghost var t := task.Value(work, device);
      v := task.slot;
      assert v in Ends(work.packets);
      v.owner := NOWHERE;
      task := DeviceTask(null);
      work := List([], [], 3 * id + 1, all);
      Empty(work);
      DeviceParts();
      Models(waiting.values, t);
    }

    method FillSlot(packet: Packet)
      requires Valid() && task == DeviceTask(null) && packet.owner == NOWHERE && packet in all
      modifies `task, `work, packet`owner
      ensures Valid() && task.DeviceTask?
      ensures Model() == old(Model()).(task := M.Device(Some(packet.Value())))
    {
      hide List.Chain, List.Slot, Work, Valid, Model, Block;
      DeviceParts();
      Apart(packet);
      Models(waiting.values, task.Value(work, device));
      ghost var t := task.Value(work, device);
      task := DeviceTask(packet);
      packet.owner := 3 * id + 1;
      work := List([packet], [packet.Value()], 3 * id + 1, all);
      Held(work, packet);
      DeviceParts();
      Models(waiting.values, t);
    }
  }

  lemma Empty(l: List)
    requires l.packets == [] && l.values == [] && 0 <= l.number
    ensures l.Slot(null)
  {
  }

  lemma Held(l: List, p: Packet)
    requires l == List([p], [p.Value()], p.owner, l.all) && p in l.all && 0 <= p.owner
    ensures l.Slot(p)
  {
  }

  // ----- the scheduler

  /** The position of a block in the list; -1 stands for the end of the list. */
  ghost function Index(b: TaskControlBlock?): int {
    if b == null then -1 else b.id
  }

  class Scheduler {
    var queueCount: nat
    var holdCount: nat
    var blocks: seq<TaskControlBlock>
    var list: TaskControlBlock?
    var currentTcb: TaskControlBlock?
    var currentId: int

    /** All packets of the system. */
    ghost const all: set<Packet>

    /** A scheduler of the blocks added in the order of their identifiers. */
    constructor (blocks: seq<TaskControlBlock>, ghost all: set<Packet>)
      requires blocks != []
      ensures queueCount == 0 && holdCount == 0 && currentId == -1 && this.all == all
      ensures this.blocks == blocks && list == currentTcb == blocks[|blocks| - 1]
    {
      queueCount, holdCount, currentId := 0, 0, -1;
      this.blocks, list, currentTcb := blocks, blocks[|blocks| - 1], blocks[|blocks| - 1];
      this.all := all;
    }

    /** The list of blocks runs from the highest identifier and priority down. */
    ghost predicate Linked()
      reads `blocks, `list
    {
      list == (if blocks == [] then null else blocks[|blocks| - 1]) &&
      forall i :: 0 <= i < |blocks| ==>
        blocks[i].id == i && blocks[i].priority == 1000 * i && blocks[i].all == all &&
        blocks[i].link == if i == 0 then null else blocks[i - 1]
    }

    ghost predicate Configured()
      reads `blocks, `list
    {
      |blocks| == M.NUMBER_OF_IDS && Linked()
    }

    ghost predicate Known(b: TaskControlBlock?)
      reads `blocks
    {
      b != null ==> b.id < |blocks| && b == blocks[b.id]
    }

    ghost predicate Sound()
      reads `blocks, `list, blocks, all
    {
      Configured() && forall i :: 0 <= i < |blocks| ==> blocks[i].Inside() && blocks[i].Valid()
    }

    ghost predicate Valid()
      reads `blocks, `list, `currentTcb, `currentId, blocks, all
    {
      Sound() && -1 <= currentId < M.NUMBER_OF_IDS && Known(currentTcb)
    }

    ghost function Models(): seq<M.Tcb>
      reads `blocks, blocks
    {
      if |blocks| == M.NUMBER_OF_IDS
      then [blocks[0].Model(), blocks[1].Model(), blocks[2].Model(), blocks[3].Model(), blocks[4].Model(), blocks[5].Model()]
      else []
    }

    /** The state of the whole system, the current block being `b`. */
    ghost function State(b: TaskControlBlock?): M.State
      reads `blocks, `currentId, `queueCount, `holdCount, blocks
      ensures |blocks| == M.NUMBER_OF_IDS && -1 <= currentId < M.NUMBER_OF_IDS && Known(b) ==> State(b).WF()
    {
      M.State(Models(), Index(b), currentId, queueCount, holdCount)
    }

    ghost predicate Shielded(k: nat, xs: set<Packet>)
      reads `blocks, blocks
    {
      forall j, p :: 0 <= j < |blocks| && j != k && p in xs ==> blocks[j].Without(p)
    }

    /** Packets in hand and the ends of the lists of block `k` are in no list of another block. */
    lemma Foreign(k: nat, hand: set<Packet>) returns (xs: set<Packet>)
      requires Valid() && k < |blocks| && forall p :: p in hand ==> p.owner == NOWHERE
      ensures xs == hand + blocks[k].AllEnds() && Shielded(k, xs) && blocks[k].AllEnds() <= all
    {
      hide TaskControlBlock.Valid, TaskControlBlock.Inside;
      xs := hand + blocks[k].AllEnds();
      blocks[k].EndsOwned();
      forall j, p | 0 <= j < |blocks| && j != k && p in xs ensures blocks[j].Without(p) {
        blocks[j].Apart(p);
      }
    }

    /** When block `k` and packets `xs` foreign to all other blocks have changed and block `k` is valid,
        the scheduler is valid and only the entry of `k` has changed. */
    twostate lemma OneBlock(new k: nat, new xs: set<Packet>)
      requires old(Valid()) && blocks == old(blocks) && k < |blocks| && Shielded(k, xs)
      requires list == old(list) && currentTcb == old(currentTcb) && currentId == old(currentId)
      requires forall j :: 0 <= j < |blocks| && j != k ==> blocks[j].Same()
      requires forall p :: p in all && p !in xs ==> p.Same()
      requires blocks[k].Valid()
      ensures Valid() && Models() == old(Models())[k := blocks[k].Model()]
    {
      hide TaskControlBlock.Valid, TaskControlBlock.Model, TaskControlBlock.Inside;
      blocks[k].IsInside();
      OtherBlocks(k, xs, |blocks|);
    }

    twostate lemma {:induction false} OtherBlocks(new k: nat, new xs: set<Packet>, new n: nat)
      requires old(Valid()) && blocks == old(blocks) && n <= |blocks| && Shielded(k, xs)
      requires forall j :: 0 <= j < n && j != k ==> blocks[j].Same()
      requires forall p :: p in all && p !in xs ==> p.Same()
      ensures forall j :: 0 <= j < n && j != k ==>
        blocks[j].Inside() && blocks[j].Valid() && blocks[j].Model() == old(blocks[j].Model())
    {
      hide TaskControlBlock.Valid, TaskControlBlock.Model, TaskControlBlock.Inside;
      if n > 0 {
        OtherBlocks(k, xs, n - 1);
        if n - 1 != k { blocks[n - 1].Untouched(xs); }
      }
    }

    lemma InHand(p: Packet) returns (xs: set<Packet>)
      requires Valid() && p.owner == NOWHERE
      ensures xs == {p} && Shielded(|blocks|, xs)
    {
      hide TaskControlBlock.Valid, TaskControlBlock.Inside;
      xs := {p};
      forall j | 0 <= j < |blocks| ensures blocks[j].Without(p) { blocks[j].Apart(p); }
    }

    /** When only a packet in hand has changed, nothing has changed for the blocks. */
    twostate lemma NoBlock(new xs: set<Packet>)
      requires old(Valid()) && blocks == old(blocks) && Shielded(|blocks|, xs)
      requires list == old(list) && currentTcb == old(currentTcb) && currentId == old(currentId)
      requires forall j :: 0 <= j < |blocks| ==> blocks[j].Same()
      requires forall p :: p in all && p !in xs ==> p.Same()
      ensures Valid() && Models() == old(Models())
    {
      hide TaskControlBlock.Valid, TaskControlBlock.Model, TaskControlBlock.Inside;
      OtherBlocks(|blocks|, xs, |blocks|);
    }

    lemma Basics()
      requires Valid()
      ensures Configured() && Known(currentTcb) && |blocks| == |Models()| == M.NUMBER_OF_IDS
      ensures -1 <= currentId < M.NUMBER_OF_IDS
      ensures forall k :: 0 <= k < |blocks| ==> blocks[k].Valid() && Models()[k] == blocks[k].Model()
    {
      hide TaskControlBlock.Valid, TaskControlBlock.Model, TaskControlBlock.Inside;
    }

    lemma NotData()
      ensures this as object !in all && this as object !in blocks
    {
    }

    lemma Next(b: TaskControlBlock)
      requires Configured() && Known(b)
      ensures Known(b.link) && Index(b.link) == b.id - 1 && b.id < |blocks|
    {
      assert b == blocks[b.id];
      assert 0 < b.id ==> b.link == blocks[b.id - 1];
    }

    // ----- the services of the scheduler

    method MarkCurrent()
      requires Valid() && currentTcb != null
      modifies currentTcb`state
      ensures Valid() && currentTcb.id < |old(Models())|
      ensures Models() == old(Models())[currentTcb.id := old(Models())[currentTcb.id].(held := true)]
    {
      hide TaskControlBlock.Valid, TaskControlBlock.Model, TaskControlBlock.Inside, Models, Valid;
      Basics();
      ghost var xs := Foreign(currentTcb.id, {});
      currentTcb.MarkAsHeld();
      OneBlock(currentTcb.id, xs);
    }

    method HoldCurrent() returns (r: TaskControlBlock?)
      requires Valid() && currentTcb != null
      modifies `holdCount, currentTcb`state
      ensures Valid() && Known(r) && State(r) == M.HoldCurrent(old(State(currentTcb)))
    {
      hide TaskControlBlock.Valid, TaskControlBlock.Model, TaskControlBlock.Inside, Models, Valid;
      Basics();
      NotData();
      holdCount := holdCount + 1;
      MarkCurrent();
      Basics();
      Next(currentTcb);
      r := currentTcb.link;
    }

    method SuspendCurrent() returns (r: TaskControlBlock?)
      requires Valid() && currentTcb != null
      modifies currentTcb`state
      ensures Valid() && Known(r) && State(r) == M.SuspendCurrent(old(State(currentTcb)))
    {
      hide TaskControlBlock.Valid, TaskControlBlock.Model, TaskControlBlock.Inside, Models, Valid;
      Basics();
      ghost var xs := Foreign(currentTcb.id, {});
      currentTcb.MarkAsSuspended();
      OneBlock(currentTcb.id, xs);
      r := currentTcb;
    }

    method Release(id: nat) returns (r: TaskControlBlock?)
      requires Valid() && currentTcb != null && id < M.NUMBER_OF_IDS
      modifies blocks`state
      ensures Valid() && Known(r) && State(r) == M.Release(old(State(currentTcb)), id)
    {
      hide TaskControlBlock.Valid, TaskControlBlock.Model, TaskControlBlock.Inside, Models, Valid;
      Basics();
      var tcb := blocks[id];
      ghost var xs := Foreign(id, {});
      tcb.MarkAsNotHeld();
      OneBlock(id, xs);
      if tcb.priority > currentTcb.priority {
        r := tcb;
      } else {
        r := currentTcb;
      }
    }

    /** Write the sender into a packet in hand. */
    method Address(packet: Packet)
      requires Valid() && packet.owner == NOWHERE
      modifies packet`link, packet`id
      ensures Valid() && Models() == old(Models())
      ensures packet.link == null && packet.Value() == old(packet.Value()).(id := currentId)
    {
      hide TaskControlBlock.Valid, TaskControlBlock.Model, TaskControlBlock.Inside, Models, Valid;
      ghost var xs := InHand(packet);
      packet.link := null;
      packet.id := currentId;
      NoBlock(xs);
    }

    /** Put a packet in hand into the worklist of block `k`. */
    method Send(k: nat, packet: Packet) returns (r: TaskControlBlock?)
      requires Valid() && currentTcb != null && k < |blocks|
      requires packet.owner == NOWHERE && packet in all && packet.link == null
      modifies blocks, all
      ensures Valid() && Known(r) && |Models()| == M.NUMBER_OF_IDS
      ensures Models() == old(Models())[k := M.AddPacket(old(Models())[k], old(packet.Value()))]
      ensures Index(r) == if old(Models())[k].queue == [] && k > currentTcb.id then k else currentTcb.id
    {
      hide TaskControlBlock.Valid, TaskControlBlock.Model, TaskControlBlock.Inside, Models, Valid;
      Basics();
      ghost var xs := Foreign(k, {packet});
      r := blocks[k].CheckPriorityAdd(currentTcb, packet);
      OneBlock(k, xs);
    }

    /** Send a packet to the task it names. */
    method Queue(packet: Packet) returns (r: TaskControlBlock?)
      requires Valid() && currentTcb != null && packet.owner == NOWHERE && packet in all
      modifies `queueCount, blocks, all
      ensures Valid() && Known(r) && State(r) == M.Queue(old(State(currentTcb)), old(packet.Value()))
    {
      hide TaskControlBlock.Valid, TaskControlBlock.Model, TaskControlBlock.Inside, Models, Valid;
      Basics();
      if packet.id < 0 || |blocks| <= packet.id {
        return null;
      }
      NotData();
      var k := packet.id;
      queueCount := queueCount + 1;
      Address(packet);
      Basics();
      r := Send(k, packet);
    }

    // ----- what the tasks do with their packets

    method SetA1(packet: Packet, x: int)
      requires Valid() && packet.owner == NOWHERE
      modifies packet`a1
      ensures Valid() && Models() == old(Models()) && packet.Value() == old(packet.Value()).(a1 := x)
    {
      hide TaskControlBlock.Valid, TaskControlBlock.Model, TaskControlBlock.Inside, Models, Valid;
      ghost var xs := InHand(packet);
      packet.a1 := x;
      NoBlock(xs);
    }

    /** The worker's letters, written into a packet in hand. */
    method Fill(packet: Packet, id: int, w2: int) returns (v2: int)
      requires Valid() && packet.owner == NOWHERE
      modifies packet`id, packet`a1, packet`a2
      ensures Valid() && Models() == old(Models()) && v2 == M.LettersAfter(w2, M.DATA_SIZE)
      ensures packet.Value() == old(packet.Value()).(id := id, a1 := 0, a2 := M.Overwrite(old(packet.a2), M.Letters(w2, M.DATA_SIZE)))
    {
      hide TaskControlBlock.Valid, TaskControlBlock.Model, TaskControlBlock.Inside, Models, Valid;
      ghost var xs := InHand(packet);
      v2 := packet.Fill(id, w2);
      NoBlock(xs);
    }

    /** The current task's private state, when it has no lists. */
    method SetTask(task: Task)
      requires Valid() && currentTcb != null
      requires currentTcb.task.IdleTask? || currentTcb.task.WorkerTask?
      requires task.IdleTask? || task.WorkerTask?
      modifies currentTcb`task
      ensures Valid() && State(currentTcb).Running()
      ensures State(currentTcb) == M.SetTask(old(State(currentTcb)), task.Value(currentTcb.work, currentTcb.device))
    {
      hide TaskControlBlock.Valid, TaskControlBlock.Model, TaskControlBlock.Inside, Models, Valid;
      Basics();
      ghost var xs := Foreign(currentTcb.id, {});
      currentTcb.SetTask(task);
      OneBlock(currentTcb.id, xs);
    }

    ghost predicate Holding(packet: Packet)
      reads packet
    {
      packet.owner == NOWHERE && packet in all
    }

    /** The current task in a new private state. */
    twostate predicate Now(new task: M.Task)
      reads this, blocks, all
    {
      Valid() && currentTcb == old(currentTcb) && old(State(currentTcb).Running()) &&
      State(currentTcb) == M.SetTask(old(State(currentTcb)), task)
    }

    method TakeSlot() returns (v: Packet)
      requires Valid() && currentTcb != null && currentTcb.task.DeviceTask? && currentTcb.task.slot != null
      modifies currentTcb, all
      ensures Now(M.Device(None)) && Holding(v) && currentTcb.task == DeviceTask(null)
      ensures old(State(currentTcb)).tcbs[currentTcb.id].task == M.Device(Some(v.Value()))
    {
      hide TaskControlBlock.Valid, TaskControlBlock.Model, TaskControlBlock.Inside, Models, Valid;
      Basics();
      ghost var xs := Foreign(currentTcb.id, {});
      v := currentTcb.TakeSlot();
      OneBlock(currentTcb.id, xs);
    }

    method FillSlot(packet: Packet)
      requires Valid() && currentTcb != null && currentTcb.task == DeviceTask(null) && Holding(packet)
      modifies currentTcb, all
      ensures Now(M.Device(Some(old(packet.Value()))))
    {
      hide TaskControlBlock.Valid, TaskControlBlock.Model, TaskControlBlock.Inside, Models, Valid;
      Basics();
      ghost var xs := Foreign(currentTcb.id, {packet});
      currentTcb.FillSlot(packet);
      OneBlock(currentTcb.id, xs);
    }

    /** The lists of the current task, a handler. */
    ghost predicate Lists(work: seq<M.Packet>, device: seq<M.Packet>)
      reads this, currentTcb
    {
      currentTcb != null && currentTcb.task.HandlerTask? && currentTcb.work.values == work && currentTcb.device.values == device
    }

    method File(packet: Packet, ghost work: seq<M.Packet>, ghost device: seq<M.Packet>)
      requires Valid() && Lists(work, device) && Holding(packet)
      modifies currentTcb, all
      ensures var p := Some(old(packet.Value()));
              Now(M.Handler(M.FileWork(work, p), M.FileDevice(device, p))) &&
              Lists(M.FileWork(work, p), M.FileDevice(device, p))
    {
      hide TaskControlBlock.Valid, TaskControlBlock.Model, TaskControlBlock.Inside, Models, Valid;
      Basics();
      ghost var xs := Foreign(currentTcb.id, {packet});
      currentTcb.File(packet);
      OneBlock(currentTcb.id, xs);
    }

    method TakeWork(ghost work: seq<M.Packet>, ghost device: seq<M.Packet>) returns (v: Packet)
      requires Valid() && Lists(work, device) && work != []
      modifies currentTcb, all
      ensures Now(M.Handler(work[1..], device)) && Lists(work[1..], device) && Holding(v) && v.Value() == work[0]
    {
      hide TaskControlBlock.Valid, TaskControlBlock.Model, TaskControlBlock.Inside, Models, Valid;
      Basics();
      ghost var xs := Foreign(currentTcb.id, {});
      v := currentTcb.TakeWork();
      OneBlock(currentTcb.id, xs);
    }

    method TakeDevice(ghost work: seq<M.Packet>, ghost device: seq<M.Packet>) returns (v: Packet)
      requires Valid() && Lists(work, device) && device != []
      modifies currentTcb, all
      ensures Now(M.Handler(work, device[1..])) && Lists(work, device[1..]) && Holding(v) && v.Value() == device[0]
    {
      hide TaskControlBlock.Valid, TaskControlBlock.Model, TaskControlBlock.Inside, Models, Valid;
      Basics();
      ghost var xs := Foreign(currentTcb.id, {});
      v := currentTcb.TakeDevice();
      OneBlock(currentTcb.id, xs);
    }

    method Deliver(ghost work: seq<M.Packet>, ghost device: seq<M.Packet>, ghost hand: Packet)
      requires Valid() && Lists(work, device) && work != [] && Holding(hand)
      modifies currentTcb, all
      ensures Now(M.Handler([work[0].(a1 := work[0].a1 + 1)] + work[1..], device))
      ensures Holding(hand) && hand.Value() == old(hand.Value())
    {
      hide TaskControlBlock.Valid, TaskControlBlock.Model, TaskControlBlock.Inside, Models, Valid;
      Basics();
      ghost var xs := Foreign(currentTcb.id, {});
      currentTcb.Apart(hand);
      currentTcb.Deliver();
      OneBlock(currentTcb.id, xs);
    }

    method NextPacket(ghost r: M.Rules) returns (packet: Packet?)
      requires Valid() && currentTcb != null
      requires M.TcbOk(r, currentTcb.id, State(currentTcb).tcbs[currentTcb.id])
      modifies currentTcb, all
      ensures Valid() && currentTcb == old(currentTcb) && currentTcb.task == old(currentTcb.task)
      ensures var s, t := old(State(currentTcb)), old(State(currentTcb)).tcbs[currentTcb.id];
              if t.Waiting() then packet != null && Holding(packet) && packet.Value() == t.queue[0] &&
                                  State(currentTcb) == s.Put(currentTcb.id, M.Taken(t))
              else packet == null && State(currentTcb) == s
    {
      hide TaskControlBlock.Valid, TaskControlBlock.Model, TaskControlBlock.Inside, Models, Valid;
      Basics();
      ghost var xs := Foreign(currentTcb.id, {});
      packet := currentTcb.NextPacket();
      OneBlock(currentTcb.id, xs);
    }

    // ----- the tasks

    /** What the current task's private state is in the model. */
    lemma Stage()
      requires Valid() && currentTcb != null
      ensures State(currentTcb).Running() && currentTcb in blocks
      ensures State(currentTcb).tcbs[currentTcb.id].task == currentTcb.task.Value(currentTcb.work, currentTcb.device)
      ensures currentTcb.task.DeviceTask? ==>
        currentTcb.task.Value(currentTcb.work, currentTcb.device) ==
        M.Device(if currentTcb.task.slot == null then None else Some(currentTcb.task.slot.Value()))
    {
      hide TaskControlBlock.Inside;
      Basics();
      if currentTcb.task.DeviceTask? { currentTcb.DeviceValue(); }
    }

    method RunIdle() returns (r: TaskControlBlock?)
      requires Valid() && currentTcb != null && currentTcb.task.IdleTask?
      modifies `queueCount, `holdCount, blocks, all
      ensures Valid() && Known(r) && State(r) == M.RunTask(old(State(currentTcb)), None)
      ensures currentTcb == old(currentTcb)
    {
      hide TaskControlBlock.Valid, TaskControlBlock.Model, TaskControlBlock.Inside, Models, Valid;
      Stage();
      var seed, count := currentTcb.task.seed, currentTcb.task.count - 1;
      if count == 0 {
        SetTask(IdleTask(seed, count));
        r := HoldCurrent();
      } else if seed % 2 == 0 {
        SetTask(IdleTask(seed / 2, count));
        r := Release(M.ID_DEVICE_A);
      } else {
        SetTask(IdleTask(M.Xor(seed / 2, 0xd008), count));
        r := Release(M.ID_DEVICE_B);
      }
    }

    method RunDevice(packet: Packet?) returns (r: TaskControlBlock?)
      requires Valid() && currentTcb != null && currentTcb.task.DeviceTask?
      requires packet != null ==> Holding(packet) && currentTcb.task.slot == null
      modifies `queueCount, `holdCount, blocks, all
      ensures Valid() && Known(r) && currentTcb == old(currentTcb)
      ensures State(r) == M.RunTask(old(State(currentTcb)), if packet == null then None else Some(old(packet.Value())))
    {
      hide TaskControlBlock.Valid, TaskControlBlock.Model, TaskControlBlock.Inside, Models, Valid;
      Stage();
      if packet == null {
        if currentTcb.task.slot == null {
          r := SuspendCurrent();
        } else {
          var v := TakeSlot();
          r := Queue(v);
        }
      } else {
        FillSlot(packet);
        r := HoldCurrent();
      }
    }

    method RunWorker(packet: Packet?) returns (r: TaskControlBlock?)
      requires Valid() && currentTcb != null && currentTcb.task.WorkerTask?
      requires packet != null ==> Holding(packet)
      modifies `queueCount, `holdCount, blocks, all
      ensures Valid() && Known(r) && currentTcb == old(currentTcb)
      ensures State(r) == M.RunTask(old(State(currentTcb)), if packet == null then None else Some(old(packet.Value())))
    {
      hide TaskControlBlock.Valid, TaskControlBlock.Model, TaskControlBlock.Inside, Models, Valid;
      Stage();
      if packet == null {
        r := SuspendCurrent();
      } else {
        var w1 := if currentTcb.task.w1 == M.ID_HANDLER_A then M.ID_HANDLER_B else M.ID_HANDLER_A;
        var w2 := Fill(packet, w1, currentTcb.task.w2);
        SetTask(WorkerTask(w1, w2));
        r := Queue(packet);
      }
    }

    /** The second part of a handler's run: pass a letter on, return a finished packet, or wait. */
    method PassOn(ghost work: seq<M.Packet>, ghost device: seq<M.Packet>) returns (r: TaskControlBlock?)
      requires Valid() && Lists(work, device)
      modifies `queueCount, `holdCount, blocks, all
      ensures Valid() && Known(r) && currentTcb == old(currentTcb)
      ensures State(r) == M.RunHandler(old(State(currentTcb)), work, device, None)
    {
      hide TaskControlBlock.Valid, TaskControlBlock.Model, TaskControlBlock.Inside, Models, Valid;
      Stage();
      Heads();
      var t := currentTcb.task;
      if t.v1 != null {
        var count := t.v1.a1;
        if count < M.DATA_SIZE {
          if t.v2 != null {
            var letter := if 0 <= count < |t.v1.a2| then t.v1.a2[count] else 0;
            r := PassLetter(letter, work, device);
            return;
          }
        } else {
          var v := TakeWork(work, device);
          r := Queue(v);
          return;
        }
      }
      r := SuspendCurrent();
    }

    lemma Heads()
      requires Valid() && currentTcb != null && currentTcb.task.HandlerTask?
      ensures var t, w, d := currentTcb.task, currentTcb.work.values, currentTcb.device.values;
              (t.v1 == null <==> w == []) && (t.v2 == null <==> d == []) &&
              (t.v1 != null ==> t.v1.a1 == w[0].a1 && t.v1.a2 == w[0].a2)
    {
      hide List.Chain, List.Slot;
      currentTcb.work.Front(currentTcb.task.v1);
      currentTcb.device.Front(currentTcb.task.v2);
    }

    /** Take a device packet and write a letter of the first work packet into it. */
    method WriteLetter(letter: int, ghost work: seq<M.Packet>, ghost device: seq<M.Packet>) returns (v: Packet)
      requires Valid() && Lists(work, device) && work != [] && device != []
      modifies currentTcb, all
      ensures Now(M.Handler([work[0].(a1 := work[0].a1 + 1)] + work[1..], device[1..]))
      ensures Holding(v) && v.Value() == device[0].(a1 := letter)
    {
      hide TaskControlBlock.Valid, TaskControlBlock.Model, TaskControlBlock.Inside, Models, Valid, M.SetTask;
      Stage();
      ghost var s := State(currentTcb);
      v := TakeDevice(work, device);
      SetA1(v, letter);
      Deliver(work, device[1..], v);
      SetTwice(s, M.Handler(work, device[1..]), M.Handler([work[0].(a1 := work[0].a1 + 1)] + work[1..], device[1..]));
    }

    method PassLetter(letter: int, ghost work: seq<M.Packet>, ghost device: seq<M.Packet>) returns (r: TaskControlBlock?)
      requires Valid() && Lists(work, device) && work != [] && device != []
      modifies `queueCount, `holdCount, blocks, all
      ensures Valid() && Known(r) && currentTcb == old(currentTcb) && old(State(currentTcb)).Running()
      ensures State(r) == M.Queue(M.SetTask(old(State(currentTcb)), M.Handler([work[0].(a1 := work[0].a1 + 1)] + work[1..], device[1..])),
                                  device[0].(a1 := letter))
    {
      hide TaskControlBlock.Valid, TaskControlBlock.Model, TaskControlBlock.Inside, Models, Valid, M.SetTask, M.Queue;
      Stage();
      var v := WriteLetter(letter, work, device);
      r := Queue(v);
    }

    method RunHandler(packet: Packet?) returns (r: TaskControlBlock?)
      requires Valid() && currentTcb != null && currentTcb.task.HandlerTask?
      requires packet != null ==> Holding(packet)
      modifies `queueCount, `holdCount, blocks, all
      ensures Valid() && Known(r) && currentTcb == old(currentTcb)
      ensures State(r) == M.RunTask(old(State(currentTcb)), if packet == null then None else Some(old(packet.Value())))
    {
      hide TaskControlBlock.Valid, TaskControlBlock.Model, TaskControlBlock.Inside, Models, Valid, M.RunHandler;
      Stage();
      ghost var work, device := currentTcb.work.values, currentTcb.device.values;
      if packet != null {
        ghost var p, s := Some(packet.Value()), State(currentTcb);
        File(packet, work, device);
        FiledFirst(s, work, device, p);
        r := PassOn(M.FileWork(work, p), M.FileDevice(device, p));
      } else {
        r := PassOn(work, device);
      }
    }

    method RunTask(packet: Packet?) returns (r: TaskControlBlock?)
      requires Valid() && currentTcb != null && (packet != null ==> Holding(packet))
      requires packet != null && currentTcb.task.DeviceTask? ==> currentTcb.task.slot == null
      requires currentTcb.task.IdleTask? ==> packet == null
      modifies `queueCount, `holdCount, blocks, all
      ensures Valid() && Known(r) && currentTcb == old(currentTcb)
      ensures State(r) == M.RunTask(old(State(currentTcb)), if packet == null then None else Some(old(packet.Value())))
    {
      hide TaskControlBlock.Valid, TaskControlBlock.Model, TaskControlBlock.Inside, Models, Valid, M.RunTask;
      Stage();
      match currentTcb.task
      case IdleTask(_, _) => r := RunIdle();
      case WorkerTask(_, _) => r := RunWorker(packet);
      case HandlerTask(_, _) => r := RunHandler(packet);
      case DeviceTask(_) => r := RunDevice(packet);
    }

    /** Run the current task, which is ready, and return the block to go on with. */
    method Run(ghost rules: M.Rules) returns (r: TaskControlBlock?)
      requires Valid() && currentTcb != null && currentId == currentTcb.id && M.Inv(rules, State(currentTcb))
      requires !State(currentTcb).tcbs[currentTcb.id].HeldOrSuspended()
      modifies `queueCount, `holdCount, blocks, all
      ensures Valid() && Known(r) && State(r) == M.Step(old(State(currentTcb)))
    {
      hide TaskControlBlock.Valid, TaskControlBlock.Model, TaskControlBlock.Inside, Models, Valid, M.RunTask, M.Step;
      Stage();
      ghost var s := State(currentTcb);
      ghost var t := s.tcbs[s.cur];
      assert M.TcbOk(rules, s.cur, t);
      RunStep(rules, s);
      var packet := NextPacket(rules);
      Stage();
      r := RunTask(packet);
    }

    /** One iteration of the schedule. */
    method Iterate(ghost rules: M.Rules)
      requires Valid() && currentTcb != null && M.Inv(rules, State(currentTcb))
      modifies `queueCount, `holdCount, `currentTcb, `currentId, blocks, all
      ensures Valid() && State(currentTcb) == M.Step(old(State(currentTcb)))
    {
      hide TaskControlBlock.Valid, TaskControlBlock.Model, TaskControlBlock.Inside, Models, Sound, M.RunTask, M.Inv, M.TcbsOk, M.HighestReady, M.Taken;
      Stage();
      Basics();
      Next(currentTcb);
      NotData();
      var idle := currentTcb.IsHeldOrSuspended();
      if idle {
        currentTcb := currentTcb.link;
      } else {
        SameInv(rules, State(currentTcb), currentTcb.id);
        currentId := currentTcb.id;
        var next := Run(rules);
        NotData();
        currentTcb := next;
      }
    }

    lemma Start(rules: M.Rules)
      requires Valid() && M.TcbsOk(rules, State(list))
      ensures M.Inv(rules, State(list)) && Known(list)
    {
      hide TaskControlBlock.Valid, TaskControlBlock.Model, TaskControlBlock.Inside, Models;
      assert list == blocks[5];
    }

    lemma End()
      requires Valid()
      ensures State(null).cur == -1
    {
    }

    /** Run the tasks until none is ready. */
    method Schedule(ghost rules: M.Rules)
      requires Valid() && M.TcbsOk(rules, State(list)) && M.Finite(State(list)) && !rules.mode.Any?
      modifies `queueCount, `holdCount, `currentTcb, `currentId, blocks, all
      ensures Valid() && currentTcb == null && M.Inv(rules, old(State(list))) && State(null) == M.Run(rules, old(State(list)))
      ensures rules.known ==> forall i :: 0 <= i < M.NUMBER_OF_IDS ==> State(null).tcbs[i].HeldOrSuspended()
      ensures rules.known ==> forall uid :: M.Everywhere(State(null), uid) == M.Everywhere(old(State(list)), uid)
    {
      hide TaskControlBlock.Valid, TaskControlBlock.Model, TaskControlBlock.Inside, Models, Sound, State, M.Step, M.Inv;
      Basics();
      Start(rules);
      NotData();
      ghost var s0 := State(list);
      currentTcb := list;
      ghost var s := s0;
      while currentTcb != null
        invariant Valid() && s == State(currentTcb) && M.Inv(rules, s) && M.Finite(s) && M.Run(rules, s) == M.Run(rules, s0)
        decreases M.Count(s), M.LoadOf(rules.mode, s.tcbs).ready, M.LoadOf(rules.mode, s.tcbs).toSend, M.LoadOf(rules.mode, s.tcbs).toWorker,
                  M.LoadOf(rules.mode, s.tcbs).waiting, M.LoadOf(rules.mode, s.tcbs).awake, s.cur
      {
        Stage();
        M.StepKeeps(rules, s);
        Iterate(rules);
        s := M.Step(s);
      }
      End();
      forall uid | rules.known ensures M.Everywhere(s, uid) == M.Everywhere(s0, uid) {
        M.RunEnds(rules, s0, uid);
      }
      M.RunEnds(rules, s0, 0);
    }
  }

  /** An iteration that runs a task, in terms of the packet the task is given. */
  lemma RunStep(rules: M.Rules, s: M.State)
    requires M.Inv(rules, s) && s.Running() && s.currentId == s.cur && !s.tcbs[s.cur].HeldOrSuspended()
    ensures var t := s.tcbs[s.cur];
            M.Step(s) == if t.Waiting() then M.RunTask(s.Put(s.cur, M.Taken(t)), Some(t.queue[0])) else M.RunTask(s, None)
    ensures s.tcbs[s.cur].task.Idle? ==> !s.tcbs[s.cur].Waiting()
    ensures s.tcbs[s.cur].task.Device? && s.tcbs[s.cur].Waiting() ==> s.tcbs[s.cur].task.slot.None?
  {
    hide M.RunTask;
    assert M.TcbOk(rules, s.cur, s.tcbs[s.cur]);
    assert s == s.(currentId := s.cur);
  }

  lemma SameInv(rules: M.Rules, s: M.State, id: int)
    requires M.Inv(rules, s) && 0 <= id < M.NUMBER_OF_IDS
    ensures M.Inv(rules, s.(currentId := id))
  {
  }

  lemma SetTwice(s: M.State, a: M.Task, b: M.Task)
    requires s.Running()
    ensures M.SetTask(s, a).Running() && M.SetTask(M.SetTask(s, a), b) == M.SetTask(s, b)
  {
  }

  /** A handler that has filed its packet goes on as if it had been run without one. */
  lemma FiledFirst(s: M.State, work: seq<M.Packet>, device: seq<M.Packet>, p: Option<M.Packet>)
    requires s.Running()
    ensures var w, d := M.FileWork(work, p), M.FileDevice(device, p);
            M.SetTask(s, M.Handler(w, d)).Running() &&
            M.RunHandler(M.SetTask(s, M.Handler(w, d)), w, d, None) == M.RunHandler(s, work, device, p)
  {
    hide M.SetTask, M.Queue, M.SuspendCurrent;
    var w, d := M.FileWork(work, p), M.FileDevice(device, p);
    if w != [] && w[0].a1 < M.DATA_SIZE && d != [] {
      SetTwice(s, M.Handler(w, d), M.Handler([w[0].(a1 := w[0].a1 + 1)] + w[1..], d[1..]));
    } else if w != [] && w[0].a1 >= M.DATA_SIZE {
      SetTwice(s, M.Handler(w, d), M.Handler(w[1..], d));
    }
    SetTwice(s, M.Handler(w, d), M.Handler(w, d));
  }
}
