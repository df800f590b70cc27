/** Traces of the traffic generator.

A generator issues operations: unicast reads and writes, broadcast reads and
computations.  Each one appends records to the trace and moves the address cursor
of the tensor it touches.  This module defines the trace of a sequence of
operations and proves what holds of every such trace.
*/
module TrafficTrace {
  import opened Collections

  datatype RequestType = READ | WRITE | COMPUTE | SYNC

  datatype TrafficType = UNICAST | MULTICAST | BROADCAST

  /** A tensor of the operator: its j-th input or its output. */
  datatype Slot = In(j: nat) | Out

  /** What a record is issued for.  This is a note of the model: it is not part of the written trace. */
  datatype Origin = For(slot: Slot) | Work

  datatype Traffic = Traffic(kind: RequestType, src: (int, int), dest: (int, int), addr: int, size: int,
                             request: TrafficType, response: TrafficType, origin: Origin)

  datatype Op = Read(slot: Slot, size: nat, n: nat) | Write(slot: Slot, size: nat, n: nat)
              | Broadcast(slot: Slot, size: nat) | Compute(n: nat)

  /** The number of processing elements, and the global address that computations are labelled with. */
  datatype Machine = Machine(numPE: nat, addr: int)

  // ----- the trace of a sequence of operations -----

  function Unicast(kind: RequestType, slot: Slot, pe: int, addr: int, size: int): Traffic {
    Traffic(kind, (0, pe), (1, 0), addr, size, UNICAST, UNICAST, For(slot))
  }

  function Burst(kind: RequestType, slot: Slot, base: int, size: int, n: nat): seq<Traffic> {
    if n == 0 then [] else
      Burst(kind, slot, base, size, n - 1) + [Unicast(kind, slot, n - 1, base + (n - 1) * size, size)]
  }

  function Syncs(slot: Slot, n: nat): seq<Traffic> {
    if n <= 1 then [] else Syncs(slot, n - 1) + [Unicast(SYNC, slot, n - 1, 0, 0)]
  }

  function Works(addr: int, n: nat): seq<Traffic> {
    if n == 0 then [] else
      Works(addr, n - 1) + [Traffic(COMPUTE, (0, n - 1), (1, 0), addr, 0, UNICAST, UNICAST, Work)]
  }

  /** The records of one operation whose tensor's cursor is at `base`. */
  function Emit(m: Machine, op: Op, base: int): seq<Traffic> {
    match op
    case Read(slot, size, n) => Burst(READ, slot, base, size, n)
    case Write(slot, size, n) => Burst(WRITE, slot, base, size, n)
    case Broadcast(slot, size) =>
      [Unicast(READ, slot, 0, base, size).(response := BROADCAST)] + Syncs(slot, m.numPE)
    case Compute(n) => Works(m.addr, n)
  }

  /** How far one operation moves the cursor of `slot`. */
  function Step(op: Op, slot: Slot): int {
    if op.Compute? || op.slot != slot then 0
    else if op.Broadcast? then op.size else op.n * op.size
  }

  function Moved(ops: seq<Op>, slot: Slot): int {
    if ops == [] then 0 else Moved(ops[..|ops| - 1], slot) + Step(ops[|ops| - 1], slot)
  }

  type Start = Slot -> int

  function Base(op: Op, ops: seq<Op>, start: Start): int {
    if op.Compute? then 0 else start(op.slot) + Moved(ops, op.slot)
  }

  function Trace(m: Machine, ops: seq<Op>, start: Start): seq<Traffic> {
    if ops == [] then [] else
      var k := |ops| - 1;
      Trace(m, ops[..k], start) + Emit(m, ops[k], Base(ops[k], ops[..k], start))
  }

  lemma {:induction false} TraceAppend(m: Machine, ops: seq<Op>, op: Op, start: Start)
    ensures Trace(m, ops + [op], start) == Trace(m, ops, start) + Emit(m, op, Base(op, ops, start))
  {
    assert (ops + [op])[..|ops|] == ops;
  }

  lemma {:induction false} MovedAppend(ops: seq<Op>, op: Op, slot: Slot)
    ensures Moved(ops + [op], slot) == Moved(ops, slot) + Step(op, slot)
  {
    assert (ops + [op])[..|ops|] == ops;
  }

  // ----- what the records of one operation look like -----

  lemma {:induction false} BurstShape(kind: RequestType, slot: Slot, base: int, size: int, n: nat)
    ensures |Burst(kind, slot, base, size, n)| == n
    ensures forall i :: 0 <= i < n ==>
              Burst(kind, slot, base, size, n)[i] == Unicast(kind, slot, i, base + i * size, size)
  {
    if n > 0 {
      BurstShape(kind, slot, base, size, n - 1);
    }
  }

  lemma {:induction false} SyncsShape(slot: Slot, n: nat)
    ensures |Syncs(slot, n)| == if n == 0 then 0 else n - 1
    ensures forall i :: 0 <= i < n - 1 ==> Syncs(slot, n)[i] == Unicast(SYNC, slot, i + 1, 0, 0)
  {
    if n > 1 {
      SyncsShape(slot, n - 1);
    }
  }

  lemma {:induction false} WorksShape(addr: int, n: nat)
    ensures |Works(addr, n)| == n
    ensures forall i :: 0 <= i < n ==>
              Works(addr, n)[i] == Traffic(COMPUTE, (0, i), (1, 0), addr, 0, UNICAST, UNICAST, Work)
  {
    if n > 0 {
      WorksShape(addr, n - 1);
    }
  }

  /** The records of each operation, field by field. */
  lemma {:induction false} EmitRecords(m: Machine, op: Op, base: int, i: nat)
    ensures var e := Emit(m, op, base);
            match op
            case Read(slot, size, n) =>
              && |e| == n
              && (i < n ==> e[i] == Traffic(READ, (0, i), (1, 0), base + i * size, size, UNICAST, UNICAST, For(slot)))
            case Write(slot, size, n) =>
              && |e| == n
              && (i < n ==> e[i] == Traffic(WRITE, (0, i), (1, 0), base + i * size, size, UNICAST, UNICAST, For(slot)))
            case Broadcast(slot, size) =>
              && |e| == (if m.numPE == 0 then 1 else m.numPE)
              && e[0] == Traffic(READ, (0, 0), (1, 0), base, size, UNICAST, BROADCAST, For(slot))
              && (0 < i < m.numPE ==> e[i] == Traffic(SYNC, (0, i), (1, 0), 0, 0, UNICAST, UNICAST, For(slot)))
            case Compute(n) =>
              && |e| == n
              && (i < n ==> e[i] == Traffic(COMPUTE, (0, i), (1, 0), m.addr, 0, UNICAST, UNICAST, Work))
  {
    match op
    case Read(slot, size, n) => BurstShape(READ, slot, base, size, n);
    case Write(slot, size, n) => BurstShape(WRITE, slot, base, size, n);
    case Broadcast(slot, size) => SyncsShape(slot, m.numPE);
    case Compute(n) => WorksShape(m.addr, n);
  }

  function OriginOf(op: Op): Origin {
    if op.Compute? then Work else For(op.slot)
  }

  lemma {:induction false} EmitOrigin(m: Machine, op: Op, base: int)
    ensures forall i :: 0 <= i < |Emit(m, op, base)| ==> Emit(m, op, base)[i].origin == OriginOf(op)
  {
    match op
    case Read(slot, size, n) => BurstShape(READ, slot, base, size, n);
    case Write(slot, size, n) => BurstShape(WRITE, slot, base, size, n);
    case Broadcast(slot, size) => SyncsShape(slot, m.numPE);
    case Compute(n) => WorksShape(m.addr, n);
  }

  // ----- erasing tensors -----

  /** Records for the first two inputs and the output, and computations; the other inputs are the bias and
      the batch normalisation parameters. */
  predicate Essential(o: Origin) {
    o.Work? || o.slot.Out? || o.slot.j < 2
  }

  function IsEssential(): Traffic -> bool {
    (t: Traffic) => Essential(t.origin)
  }

  function EssentialOp(): Op -> bool {
    (op: Op) => Essential(OriginOf(op))
  }

  function EssentialOps(ops: seq<Op>): seq<Op> {
    Keep(EssentialOp(), ops)
  }

  lemma {:induction false} EssentialMoved(ops: seq<Op>, slot: Slot)
    requires Essential(For(slot))
    ensures Moved(EssentialOps(ops), slot) == Moved(ops, slot)
  {
    if ops != [] {
      var k := |ops| - 1;
      EssentialMoved(ops[..k], slot);
      EssentialMovedStep(ops[..k], ops[k], slot);
      SplitLast(ops);
    }
  }

  lemma {:induction false} EssentialMovedStep(ops: seq<Op>, op: Op, slot: Slot)
    requires Essential(For(slot)) && Moved(EssentialOps(ops), slot) == Moved(ops, slot)
    ensures Moved(EssentialOps(ops + [op]), slot) == Moved(ops + [op], slot)
  {
    KeepAppend(EssentialOp(), ops, op);
    MovedAppend(ops, op, slot);
    if Essential(OriginOf(op)) {
      MovedAppend(EssentialOps(ops), op, slot);
    } else {
      assert EssentialOps(ops) + [] == EssentialOps(ops);
    }
  }

  ghost predicate AgreeOnEssential(start: Start, start': Start) {
    forall slot :: Essential(For(slot)) ==> start(slot) == start'(slot)
  }

  /** Erasing the records of the other tensors leaves exactly the trace of the other operations: the cursors
      of different tensors never influence each other. */
  lemma {:induction false} EraseTrace(m: Machine, ops: seq<Op>, start: Start, start': Start)
    requires AgreeOnEssential(start, start')
    ensures Keep(IsEssential(), Trace(m, ops, start)) == Trace(m, EssentialOps(ops), start')
  {
    if ops != [] {
      var k := |ops| - 1;
      var op, base, e := ops[k], Base(ops[k], ops[..k], start), EssentialOps(ops[..k]);
      EraseTrace(m, ops[..k], start, start');
      KeepConcat(IsEssential(), Trace(m, ops[..k], start), Emit(m, op, base));
      EmitOrigin(m, op, base);
      if Essential(OriginOf(op)) {
        KeepAll(IsEssential(), Emit(m, op, base));
        TraceAppend(m, e, op, start');
        SameBase(ops[..k], op, start, start');
      } else {
        KeepNone(IsEssential(), Emit(m, op, base));
        assert e + [] == e && Trace(m, e, start') + [] == Trace(m, e, start');
      }
    }
  }

  lemma {:induction false} SameBase(ops: seq<Op>, op: Op, start: Start, start': Start)
    requires AgreeOnEssential(start, start') && Essential(OriginOf(op))
    ensures Base(op, EssentialOps(ops), start') == Base(op, ops, start)
  {
    if !op.Compute? {
      EssentialMoved(ops, op.slot);
    }
  }

  // ----- every record starts where the previous one for its tensor ended -----

  predicate IsData(t: Traffic) {
    t.kind == READ || t.kind == WRITE
  }

  function DataFor(slot: Slot): Traffic -> bool {
    (t: Traffic) => IsData(t) && t.origin == For(slot)
  }

  /** The records of `s` are laid out end to end from `a` to `b`. */
  ghost predicate EndToEnd(s: seq<Traffic>, a: int, b: int) {
    if s == [] then a == b else
      var last := s[|s| - 1];
      last.addr + last.size == b && EndToEnd(s[..|s| - 1], a, last.addr)
  }

  lemma {:induction false} EndToEndConcat(s: seq<Traffic>, t: seq<Traffic>, a: int, b: int, c: int)
    requires EndToEnd(s, a, b) && EndToEnd(t, b, c)
    ensures EndToEnd(s + t, a, c)
  {
    if t == [] {
      assert s + t == s;
    } else {
      var k := |t| - 1;
      EndToEndConcat(s, t[..k], a, b, t[k].addr);
      assert (s + t)[..|s| + k] == s + t[..k];
    }
  }

  lemma {:induction false} BurstEndToEnd(kind: RequestType, slot: Slot, base: int, size: int, n: nat)
    ensures EndToEnd(Burst(kind, slot, base, size, n), base, base + n * size)
  {
    if n > 0 {
      BurstEndToEnd(kind, slot, base, size, n - 1);
      var b := Burst(kind, slot, base, size, n);
      assert b[..|b| - 1] == Burst(kind, slot, base, size, n - 1);
    }
  }

  /** Of a broadcast only the first record transfers data. */
  lemma {:induction false} BroadcastData(m: Machine, slot: Slot, size: nat, base: int)
    ensures Keep(DataFor(slot), Emit(m, Broadcast(slot, size), base))
            == [Unicast(READ, slot, 0, base, size).(response := BROADCAST)]
  {
    var first := [Unicast(READ, slot, 0, base, size).(response := BROADCAST)];
    SyncsShape(slot, m.numPE);
    KeepConcat(DataFor(slot), first, Syncs(slot, m.numPE));
    KeepNone(DataFor(slot), Syncs(slot, m.numPE));
    KeepAll(DataFor(slot), first);
  }

  lemma {:induction false} EmitEndToEnd(m: Machine, op: Op, base: int, slot: Slot)
    ensures OriginOf(op) == For(slot) ==>
              EndToEnd(Keep(DataFor(slot), Emit(m, op, base)), base, base + Step(op, slot))
    ensures OriginOf(op) != For(slot) ==> Keep(DataFor(slot), Emit(m, op, base)) == []
  {
    if OriginOf(op) != For(slot) {
      EmitOrigin(m, op, base);
      KeepNone(DataFor(slot), Emit(m, op, base));
    } else if op.Broadcast? {
      BroadcastData(m, slot, op.size, base);
      assert Keep(DataFor(slot), Emit(m, op, base))[..0] == [];
    } else {
      var kind := if op.Read? then READ else WRITE;
      BurstShape(kind, slot, base, op.size, op.n);
      BurstEndToEnd(kind, slot, base, op.size, op.n);
      KeepAll(DataFor(slot), Emit(m, op, base));
    }
  }

  /** In every trace, and for every tensor, each record starts where the previous record for that tensor
      ended; the first starts at the tensor's address and the last ends at its final cursor. */
  lemma {:induction false} TraceEndToEnd(m: Machine, ops: seq<Op>, start: Start, slot: Slot)
    ensures EndToEnd(Keep(DataFor(slot), Trace(m, ops, start)), start(slot), start(slot) + Moved(ops, slot))
  {
    if ops != [] {
      var init, op := ops[..|ops| - 1], ops[|ops| - 1];
      TraceEndToEnd(m, init, start, slot);
      EndToEndStep(m, Trace(m, init, start), op, Base(op, init, start), slot, start(slot),
                   start(slot) + Moved(init, slot));
    }
  }

  lemma {:induction false} EndToEndStep(m: Machine, t: seq<Traffic>, op: Op, base: int, slot: Slot, a: int, b: int)
    requires EndToEnd(Keep(DataFor(slot), t), a, b) && (OriginOf(op) == For(slot) ==> base == b)
    ensures EndToEnd(Keep(DataFor(slot), t + Emit(m, op, base)), a, b + Step(op, slot))
  {
    var done, more := Keep(DataFor(slot), t), Keep(DataFor(slot), Emit(m, op, base));
    KeepConcat(DataFor(slot), t, Emit(m, op, base));
    EmitEndToEnd(m, op, base, slot);
    if OriginOf(op) == For(slot) {
      EndToEndConcat(done, more, a, base, base + Step(op, slot));
    } else {
      assert done + more == done;
    }
  }
}
