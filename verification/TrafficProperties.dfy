/** Properties of every trace: which processing elements appear in it, how synchronisation keeps up with
    broadcasts, how much work it holds and which tiles it covers. */
module TrafficProperties {
  import opened Collections
  import opened TrafficTrace

  /** Every operation of `ops` satisfies `p`. */
  ghost predicate All(p: Op -> bool, ops: seq<Op>) {
    forall i :: 0 <= i < |ops| ==> p(ops[i])
  }

  // ----- processing elements -----

  /** The operation addresses no more than `n` processing elements. */
  function FitsOn(n: nat): Op -> bool {
    (op: Op) => op.Broadcast? || op.n <= n
  }

  ghost predicate OnMachine(m: Machine, t: seq<Traffic>) {
    forall i :: 0 <= i < |t| ==> t[i].src.0 == 0 && 0 <= t[i].src.1 < m.numPE && t[i].dest == (1, 0)
  }

  lemma {:induction false} EmitOnMachine(m: Machine, op: Op, base: int)
    requires m.numPE > 0 && FitsOn(m.numPE)(op)
    ensures OnMachine(m, Emit(m, op, base))
  {
    match op
    case Read(slot, size, n) => BurstShape(READ, slot, base, size, n);
    case Write(slot, size, n) => BurstShape(WRITE, slot, base, size, n);
    case Broadcast(slot, size) => SyncsShape(slot, m.numPE);
    case Compute(n) => WorksShape(m.addr, n);
  }

  /** Every record of a fitting trace comes from an existing processing element. */
  lemma {:induction false} TraceOnMachine(m: Machine, ops: seq<Op>, start: Start)
    requires m.numPE > 0 && All(FitsOn(m.numPE), ops)
    ensures OnMachine(m, Trace(m, ops, start))
  {
    if ops != [] {
      var k := |ops| - 1;
      TraceOnMachine(m, ops[..k], start);
      EmitOnMachine(m, ops[k], Base(ops[k], ops[..k], start));
    }
  }

  // ----- synchronisation -----

  function IsBroadcast(): Traffic -> bool {
    (t: Traffic) => t.response == BROADCAST
  }

  function SyncsAt(pe: int): Traffic -> bool {
    (t: Traffic) => t.kind == SYNC && t.src.1 == pe
  }

  /** How many broadcasts processing element `pe` has not yet synchronised with. */
  function Lag(t: seq<Traffic>, pe: int): int {
    |Keep(IsBroadcast(), t)| - |Keep(SyncsAt(pe), t)|
  }

  lemma {:induction false} LagConcat(a: seq<Traffic>, b: seq<Traffic>, pe: int)
    ensures Lag(a + b, pe) == Lag(a, pe) + Lag(b, pe)
  {
    KeepConcat(IsBroadcast(), a, b);
    KeepConcat(SyncsAt(pe), a, b);
  }

  lemma {:induction false} LagQuiet(t: seq<Traffic>, pe: int)
    requires forall i :: 0 <= i < |t| ==> t[i].response == UNICAST && t[i].kind != SYNC
    ensures Lag(t, pe) == 0
  {
    KeepNone(IsBroadcast(), t);
    KeepNone(SyncsAt(pe), t);
  }

  lemma {:induction false} LagSyncs(slot: Slot, n: nat, pe: int)
    ensures Lag(Syncs(slot, n), pe) == if 1 <= pe < n then -1 else 0
  {
    if n > 1 {
      LagSyncs(slot, n - 1, pe);
      var last := Unicast(SYNC, slot, n - 1, 0, 0);
      KeepAppend(IsBroadcast(), Syncs(slot, n - 1), last);
      KeepAppend(SyncsAt(pe), Syncs(slot, n - 1), last);
    }
  }

  lemma {:induction false} SyncsPrefix(slot: Slot, n: nat, j: nat)
    requires j <= |Syncs(slot, n)|
    ensures Syncs(slot, n)[..j] == Syncs(slot, j + 1)
  {
    SyncsShape(slot, n);
    SyncsShape(slot, j + 1);
  }

  lemma {:induction false} EmitLag(m: Machine, op: Op, base: int, j: nat, pe: int)
    requires j <= |Emit(m, op, base)| && 1 <= pe < m.numPE
    ensures 0 <= Lag(Emit(m, op, base)[..j], pe) <= 1
    ensures j == |Emit(m, op, base)| ==> Lag(Emit(m, op, base)[..j], pe) == 0
  {
    var e := Emit(m, op, base);
    match op
    case Read(slot, size, n) =>
      BurstShape(READ, slot, base, size, n);
      LagQuiet(e[..j], pe);
    case Write(slot, size, n) =>
      BurstShape(WRITE, slot, base, size, n);
      LagQuiet(e[..j], pe);
    case Compute(n) =>
      WorksShape(m.addr, n);
      LagQuiet(e[..j], pe);
    case Broadcast(slot, size) =>
      if j > 0 {
        SyncsShape(slot, m.numPE);
        SyncsPrefix(slot, m.numPE, j - 1);
        assert e[..j] == [e[0]] + Syncs(slot, j);
        LagConcat([e[0]], Syncs(slot, j), pe);
        LagSyncs(slot, j, pe);
        KeepAppend(IsBroadcast(), [], e[0]);
        KeepAppend(SyncsAt(pe), [], e[0]);
        assert [] + [e[0]] == [e[0]];
      }
  }

  /** At every point no broadcast is ahead of `pe` by more than one, and none at the end. */
  ghost predicate KeepsUp(t: seq<Traffic>, pe: int) {
    && Lag(t, pe) == 0
    && forall j :: 0 <= j <= |t| ==> 0 <= Lag(t[..j], pe) <= 1
  }

  lemma {:induction false} KeepsUpConcat(a: seq<Traffic>, b: seq<Traffic>, pe: int)
    requires KeepsUp(a, pe) && KeepsUp(b, pe)
    ensures KeepsUp(a + b, pe)
  {
    LagConcat(a, b, pe);
    forall j | 0 <= j <= |a + b| ensures 0 <= Lag((a + b)[..j], pe) <= 1 {
      if j <= |a| {
        assert (a + b)[..j] == a[..j];
      } else {
        assert (a + b)[..j] == a + b[..j - |a|];
        LagConcat(a, b[..j - |a|], pe);
      }
    }
  }

  /** At every point of every trace each processing element but the first is at most one synchronisation
      behind the broadcasts, and at the end it has caught up. */
  lemma {:induction false} TraceKeepsUp(m: Machine, ops: seq<Op>, start: Start, pe: int)
    requires 1 <= pe < m.numPE
    ensures KeepsUp(Trace(m, ops, start), pe)
  {
    if ops != [] {
      var k := |ops| - 1;
      var base := Base(ops[k], ops[..k], start);
      var e := Emit(m, ops[k], base);
      TraceKeepsUp(m, ops[..k], start, pe);
      forall j | 0 <= j <= |e| ensures 0 <= Lag(e[..j], pe) <= 1 {
        EmitLag(m, ops[k], base, j, pe);
      }
      EmitLag(m, ops[k], base, |e|, pe);
      assert e[..|e|] == e;
      KeepsUpConcat(Trace(m, ops[..k], start), e, pe);
    }
  }

  // ----- counting -----

  function Total(f: Op -> int, ops: seq<Op>): int {
    if ops == [] then 0 else Total(f, ops[..|ops| - 1]) + f(ops[|ops| - 1])
  }

  /** The number of computations an operation issues. */
  function WorkOf(): Op -> int {
    (op: Op) => if op.Compute? then op.n else 0
  }

  /** The number of tiles of `slot` an operation transfers. */
  function TilesOf(slot: Slot): Op -> int {
    (op: Op) => if op.Compute? || op.slot != slot then 0 else if op.Broadcast? then 1 else op.n
  }

  function IsWork(): Traffic -> bool {
    (t: Traffic) => t.kind == COMPUTE
  }

  lemma {:induction false} EmitWork(m: Machine, op: Op, base: int)
    ensures |Keep(IsWork(), Emit(m, op, base))| == WorkOf()(op)
  {
    var e := Emit(m, op, base);
    match op
    case Read(slot, size, n) =>
      BurstShape(READ, slot, base, size, n);
      KeepNone(IsWork(), e);
    case Write(slot, size, n) =>
      BurstShape(WRITE, slot, base, size, n);
      KeepNone(IsWork(), e);
    case Broadcast(slot, size) =>
      SyncsShape(slot, m.numPE);
      KeepNone(IsWork(), e);
    case Compute(n) =>
      WorksShape(m.addr, n);
      KeepAll(IsWork(), e);
  }

  lemma {:induction false} TraceWork(m: Machine, ops: seq<Op>, start: Start)
    ensures |Keep(IsWork(), Trace(m, ops, start))| == Total(WorkOf(), ops)
  {
    if ops != [] {
      var k := |ops| - 1;
      var base := Base(ops[k], ops[..k], start);
      TraceWork(m, ops[..k], start);
      KeepConcat(IsWork(), Trace(m, ops[..k], start), Emit(m, ops[k], base));
      EmitWork(m, ops[k], base);
    }
  }

  // ----- tiles -----

  /** If the operation is on `slot`, it transfers tiles of size `z`. */
  function SizeIs(slot: Slot, z: int): Op -> bool {
    (op: Op) => op.Compute? || op.slot != slot || op.size == z
  }

  ghost predicate SizesAre(s: seq<Traffic>, z: int) {
    forall i :: 0 <= i < |s| ==> s[i].size == z
  }

  lemma {:induction false} EmitTiles(m: Machine, op: Op, base: int, slot: Slot, z: int)
    requires SizeIs(slot, z)(op)
    ensures |Keep(DataFor(slot), Emit(m, op, base))| == TilesOf(slot)(op)
    ensures SizesAre(Keep(DataFor(slot), Emit(m, op, base)), z)
  {
    var e := Emit(m, op, base);
    EmitOrigin(m, op, base);
    if OriginOf(op) != For(slot) {
      KeepNone(DataFor(slot), e);
    } else if op.Broadcast? {
      BroadcastData(m, slot, op.size, base);
    } else {
      BurstShape(if op.Read? then READ else WRITE, slot, base, op.size, op.n);
      KeepAll(DataFor(slot), e);
    }
  }

  lemma {:induction false} TraceTiles(m: Machine, ops: seq<Op>, start: Start, slot: Slot, z: int)
    requires All(SizeIs(slot, z), ops)
    ensures |Keep(DataFor(slot), Trace(m, ops, start))| == Total(TilesOf(slot), ops)
    ensures SizesAre(Keep(DataFor(slot), Trace(m, ops, start)), z)
  {
    if ops != [] {
      var k := |ops| - 1;
      var base := Base(ops[k], ops[..k], start);
      TraceTiles(m, ops[..k], start, slot, z);
      KeepConcat(DataFor(slot), Trace(m, ops[..k], start), Emit(m, ops[k], base));
      EmitTiles(m, ops[k], base, slot, z);
    }
  }

  /** The address and size of each record. */
  function Extents(t: seq<Traffic>): seq<(int, int)> {
    if t == [] then [] else Extents(t[..|t| - 1]) + [(t[|t| - 1].addr, t[|t| - 1].size)]
  }

  /** `n` tiles of size `z` laid out from address `a`. */
  function Tiling(a: int, z: int, n: nat): seq<(int, int)> {
    if n == 0 then [] else Tiling(a, z, n - 1) + [(a + (n - 1) * z, z)]
  }

  lemma {:induction false} EndToEndTiling(s: seq<Traffic>, a: int, b: int, z: int)
    requires EndToEnd(s, a, b) && SizesAre(s, z)
    ensures Extents(s) == Tiling(a, z, |s|) && b == a + |s| * z
  {
    if s != [] {
      var k := |s| - 1;
      EndToEndTiling(s[..k], a, s[k].addr, z);
      assert |s| * z == k * z + z;
    }
  }

  /** What a trace transfers of a tensor is one gapless row of tiles from the tensor's address on, as many as
      the operations ask for. */
  lemma {:induction false} TraceTiling(m: Machine, ops: seq<Op>, start: Start, slot: Slot, z: int)
    requires All(SizeIs(slot, z), ops)
    ensures Total(TilesOf(slot), ops) >= 0
    ensures Extents(Keep(DataFor(slot), Trace(m, ops, start)))
            == Tiling(start(slot), z, Total(TilesOf(slot), ops))
  {
    TraceTiles(m, ops, start, slot, z);
    TraceEndToEnd(m, ops, start, slot);
    EndToEndTiling(Keep(DataFor(slot), Trace(m, ops, start)), start(slot), start(slot) + Moved(ops, slot), z);
  }
}
