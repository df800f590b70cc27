/** The traffic generator itself: nine loop nests that append to one trace and move the address cursors of the
    tensors they touch.  Each is proved to issue exactly the operations of its schedule. */
module TrafficGeneration {
  import opened Arithmetic
  import opened Collections
  import opened TrafficTrace
  import opened TrafficProperties
  import opened TrafficSchedules
  import opened TrafficCoverage

  class Tensor {
    const size: nat
    var address: int

    constructor (size: nat, address: int)
      ensures this.size == size && this.address == address
    {
      this.size, this.address := size, address;
    }
  }

  /** Where each tensor's cursor starts. */
  ghost function StartOf(ins: seq<int>, out: int): Start {
    (slot: Slot) => if slot.Out? then out else if slot.j < |ins| then ins[slot.j] else 0
  }

  /** The trigger keeps the trace folded where only the operations matter. */
  ghost predicate Recorded(m: Machine, start: Start, trace: seq<Traffic>, ops: seq<Op>) {
    forall s {:trigger Trace(m, ops, s)} :: s == start ==> trace == Trace(m, ops, s)
  }

  /** The cursor of `slot` is where the operations moved it. */
  ghost predicate At(start: Start, ops: seq<Op>, slot: Slot, address: int) {
    forall s {:trigger Moved(ops, s)} :: s == slot ==> address == start(s) + Moved(ops, s)
  }

  lemma {:induction false} RecordedOneMore(m: Machine, start: Start, trace: seq<Traffic>, ops: seq<Op>, op: Op,
                                           from: int)
    requires Recorded(m, start, trace, ops) && (op.Compute? || At(start, ops, op.slot, from))
    ensures Recorded(m, start, trace + Emit(m, op, from), ops + [op])
  {
    TraceAppend(m, ops, op, start);
    assert trace == Trace(m, ops, start);
    if !op.Compute? {
      assert from == start(op.slot) + Moved(ops, op.slot);
    }
  }

  lemma {:induction false} AtOneMore(start: Start, ops: seq<Op>, op: Op, slot: Slot, address: int)
    requires At(start, ops, slot, address)
    ensures At(start, ops + [op], slot, address + Step(op, slot))
  {
    MovedAppend(ops, op, slot);
    assert address == start(slot) + Moved(ops, slot);
  }

  lemma {:induction false} RepOneMore(before: seq<Op>, n: nat, body: seq<Op>)
    ensures before + Rep(n, body) + body == before + Rep(n + 1, body)
  {
  }

  /** What follows the full rounds, if anything does. */
  lemma {:induction false} LastRounds(before: seq<Op>, rounds: seq<Op>, middle: seq<Op>, after: seq<Op>)
    requires middle == before + rounds && middle <= after
    ensures after == before + (rounds + after[|middle|..])
  {
  }

  lemma {:induction false} Regroup(a: seq<Op>, b: seq<Op>, c: seq<Op>, d: seq<Op>)
    ensures a + b + c + d == a + (b + c + d)
  {
  }

  class TrafficGenerator {
    const machine: Machine
    const inputs: seq<Tensor>
    const output: Tensor
    const original: seq<nat>
    const c: nat
    const h: nat
    const w: nat
    const k: nat
    const numSubgraph: nat
    var trafficList: seq<Traffic>
    const outSlot: Slot
    ghost const start: Start
    ghost const layer: Layer
    ghost var log: seq<Op>

    /** Inputs are different tensors; the output is another one, or shares its cursor with an input. */
    ghost predicate Distinct() {
      && (forall i, j :: 0 <= i < j < |inputs| ==> inputs[i] != inputs[j])
      && (match outSlot
          case Out => output !in inputs
          case In(j) => j < |inputs| && inputs[j] == output)
    }

    ghost predicate Describes() {
      && |layer.sizes| == |inputs| && (forall j :: 0 <= j < |inputs| ==> layer.sizes[j] == inputs[j].size)
      && layer.outSize == output.size && layer.out == outSlot && layer.original == original
      && layer.c == c && layer.h == h && layer.w == w && layer.k == k
    }

    /** The trace is that of the operations issued so far, and every cursor is where they moved it. */
    ghost predicate Valid()
      reads this, inputs, output
    {
      && machine.numPE > 0 && Distinct() && Describes()
      && Recorded(machine, start, trafficList, log)
      && (forall j :: 0 <= j < |inputs| ==> At(start, log, In(j), inputs[j].address))
      && At(start, log, outSlot, output.address)
    }

    ghost predicate TensorAt(slot: Slot, t: Tensor) {
      match slot
      case Out => outSlot == Out && t == output
      case In(j) => j < |inputs| && inputs[j] == t
    }

    /** After any of the nine generators, the trace as it stands in the list is well formed: its records come from
        existing processing elements, synchronisation keeps up with broadcasts, and each tensor is transferred end
        to end from where its cursor started to where it is now. */
    lemma {:induction false} GeneratedTrace()
      requires Valid() && IsSchedule(layer, machine.numPE, numSubgraph, log)
      ensures OnMachine(machine, trafficList)
      ensures forall pe :: 1 <= pe < machine.numPE ==> KeepsUp(trafficList, pe)
      ensures forall j :: 0 <= j < |inputs| ==>
                EndToEnd(Keep(DataFor(In(j)), trafficList), start(In(j)), inputs[j].address)
      ensures EndToEnd(Keep(DataFor(outSlot), trafficList), start(outSlot), output.address)
    {
      ScheduleWellFormed(machine, layer, numSubgraph, log, start);
      assert trafficList == Trace(machine, log, start);
      forall j | 0 <= j < |inputs|
        ensures EndToEnd(Keep(DataFor(In(j)), trafficList), start(In(j)), inputs[j].address)
      {
        assert inputs[j].address == start(In(j)) + Moved(log, In(j));
      }
      assert output.address == start(outSlot) + Moved(log, outSlot);
    }

    constructor (machine: Machine, numSubgraph: nat, inputs: seq<Tensor>, output: Tensor, original: seq<nat>,
                 c: nat, h: nat, w: nat, k: nat)
      requires machine.numPE > 0
      requires forall i, j :: 0 <= i < j < |inputs| ==> inputs[i] != inputs[j]
      ensures Valid() && trafficList == [] && log == []
      ensures outSlot == Out <==> output !in inputs
      ensures forall j :: 0 <= j < |inputs| ==> start(In(j)) == inputs[j].address
      ensures output !in inputs ==> start(Out) == output.address
      ensures this.machine == machine && this.numSubgraph == numSubgraph
      ensures this.inputs == inputs && this.output == output && this.original == original
      ensures this.c == c && this.h == h && this.w == w && this.k == k
    {
      this.machine, this.numSubgraph := machine, numSubgraph;
      this.inputs, this.output, this.original := inputs, output, original;
      this.c, this.h, this.w, this.k := c, h, w, k;
      trafficList := [];
      ghost var ins, sizes := [], [];
      for j := 0 to |inputs|
        invariant |ins| == |sizes| == j
        invariant forall i :: 0 <= i < j ==> ins[i] == inputs[i].address && sizes[i] == inputs[i].size
      {
        ins, sizes := ins + [inputs[j].address], sizes + [inputs[j].size];
      }
      start := StartOf(ins, output.address);
      log := [];
      if output in inputs {
        var j :| 0 <= j < |inputs| && inputs[j] == output;
        outSlot := In(j);
        layer := Layer(sizes, output.size, In(j), original, c, h, w, k);
      } else {
        outSlot := Out;
        layer := Layer(sizes, output.size, Out, original, c, h, w, k);
      }
    }

    method PushBurst(kind: RequestType, n: nat, size: nat, t: Tensor, slot: Slot)
      modifies this`trafficList, t`address
      ensures trafficList == old(trafficList) + Burst(kind, slot, old(t.address), size, n)
      ensures t.address == old(t.address) + n * size
    {
      for i := 0 to n
        invariant trafficList == old(trafficList) + Burst(kind, slot, old(t.address), size, i)
        invariant t.address == old(t.address) + i * size
      {
        trafficList := trafficList
        + [Traffic(kind, (0, i), (1, 0), t.address, size, UNICAST, UNICAST, For(slot))];
        t.address := t.address + size;
        assert (i + 1) * size == i * size + size;
      }
    }

    /** Notes an operation whose records and cursor movement are in place. */
    ghost method Commit(op: Op, t: Tensor, trace: seq<Traffic>, from: int)
      requires machine.numPE > 0 && Distinct() && Describes() && !op.Compute? && TensorAt(op.slot, t)
      requires Recorded(machine, start, trace, log) && At(start, log, op.slot, from)
      requires trafficList == trace + Emit(machine, op, from) && t.address == from + Step(op, op.slot)
      requires forall j :: 0 <= j < |inputs| && inputs[j] != t ==> At(start, log, In(j), inputs[j].address)
      requires output != t ==> At(start, log, outSlot, output.address)
      modifies this`log
      ensures Valid() && log == old(log) + [op]
    {
      RecordedOneMore(machine, start, trace, log, op, from);
      forall j | 0 <= j < |inputs| ensures At(start, log + [op], In(j), inputs[j].address) {
        SameSlot(op.slot, t, j);
        AtOneMore(start, log, op, In(j), if inputs[j] == t then from else inputs[j].address);
      }
      AtOneMore(start, log, op, outSlot, if output == t then from else output.address);
      log := log + [op];
    }

    /** A tensor has one cursor only. */
    lemma {:induction false} SameSlot(slot: Slot, t: Tensor, j: nat)
      requires Distinct() && TensorAt(slot, t) && j < |inputs|
      ensures inputs[j] == t <==> In(j) == slot
      ensures output == t <==> outSlot == slot
    {
    }

    method UnicastRead(n: nat, size: nat, t: Tensor, slot: Slot)
      requires Valid() && TensorAt(slot, t)
      modifies this`trafficList, this`log, t`address
      ensures Valid() && log == old(log) + [Read(slot, size, n)]
    {
      ghost var op := Read(slot, size, n);
      PushBurst(READ, n, size, t, slot);
      Commit(op, t, old(trafficList), old(t.address));
    }

    method UnicastWrite(n: nat, size: nat, t: Tensor, slot: Slot)
      requires Valid() && TensorAt(slot, t)
      modifies this`trafficList, this`log, t`address
      ensures Valid() && log == old(log) + [Write(slot, size, n)]
    {
      ghost var op := Write(slot, size, n);
      PushBurst(WRITE, n, size, t, slot);
      Commit(op, t, old(trafficList), old(t.address));
    }

    method PushBroadcast(size: nat, t: Tensor, slot: Slot)
      requires machine.numPE > 0
      modifies this`trafficList, t`address
      ensures trafficList == old(trafficList) + Emit(machine, Broadcast(slot, size), old(t.address))
      ensures t.address == old(t.address) + size
    {
      trafficList := trafficList + [Traffic(READ, (0, 0), (1, 0), t.address, size, UNICAST, BROADCAST, For(slot))];
      ghost var first := trafficList;
      t.address := t.address + size;
      for i := 1 to machine.numPE
        invariant trafficList == first + Syncs(slot, i) && t.address == old(t.address) + size
      {
        trafficList := trafficList + [Traffic(SYNC, (0, i), (1, 0), 0, 0, UNICAST, UNICAST, For(slot))];
      }
      ghost var sent := [Traffic(READ, (0, 0), (1, 0), old(t.address), size, UNICAST, BROADCAST, For(slot))];
      ghost var syncs := Syncs(slot, machine.numPE);
      assert old(trafficList) + sent + syncs == old(trafficList) + (sent + syncs);
    }

    method BroadcastRead(size: nat, t: Tensor, slot: Slot)
      requires Valid() && TensorAt(slot, t)
      modifies this`trafficList, this`log, t`address
      ensures Valid() && log == old(log) + [Broadcast(slot, size)]
    {
      ghost var op := Broadcast(slot, size);
      PushBroadcast(size, t, slot);
      Commit(op, t, old(trafficList), old(t.address));
    }

    method RunCompute(n: nat)
      requires Valid()
      modifies this`trafficList, this`log
      ensures Valid() && log == old(log) + [Compute(n)]
    {
      ghost var op := Compute(n);
      RecordedOneMore(machine, start, trafficList, log, op, 0);
      forall j | 0 <= j < |inputs| ensures At(start, log + [op], In(j), inputs[j].address) {
        AtOneMore(start, log, op, In(j), inputs[j].address);
      }
      AtOneMore(start, log, op, outSlot, output.address);
      for i := 0 to n
        invariant trafficList == old(trafficList) + Works(machine.addr, i)
        invariant log == old(log)
      {
        trafficList := trafficList
        + [Traffic(COMPUTE, (0, i), (1, 0), machine.addr, 0, UNICAST, UNICAST, Work)];
      }
      log := log + [Compute(n)];
    }

    // ----- reading parameters -----

    method ReadInputs(lo: nat, n: nat)
      requires Valid() && lo <= |inputs|
      modifies this, inputs, output
      ensures Valid() && log == old(log) + ReadEach(layer.sizes, lo, |inputs|, n)
    {
      for j := lo to |inputs|
        invariant Valid() && log == old(log) + ReadEach(layer.sizes, lo, j, n)
      {
        UnicastRead(n, inputs[j].size, inputs[j], In(j));
      }
    }

    method BroadcastInputs()
      requires Valid() && 1 <= |inputs|
      modifies this, inputs, output
      ensures Valid() && log == old(log) + BroadcastEach(layer.sizes, 1, |inputs|)
    {
      for j := 1 to |inputs|
        invariant Valid() && log == old(log) + BroadcastEach(layer.sizes, 1, j)
      {
        BroadcastRead(inputs[j].size, inputs[j], In(j));
      }
    }

    method ReadBias(n: nat)
      requires Valid()
      modifies this, inputs, output
      ensures Valid() && log == old(log) + Bias(layer, n)
    {
      if |inputs| > 2 {
        UnicastRead(n, inputs[2].size, inputs[2], In(2));
      }
    }

    method ReadFusedBias(n: nat)
      requires Valid()
      modifies this, inputs, output
      ensures Valid() && log == old(log) + FusedBias(layer, n)
    {
      if |inputs| == 7 {
        UnicastRead(n, inputs[2].size, inputs[2], In(2));
      }
    }

    /** The four batch normalisation parameters are the last four inputs. */
    method ReadNormParameters(n: nat)
      requires Valid() && |inputs| >= 4
      modifies this, inputs, output
      ensures Valid() && log == old(log) + LastInputs(layer, n, 4)
    {
      for j := 0 to 4
        invariant Valid() && log == old(log) + LastInputs(layer, n, j)
      {
        UnicastRead(n, inputs[|inputs| - 1 - j].size, inputs[|inputs| - 1 - j], In(|inputs| - 1 - j));
      }
    }

    // ----- convolution, weight mapping -----

    /** One channel: its weights, then every tile of the input. */
    method WeightTiles(hw: nat)
      requires Valid() && |inputs| >= 2
      modifies this, inputs, output
      ensures Valid() && log == old(log) + WeightChannel(layer, machine.numPE, hw)
    {
      ghost var tile := WeightTile(layer, machine.numPE);
      UnicastRead(machine.numPE, inputs[1].size, inputs[1], In(1));
      ghost var first := log;
      for i := 0 to hw
        invariant Valid() && log == first + Rep(i, tile)
      {
        OneWeightTile();
        RepOneMore(first, i, tile);
      }
      Reassociate(old(log), [Read(In(1), layer.sizes[1], machine.numPE)], Rep(hw, tile));
    }

    method OneWeightTile()
      requires Valid() && |inputs| >= 2
      modifies this, inputs, output
      ensures Valid() && log == old(log) + WeightTile(layer, machine.numPE)
    {
      BroadcastRead(inputs[0].size, inputs[0], In(0));
      RunCompute(machine.numPE);
      UnicastWrite(machine.numPE, output.size, output, outSlot);
    }

    /** All channels of one round of output channels. */
    method WeightChannels()
      requires Valid() && |inputs| >= 2
      modifies this, inputs, output
      ensures Valid() && log == old(log) + Rep(c, WeightChannel(layer, machine.numPE, h * w))
    {
      ghost var channel := WeightChannel(layer, machine.numPE, h * w);
      for j := 0 to c
        invariant Valid() && log == old(log) + Rep(j, channel)
      {
        WeightTiles(h * w);
        RepOneMore(old(log), j, channel);
      }
    }

    method GenerateConvWeightStationary()
      requires Valid() && |inputs| >= 2
      modifies this, inputs, output
      ensures Valid() && log == old(log) + ConvWeightStationary(layer, machine.numPE)
    {
      ghost var l, p := layer, machine.numPE;
      ghost var round := Bias(l, p) + Rep(c, WeightChannel(l, p, h * w));
      for i := 0 to k / machine.numPE
        invariant Valid() && log == old(log) + Rep(i, round)
      {
        ghost var before := log;
        ReadBias(machine.numPE);
        WeightChannels();
        Reassociate(before, Bias(l, p), Rep(c, WeightChannel(l, p, h * w)));
        RepOneMore(old(log), i, round);
      }
    }

    method GenerateConvWeightReduction()
      requires Valid() && |inputs| >= 2
      modifies this, inputs, output
      ensures Valid() && log == old(log) + ConvWeightReduction(layer, machine.numPE)
    {
      ghost var l, p := layer, machine.numPE;
      ghost var round := [] + Rep(c, WeightChannel(l, p, h * w));
      if |inputs| > 2 {
        BroadcastRead(inputs[2].size, inputs[2], In(2));
      }
      ghost var once := log;
      assert once == old(log) + BiasOnce(l, l.sizes);
      for i := 0 to k / machine.numPE
        invariant Valid() && log == once + Rep(i, round)
      {
        ghost var before := log;
        WeightChannels();
        assert log == before + round;
        RepOneMore(once, i, round);
      }
      Reassociate(old(log), BiasOnce(l, l.sizes), Rep(k / p, round));
    }

    method GenerateConvBatchnormWeight()
      requires Valid() && |inputs| >= 4
      modifies this, inputs, output
      ensures Valid() && log == old(log) + ConvBatchnormWeight(layer, machine.numPE)
    {
      ghost var l, p := layer, machine.numPE;
      ghost var round := FusedBias(l, p) + LastInputs(l, p, 4) + Rep(c, WeightChannel(l, p, h * w));
      for i := 0 to k / machine.numPE
        invariant Valid() && log == old(log) + Rep(i, round)
      {
        ghost var before := log;
        ReadFusedParameters(machine.numPE);
        WeightChannels();
        Reassociate(before, FusedBias(l, p) + LastInputs(l, p, 4), Rep(c, WeightChannel(l, p, h * w)));
        RepOneMore(old(log), i, round);
      }
    }

    method ReadFusedParameters(n: nat)
      requires Valid() && |inputs| >= 4
      modifies this, inputs, output
      ensures Valid() && log == old(log) + (FusedBias(layer, n) + LastInputs(layer, n, 4))
    {
      ReadFusedBias(n);
      ReadNormParameters(n);
      Reassociate(old(log), FusedBias(layer, n), LastInputs(layer, n, 4));
    }

    // ----- convolution, output mapping -----

    method GenerateConvOutputStationary()
      requires Valid() && |inputs| >= 2
      modifies this, inputs, output
      ensures Valid() && log == old(log) + ConvOutputStationary(layer, machine.numPE)
    {
      ghost var l, p := layer, machine.numPE;
      var hw := h * w;
      ghost var channel := OutputChannel(l, p, hw, Bias(l, p), Bias(l, hw % p), Bias(l, p));
      for i := 0 to c
        invariant Valid() && log == old(log) + Rep(i, channel)
      {
        StationaryChannel(hw);
        RepOneMore(old(log), i, channel);
      }
      UnicastWrite(machine.numPE, output.size, output, outSlot);
      Regroup(old(log), [], Rep(c, channel), [Write(outSlot, output.size, p)]);
    }

    method StationaryChannel(hw: nat)
      requires Valid() && |inputs| >= 2
      modifies this, inputs, output
      ensures var l, p := layer, machine.numPE;
              Valid() && log == old(log) + OutputChannel(l, p, hw, Bias(l, p), Bias(l, hw % p), Bias(l, p))
    {
      ghost var l, p := layer, machine.numPE;
      ghost var round := OutputRound(l, p, [], Bias(l, p));
      for j := 0 to hw / machine.numPE
        invariant Valid() && log == old(log) + Rep(j, round)
      {
        StationaryRound();
        RepOneMore(old(log), j, round);
      }
      ghost var rounds := log;
      if hw % machine.numPE != 0 {
        StationaryLastRound(hw % machine.numPE);
      }
      LastRounds(old(log), Rep(hw / p, round), rounds, log);
    }

    method StationaryRound()
      requires Valid() && |inputs| >= 2
      modifies this, inputs, output
      ensures Valid() && log == old(log) + OutputRound(layer, machine.numPE, [], Bias(layer, machine.numPE))
    {
      UnicastRead(machine.numPE, inputs[0].size, inputs[0], In(0));
      StationaryTiles(machine.numPE);
    }

    method StationaryLastRound(n: nat)
      requires Valid() && |inputs| >= 2
      modifies this, inputs, output
      ensures var l := layer;
              Valid() && log == old(log) + OutputRound(l, n, Bias(l, n), Bias(l, machine.numPE))
    {
      UnicastRead(n, inputs[0].size, inputs[0], In(0));
      ReadBias(n);
      StationaryTiles(n);
    }

    /** All output channels for the tiles held by `n` processing elements; the bias is read by all. */
    method StationaryTiles(n: nat)
      requires Valid() && |inputs| >= 2
      modifies this, inputs, output
      ensures var l := layer;
              && Valid()
              && log == old(log) + Rep(k, [Broadcast(In(1), l.sizes[1])] + Bias(l, machine.numPE) + [Compute(n)])
    {
      ghost var l := layer;
      ghost var body := [Broadcast(In(1), l.sizes[1])] + Bias(l, machine.numPE) + [Compute(n)];
      for i := 0 to k
        invariant Valid() && log == old(log) + Rep(i, body)
      {
        ghost var before := log;
        BroadcastRead(inputs[1].size, inputs[1], In(1));
        ReadBias(machine.numPE);
        RunCompute(n);
        Regroup(before, [Broadcast(In(1), l.sizes[1])], Bias(l, machine.numPE), [Compute(n)]);
        RepOneMore(old(log), i, body);
      }
    }

    method GenerateConvOutputReduction()
      requires Valid() && |inputs| >= 2 && (|inputs| > 2 ==> |original| > 2)
      modifies this, inputs, output
      ensures Valid() && log == old(log) + ConvOutputReduction(layer, machine.numPE)
    {
      ghost var l, p := layer, machine.numPE;
      var hw := h * w;
      ghost var channel := OutputChannel(l, p, hw, [], Bias(l, hw % p), []);
      BroadcastBias();
      ghost var once := log;
      for i := 0 to c
        invariant Valid() && log == once + Rep(i, channel)
      {
        ReductionChannel(hw);
        RepOneMore(once, i, channel);
      }
      UnicastWrite(machine.numPE, output.size, output, outSlot);
      Regroup(old(log), BiasOnce(l, l.original), Rep(c, channel), [Write(outSlot, output.size, p)]);
    }

    method BroadcastBias()
      requires Valid() && (|inputs| > 2 ==> |original| > 2)
      modifies this, inputs, output
      ensures Valid() && log == old(log) + BiasOnce(layer, original)
    {
      if |inputs| > 2 {
        BroadcastRead(original[2], inputs[2], In(2));
      }
    }

    method ReductionChannel(hw: nat)
      requires Valid() && |inputs| >= 2
      modifies this, inputs, output
      ensures var l, p := layer, machine.numPE;
              Valid() && log == old(log) + OutputChannel(l, p, hw, [], Bias(l, hw % p), [])
    {
      ghost var l, p := layer, machine.numPE;
      ghost var round := OutputRound(l, p, [], []);
      for j := 0 to hw / machine.numPE
        invariant Valid() && log == old(log) + Rep(j, round)
      {
        ReductionRound();
        RepOneMore(old(log), j, round);
      }
      ghost var rounds := log;
      if hw % machine.numPE != 0 {
        ReductionLastRound(hw % machine.numPE);
      }
      LastRounds(old(log), Rep(hw / p, round), rounds, log);
    }

    method ReductionRound()
      requires Valid() && |inputs| >= 2
      modifies this, inputs, output
      ensures Valid() && log == old(log) + OutputRound(layer, machine.numPE, [], [])
    {
      UnicastRead(machine.numPE, inputs[0].size, inputs[0], In(0));
      ReductionTiles(machine.numPE);
    }

    method ReductionLastRound(n: nat)
      requires Valid() && |inputs| >= 2
      modifies this, inputs, output
      ensures var l := layer; Valid() && log == old(log) + OutputRound(l, n, Bias(l, n), [])
    {
      UnicastRead(n, inputs[0].size, inputs[0], In(0));
      ReadBias(n);
      ReductionTiles(n);
    }

    method ReductionTiles(n: nat)
      requires Valid() && |inputs| >= 2
      modifies this, inputs, output
      ensures Valid() && log == old(log) + Rep(k, [Broadcast(In(1), layer.sizes[1])] + [] + [Compute(n)])
    {
      ghost var body := [Broadcast(In(1), layer.sizes[1])] + [] + [Compute(n)];
      for i := 0 to k
        invariant Valid() && log == old(log) + Rep(i, body)
      {
        ghost var before := log;
        BroadcastRead(inputs[1].size, inputs[1], In(1));
        RunCompute(n);
        Regroup(before, [Broadcast(In(1), layer.sizes[1])], [], [Compute(n)]);
        RepOneMore(old(log), i, body);
      }
    }

    method GenerateConvBatchnormOutput()
      requires Valid() && |inputs| >= 4
      modifies this, inputs, output
      ensures Valid() && log == old(log) + ConvBatchnormOutput(layer, machine.numPE)
    {
      ghost var l, p := layer, machine.numPE;
      var hw := h * w;
      ghost var channel := OutputChannel(l, p, hw, FusedBias(l, p) + LastInputs(l, p, 4), FusedBias(l, p),
                                         Bias(l, p) + LastInputs(l, p, 4));
      for i := 0 to c
        invariant Valid() && log == old(log) + Rep(i, channel)
      {
        FusedChannel(hw);
        RepOneMore(old(log), i, channel);
      }
      UnicastWrite(machine.numPE, output.size, output, outSlot);
      Regroup(old(log), [], Rep(c, channel), [Write(outSlot, output.size, p)]);
    }

    method FusedChannel(hw: nat)
      requires Valid() && |inputs| >= 4
      modifies this, inputs, output
      ensures var l, p := layer, machine.numPE;
              && Valid()
              && log == old(log) + OutputChannel(l, p, hw, FusedBias(l, p) + LastInputs(l, p, 4), FusedBias(l, p),
                                                 Bias(l, p) + LastInputs(l, p, 4))
    {
      ghost var l, p := layer, machine.numPE;
      ghost var round := OutputRound(l, p, [], FusedBias(l, p) + LastInputs(l, p, 4));
      for j := 0 to hw / machine.numPE
        invariant Valid() && log == old(log) + Rep(j, round)
      {
        FusedRound();
        RepOneMore(old(log), j, round);
      }
      ghost var rounds := log;
      if hw % machine.numPE != 0 {
        FusedLastRound(hw % machine.numPE);
      }
      LastRounds(old(log), Rep(hw / p, round), rounds, log);
    }

    method FusedRound()
      requires Valid() && |inputs| >= 4
      modifies this, inputs, output
      ensures Valid()
      ensures log == old(log) + OutputRound(layer, machine.numPE, [],
                                            FusedBias(layer, machine.numPE) + LastInputs(layer, machine.numPE, 4))
    {
      UnicastRead(machine.numPE, inputs[0].size, inputs[0], In(0));
      FusedTiles(machine.numPE, true);
    }

    method FusedLastRound(n: nat)
      requires Valid() && |inputs| >= 4
      modifies this, inputs, output
      ensures var l, p := layer, machine.numPE;
              Valid() && log == old(log) + OutputRound(l, n, FusedBias(l, p), Bias(l, p) + LastInputs(l, p, 4))
    {
      UnicastRead(n, inputs[0].size, inputs[0], In(0));
      ReadFusedBias(machine.numPE);
      FusedTiles(n, false);
    }

    /** All output channels for the tiles held by `n` processing elements.  In full rounds the bias counts as
        present with seven inputs, in the last one already with three. */
    method FusedTiles(n: nat, full: bool)
      requires Valid() && |inputs| >= 4
      modifies this, inputs, output
      ensures var l, p := layer, machine.numPE;
              var bias := if full then FusedBias(l, p) else Bias(l, p);
              && Valid()
              && log == old(log)
                        + Rep(k, [Broadcast(In(1), l.sizes[1])] + (bias + LastInputs(l, p, 4)) + [Compute(n)])
    {
      ghost var l, p := layer, machine.numPE;
      ghost var bias := if full then FusedBias(l, p) else Bias(l, p);
      ghost var body := [Broadcast(In(1), l.sizes[1])] + (bias + LastInputs(l, p, 4)) + [Compute(n)];
      for i := 0 to k
        invariant Valid() && log == old(log) + Rep(i, body)
      {
        ghost var before := log;
        FusedTile(n, full);
        Regroup(before, [Broadcast(In(1), l.sizes[1])], bias + LastInputs(l, p, 4), [Compute(n)]);
        RepOneMore(old(log), i, body);
      }
    }

    method FusedTile(n: nat, full: bool)
      requires Valid() && |inputs| >= 4
      modifies this, inputs, output
      ensures var l, p := layer, machine.numPE;
              var bias := if full then FusedBias(l, p) else Bias(l, p);
              && Valid()
              && log == old(log) + [Broadcast(In(1), l.sizes[1])] + (bias + LastInputs(l, p, 4)) + [Compute(n)]
    {
      BroadcastRead(inputs[1].size, inputs[1], In(1));
      if full {
        ReadFusedParameters(machine.numPE);
      } else {
        ReadPlainParameters(machine.numPE);
      }
      RunCompute(n);
    }

    method ReadPlainParameters(n: nat)
      requires Valid() && |inputs| >= 4
      modifies this, inputs, output
      ensures Valid() && log == old(log) + (Bias(layer, n) + LastInputs(layer, n, 4))
    {
      ReadBias(n);
      ReadNormParameters(n);
      Reassociate(old(log), Bias(layer, n), LastInputs(layer, n, 4));
    }

    // ----- element-wise operators and batch normalisation -----

    method GenerateElementWise()
      requires Valid()
      modifies this, inputs, output
      ensures Valid() && log == old(log) + ElementWise(layer, machine.numPE, numSubgraph)
    {
      var round, remainder := CeilDiv(numSubgraph, machine.numPE), numSubgraph % machine.numPE;
      ghost var l, p := layer, machine.numPE;
      ghost var body := ReadEach(l.sizes, 0, |l.sizes|, p) + [Compute(p), Write(l.out, l.outSize, p)];
      for i := 0 to round
        invariant Valid() && log == old(log) + Rep(i, body)
      {
        ElementRound(machine.numPE);
        RepOneMore(old(log), i, body);
      }
      ghost var rounds := log;
      if remainder != 0 {
        ElementRound(remainder);
      }
      LastRounds(old(log), Rep(round, body), rounds, log);
    }

    /** A round reads a tile of every input for every processing element, also where only `n` compute. */
    method ElementRound(n: nat)
      requires Valid()
      modifies this, inputs, output
      ensures var l, p := layer, machine.numPE;
              && Valid()
              && log == old(log) + (ReadEach(l.sizes, 0, |l.sizes|, p) + [Compute(n), Write(l.out, l.outSize, n)])
    {
      ReadInputs(0, machine.numPE);
      RunCompute(n);
      UnicastWrite(n, output.size, output, outSlot);
    }

    /** Full rounds and a last partial one. */
    method NormalizeRounds(total: nat)
      requires Valid() && |inputs| >= 1
      modifies this, inputs, output
      ensures Valid() && log == old(log) + NormRounds(layer, machine.numPE, total, [], [])
    {
      ghost var tile := NormTile(layer, machine.numPE, []);
      for j := 0 to total / machine.numPE
        invariant Valid() && log == old(log) + Rep(j, tile)
      {
        NormalizeTile(machine.numPE);
        RepOneMore(old(log), j, tile);
      }
      ghost var rounds := log;
      if total % machine.numPE != 0 {
        NormalizeTile(total % machine.numPE);
      }
      LastRounds(old(log), Rep(total / machine.numPE, tile), rounds, log);
    }

    method NormalizeTile(n: nat)
      requires Valid() && |inputs| >= 1
      modifies this, inputs, output
      ensures Valid() && log == old(log) + NormTile(layer, n, [])
    {
      UnicastRead(n, inputs[0].size, inputs[0], In(0));
      RunCompute(n);
      UnicastWrite(n, output.size, output, outSlot);
    }

    method BatchnormChannels()
      requires Valid() && |inputs| >= 1
      modifies this, inputs, output
      ensures var l, p := layer, machine.numPE;
              && Valid()
              && log == old(log) + NormRounds(l, p, c, ReadEach(l.sizes, 1, |l.sizes|, p),
                                              BroadcastEach(l.sizes, 1, |l.sizes|))
    {
      ghost var l, p := layer, machine.numPE;
      ghost var tile := NormTile(l, p, ReadEach(l.sizes, 1, |l.sizes|, p));
      for i := 0 to c / machine.numPE
        invariant Valid() && log == old(log) + Rep(i, tile)
      {
        FullChannels();
        RepOneMore(old(log), i, tile);
      }
      ghost var rounds := log;
      if c % machine.numPE != 0 {
        LastChannels(c % machine.numPE);
      }
      LastRounds(old(log), Rep(c / p, tile), rounds, log);
    }

    method FullChannels()
      requires Valid() && |inputs| >= 1
      modifies this, inputs, output
      ensures var l, p := layer, machine.numPE;
              Valid() && log == old(log) + NormTile(l, p, ReadEach(l.sizes, 1, |l.sizes|, p))
    {
      UnicastRead(machine.numPE, inputs[0].size, inputs[0], In(0));
      ReadInputs(1, machine.numPE);
      RunCompute(machine.numPE);
      UnicastWrite(machine.numPE, output.size, output, outSlot);
    }

    method LastChannels(n: nat)
      requires Valid() && |inputs| >= 1
      modifies this, inputs, output
      ensures var l := layer;
              Valid() && log == old(log) + NormTile(l, n, BroadcastEach(l.sizes, 1, |l.sizes|))
    {
      UnicastRead(n, inputs[0].size, inputs[0], In(0));
      BroadcastInputs();
      RunCompute(n);
      UnicastWrite(n, output.size, output, outSlot);
    }

    method BatchnormAll()
      requires Valid() && |inputs| >= 1
      modifies this, inputs, output
      ensures var l, p := layer, machine.numPE;
              && Valid()
              && log == old(log) + Rep(c, BroadcastEach(l.sizes, 1, |l.sizes|) + NormRounds(l, p, h * w, [], []))
    {
      ghost var l, p := layer, machine.numPE;
      ghost var body := BroadcastEach(l.sizes, 1, |l.sizes|) + NormRounds(l, p, h * w, [], []);
      for i := 0 to c
        invariant Valid() && log == old(log) + Rep(i, body)
      {
        ghost var before := log;
        BroadcastInputs();
        NormalizeRounds(h * w);
        Reassociate(before, BroadcastEach(l.sizes, 1, |l.sizes|), NormRounds(l, p, h * w, [], []));
        RepOneMore(old(log), i, body);
      }
    }

    method BatchnormUnsplit()
      requires Valid() && |inputs| >= 1 && c == 1
      modifies this, inputs, output
      ensures Valid() && log == old(log) + Batchnorm(layer, machine.numPE, numSubgraph)
    {
      var round, remainder := CeilDiv(numSubgraph, machine.numPE), numSubgraph % machine.numPE;
      ghost var tile := NormTile(layer, machine.numPE, []);
      BroadcastInputs();
      ghost var first := log;
      for i := 0 to round
        invariant Valid() && log == first + Rep(i, tile)
      {
        NormalizeTile(machine.numPE);
        RepOneMore(first, i, tile);
      }
      ghost var params, rounds := BroadcastEach(layer.sizes, 1, |layer.sizes|), Rep(round, tile);
      Reassociate(old(log), params, rounds);
      ghost var middle := log;
      if remainder != 0 {
        UnsplitRest(remainder);
      }
      LastRounds(old(log), params + rounds, middle, log);
    }

    /** The last round reads for every processing element, also where only `n` compute. */
    method UnsplitRest(n: nat)
      requires Valid() && |inputs| >= 1
      modifies this, inputs, output
      ensures Valid() && log == old(log) + [Read(In(0), layer.sizes[0], machine.numPE), Compute(n),
                                            Write(layer.out, layer.outSize, n)]
    {
      UnicastRead(machine.numPE, inputs[0].size, inputs[0], In(0));
      RunCompute(n);
      UnicastWrite(n, output.size, output, outSlot);
    }

    method GenerateBatchnorm()
      requires Valid() && |inputs| >= 1
      modifies this, inputs, output
      ensures Valid() && log == old(log) + Batchnorm(layer, machine.numPE, numSubgraph)
    {
      if c > 1 && h == 1 && w == 1 {
        BatchnormChannels();
      } else if c > 1 && h != 1 && w != 1 {
        BatchnormAll();
      } else if c == 1 {
        BatchnormUnsplit();
      }
    }

    method GenerateBatchnormReduction()
      requires Valid() && 1 <= |inputs| && |original| <= |inputs|
      modifies this, inputs, output
      ensures Valid() && log == old(log) + BatchnormReduction(layer, machine.numPE)
    {
      if |original| > 1 {
        for j := 1 to |original|
          invariant Valid() && log == old(log) + BroadcastEach(original, 1, j)
        {
          BroadcastRead(original[j], inputs[j], In(j));
        }
      }
      NormalizeRounds(c * h * w);
    }
  }

  /** Three generators of one convolution that have run its plain, reduced and fused weight-stationary form hold the
      same trace, but for the records of biases and normalisation parameters. */
  lemma {:induction false} GeneratedWeightTraces(plain: TrafficGenerator, reduced: TrafficGenerator,
                                                 fused: TrafficGenerator)
    requires plain.Valid() && reduced.Valid() && fused.Valid()
    requires plain.machine == reduced.machine == fused.machine && plain.layer == reduced.layer
    requires SameConvolution(plain.layer, fused.layer)
    requires AgreeOnEssential(plain.start, reduced.start) && AgreeOnEssential(plain.start, fused.start)
    requires plain.log == ConvWeightStationary(plain.layer, plain.machine.numPE)
    requires reduced.log == ConvWeightReduction(plain.layer, plain.machine.numPE)
    requires fused.log == ConvBatchnormWeight(fused.layer, plain.machine.numPE)
    ensures Keep(IsEssential(), plain.trafficList) == Keep(IsEssential(), reduced.trafficList)
    ensures Keep(IsEssential(), plain.trafficList) == Keep(IsEssential(), fused.trafficList)
  {
    var m := plain.machine;
    assert plain.trafficList == Trace(m, plain.log, plain.start);
    assert reduced.trafficList == Trace(m, reduced.log, reduced.start);
    assert fused.trafficList == Trace(m, fused.log, fused.start);
    WeightTracesAgree(m, plain.layer, fused.layer, plain.start, fused.start);
    CoreTracesAgree(m, reduced.log, reduced.log, EssentialOps(reduced.log), plain.start, reduced.start);
  }

  /** The same for the output-stationary forms. */
  lemma {:induction false} GeneratedOutputTraces(plain: TrafficGenerator, reduced: TrafficGenerator,
                                                 fused: TrafficGenerator)
    requires plain.Valid() && reduced.Valid() && fused.Valid()
    requires plain.machine == reduced.machine == fused.machine && plain.layer == reduced.layer
    requires SameConvolution(plain.layer, fused.layer)
    requires AgreeOnEssential(plain.start, reduced.start) && AgreeOnEssential(plain.start, fused.start)
    requires plain.log == ConvOutputStationary(plain.layer, plain.machine.numPE)
    requires reduced.log == ConvOutputReduction(plain.layer, plain.machine.numPE)
    requires fused.log == ConvBatchnormOutput(fused.layer, plain.machine.numPE)
    ensures Keep(IsEssential(), plain.trafficList) == Keep(IsEssential(), reduced.trafficList)
    ensures Keep(IsEssential(), plain.trafficList) == Keep(IsEssential(), fused.trafficList)
  {
    var m := plain.machine;
    assert plain.trafficList == Trace(m, plain.log, plain.start);
    assert reduced.trafficList == Trace(m, reduced.log, reduced.start);
    assert fused.trafficList == Trace(m, fused.log, fused.start);
    OutputTracesAgree(m, plain.layer, fused.layer, plain.start, fused.start);
    CoreTracesAgree(m, reduced.log, reduced.log, EssentialOps(reduced.log), plain.start, reduced.start);
  }
}
