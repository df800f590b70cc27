/** The operations issued by each generator, and what the generators have in common.

The schedules are written as repetitions.  Convolutions with plain, aggregated or
fused parameters differ only in the operations `once`, `each` and so on that read
the bias and the batch normalisation parameters.
*/
module TrafficSchedules {
  import opened Arithmetic
  import opened Collections
  import opened TrafficTrace
  import opened TrafficProperties

  /** The tile sizes of an operator's inputs and output, the tensor the output is written to, the input sizes
      before splitting, and how many parts each dimension is split into. */
  datatype Layer = Layer(sizes: seq<nat>, outSize: nat, out: Slot, original: seq<nat>,
                         c: nat, h: nat, w: nat, k: nat)

  function Rep(n: nat, body: seq<Op>): seq<Op> {
    if n == 0 then [] else Rep(n - 1, body) + body
  }

  // ----- convolution -----

  function WeightTile(l: Layer, p: nat): seq<Op>
    requires |l.sizes| >= 2
  {
    [Broadcast(In(0), l.sizes[0]), Compute(p), Write(l.out, l.outSize, p)]
  }

  function WeightChannel(l: Layer, p: nat, hw: nat): seq<Op>
    requires |l.sizes| >= 2
  {
    [Read(In(1), l.sizes[1], p)] + Rep(hw, WeightTile(l, p))
  }

  function WeightSchedule(l: Layer, p: nat, hw: nat, once: seq<Op>, each: seq<Op>): seq<Op>
    requires |l.sizes| >= 2 && p > 0
  {
    once + Rep(l.k / p, each + Rep(l.c, WeightChannel(l, p, hw)))
  }

  function OutputRound(l: Layer, n: nat, before: seq<Op>, each: seq<Op>): seq<Op>
    requires |l.sizes| >= 2
  {
    [Read(In(0), l.sizes[0], n)] + before + Rep(l.k, [Broadcast(In(1), l.sizes[1])] + each + [Compute(n)])
  }

  function OutputChannel(l: Layer, p: nat, hw: nat, each: seq<Op>, before: seq<Op>, eachLast: seq<Op>): seq<Op>
    requires |l.sizes| >= 2 && p > 0
  {
    Rep(hw / p, OutputRound(l, p, [], each))
    + (if hw % p != 0 then OutputRound(l, hw % p, before, eachLast) else [])
  }

  function OutputSchedule(l: Layer, p: nat, hw: nat, once: seq<Op>,
                          each: seq<Op>, before: seq<Op>, eachLast: seq<Op>): seq<Op>
    requires |l.sizes| >= 2 && p > 0
  {
    once + Rep(l.c, OutputChannel(l, p, hw, each, before, eachLast)) + [Write(l.out, l.outSize, p)]
  }

  function Bias(l: Layer, n: nat): seq<Op> {
    if |l.sizes| > 2 then [Read(In(2), l.sizes[2], n)] else []
  }

  /** The bias is broadcast once, with the size given by `sizes`. */
  function BiasOnce(l: Layer, sizes: seq<nat>): seq<Op>
    requires |l.sizes| > 2 ==> |sizes| > 2
  {
    if |l.sizes| > 2 then [Broadcast(In(2), sizes[2])] else []
  }

  /** In a fused operator the bias is there only if there are seven inputs. */
  function FusedBias(l: Layer, n: nat): seq<Op> {
    if |l.sizes| == 7 then [Read(In(2), l.sizes[2], n)] else []
  }

  /** The last `j` inputs, from the last one backwards. */
  function LastInputs(l: Layer, n: nat, j: nat): seq<Op>
    requires j <= |l.sizes|
  {
    if j == 0 then [] else
      LastInputs(l, n, j - 1) + [Read(In(|l.sizes| - j), l.sizes[|l.sizes| - j], n)]
  }

  function ConvWeightStationary(l: Layer, p: nat): seq<Op>
    requires |l.sizes| >= 2 && p > 0
  {
    WeightSchedule(l, p, l.h * l.w, [], Bias(l, p))
  }

  function ConvWeightReduction(l: Layer, p: nat): seq<Op>
    requires |l.sizes| >= 2 && p > 0
  {
    WeightSchedule(l, p, l.h * l.w, BiasOnce(l, l.sizes), [])
  }

  function ConvBatchnormWeight(l: Layer, p: nat): seq<Op>
    requires |l.sizes| >= 4 && p > 0
  {
    WeightSchedule(l, p, l.h * l.w, [], FusedBias(l, p) + LastInputs(l, p, 4))
  }

  function ConvOutputStationary(l: Layer, p: nat): seq<Op>
    requires |l.sizes| >= 2 && p > 0
  {
    OutputSchedule(l, p, l.h * l.w, [], Bias(l, p), Bias(l, (l.h * l.w) % p), Bias(l, p))
  }

  function ConvOutputReduction(l: Layer, p: nat): seq<Op>
    requires |l.sizes| >= 2 && p > 0 && (|l.sizes| > 2 ==> |l.original| > 2)
  {
    OutputSchedule(l, p, l.h * l.w, BiasOnce(l, l.original), [], Bias(l, (l.h * l.w) % p), [])
  }

  function ConvBatchnormOutput(l: Layer, p: nat): seq<Op>
    requires |l.sizes| >= 4 && p > 0
  {
    OutputSchedule(l, p, l.h * l.w, [], FusedBias(l, p) + LastInputs(l, p, 4), FusedBias(l, p),
                   Bias(l, p) + LastInputs(l, p, 4))
  }

  // ----- element-wise operators and batch normalisation -----

  function ReadEach(sizes: seq<nat>, lo: nat, hi: nat, n: nat): seq<Op>
    requires hi <= |sizes|
  {
    if hi <= lo then [] else ReadEach(sizes, lo, hi - 1, n) + [Read(In(hi - 1), sizes[hi - 1], n)]
  }

  function BroadcastEach(sizes: seq<nat>, lo: nat, hi: nat): seq<Op>
    requires hi <= |sizes|
  {
    if hi <= lo then [] else BroadcastEach(sizes, lo, hi - 1) + [Broadcast(In(hi - 1), sizes[hi - 1])]
  }

  function ElementWise(l: Layer, p: nat, subgraphs: nat): seq<Op>
    requires p > 0
  {
    var fetch, r := ReadEach(l.sizes, 0, |l.sizes|, p), subgraphs % p;
    Rep(CeilDiv(subgraphs, p), fetch + [Compute(p), Write(l.out, l.outSize, p)])
    + (if r != 0 then fetch + [Compute(r), Write(l.out, l.outSize, r)] else [])
  }

  function NormTile(l: Layer, n: nat, params: seq<Op>): seq<Op>
    requires |l.sizes| >= 1
  {
    [Read(In(0), l.sizes[0], n)] + params + [Compute(n), Write(l.out, l.outSize, n)]
  }

  function NormRounds(l: Layer, p: nat, total: nat, each: seq<Op>, last: seq<Op>): seq<Op>
    requires |l.sizes| >= 1 && p > 0
  {
    Rep(total / p, NormTile(l, p, each)) + (if total % p != 0 then NormTile(l, total % p, last) else [])
  }

  function Batchnorm(l: Layer, p: nat, subgraphs: nat): seq<Op>
    requires |l.sizes| >= 1 && p > 0
  {
    var params := BroadcastEach(l.sizes, 1, |l.sizes|);
    if l.c > 1 && l.h == 1 && l.w == 1 then
      NormRounds(l, p, l.c, ReadEach(l.sizes, 1, |l.sizes|, p), params)
    else if l.c > 1 && l.h != 1 && l.w != 1 then
      Rep(l.c, params + NormRounds(l, p, l.h * l.w, [], []))
    else if l.c == 1 then
      params + Rep(CeilDiv(subgraphs, p), NormTile(l, p, []))
      + (if subgraphs % p != 0 then
           [Read(In(0), l.sizes[0], p), Compute(subgraphs % p), Write(l.out, l.outSize, subgraphs % p)]
         else [])
    else []
  }

  function BatchnormReduction(l: Layer, p: nat): seq<Op>
    requires 1 <= |l.sizes| && |l.original| <= |l.sizes| && p > 0
  {
    BroadcastEach(l.original, 1, |l.original|) + NormRounds(l, p, l.c * l.h * l.w, [], [])
  }

  // ----- repetitions -----

  lemma {:induction false} EssentialRep(n: nat, body: seq<Op>)
    ensures EssentialOps(Rep(n, body)) == Rep(n, EssentialOps(body))
  {
    if n > 0 {
      EssentialRep(n - 1, body);
      KeepConcat(EssentialOp(), Rep(n - 1, body), body);
    }
  }

  lemma {:induction false} TotalConcat(f: Op -> int, a: seq<Op>, b: seq<Op>)
    ensures Total(f, a + b) == Total(f, a) + Total(f, b)
  {
    if b == [] {
      assert a + b == a;
    } else {
      var j := |b| - 1;
      TotalConcat(f, a, b[..j]);
      assert (a + b)[..|a| + j] == a + b[..j];
    }
  }

  lemma {:induction false} TotalRep(f: Op -> int, n: nat, body: seq<Op>)
    ensures Total(f, Rep(n, body)) == n * Total(f, body)
  {
    if n > 0 {
      TotalRep(f, n - 1, body);
      TotalConcat(f, Rep(n - 1, body), body);
      assert n * Total(f, body) == (n - 1) * Total(f, body) + Total(f, body);
    }
  }

  lemma {:induction false} AllRep(p: Op -> bool, n: nat, body: seq<Op>)
    requires All(p, body)
    ensures All(p, Rep(n, body))
  {
    if n > 0 {
      AllRep(p, n - 1, body);
    }
  }

  // ----- plain, aggregated and fused convolutions -----

  /** Reads of the bias or of batch normalisation parameters. */
  function ExtraOp(): Op -> bool {
    (op: Op) => !Essential(OriginOf(op))
  }

  /** Without the extra reads every weight schedule is the same. */
  lemma {:induction false} WeightCore(l: Layer, p: nat, hw: nat, once: seq<Op>, each: seq<Op>)
    requires |l.sizes| >= 2 && p > 0 && l.out == Out && All(ExtraOp(), once) && All(ExtraOp(), each)
    ensures EssentialOps(WeightSchedule(l, p, hw, once, each)) == WeightSchedule(l, p, hw, [], [])
  {
    var round := Rep(l.c, WeightChannel(l, p, hw));
    AllRep(EssentialOp(), hw, WeightTile(l, p));
    AllRep(EssentialOp(), l.c, WeightChannel(l, p, hw));
    KeepAll(EssentialOp(), round);
    KeepNone(EssentialOp(), once);
    KeepNone(EssentialOp(), each);
    KeepConcat(EssentialOp(), each, round);
    assert EssentialOps(each + round) == [] + round;
    EssentialRep(l.k / p, each + round);
    KeepConcat(EssentialOp(), once, Rep(l.k / p, each + round));
  }

  lemma {:induction false} OutputRoundCore(l: Layer, n: nat, before: seq<Op>, each: seq<Op>)
    requires |l.sizes| >= 2 && All(ExtraOp(), before) && All(ExtraOp(), each)
    ensures EssentialOps(OutputRound(l, n, before, each)) == OutputRound(l, n, [], [])
  {
    var first, weight, work := [Read(In(0), l.sizes[0], n)], [Broadcast(In(1), l.sizes[1])], [Compute(n)];
    KeepNone(EssentialOp(), before);
    KeepNone(EssentialOp(), each);
    KeepAll(EssentialOp(), first);
    KeepAll(EssentialOp(), weight);
    KeepAll(EssentialOp(), work);
    KeepConcat(EssentialOp(), weight, each);
    KeepConcat(EssentialOp(), weight + each, work);
    EssentialRep(l.k, weight + each + work);
    KeepConcat(EssentialOp(), first, before);
    KeepConcat(EssentialOp(), first + before, Rep(l.k, weight + each + work));
  }

  lemma {:induction false} OutputChannelCore(l: Layer, p: nat, hw: nat,
                                             each: seq<Op>, before: seq<Op>, eachLast: seq<Op>)
    requires |l.sizes| >= 2 && p > 0
    requires All(ExtraOp(), each) && All(ExtraOp(), before) && All(ExtraOp(), eachLast)
    ensures EssentialOps(OutputChannel(l, p, hw, each, before, eachLast)) == OutputChannel(l, p, hw, [], [], [])
  {
    var n, r := hw / p, hw % p;
    OutputRoundCore(l, p, [], each);
    OutputRoundCore(l, r, before, eachLast);
    EssentialRep(n, OutputRound(l, p, [], each));
    KeepConcat(EssentialOp(), Rep(n, OutputRound(l, p, [], each)),
                    if r != 0 then OutputRound(l, r, before, eachLast) else []);
  }

  /** Without the extra reads every output schedule is the same. */
  lemma {:induction false} OutputCore(l: Layer, p: nat, hw: nat, once: seq<Op>,
                                      each: seq<Op>, before: seq<Op>, eachLast: seq<Op>)
    requires |l.sizes| >= 2 && p > 0 && l.out == Out && All(ExtraOp(), once)
    requires All(ExtraOp(), each) && All(ExtraOp(), before) && All(ExtraOp(), eachLast)
    ensures EssentialOps(OutputSchedule(l, p, hw, once, each, before, eachLast))
            == OutputSchedule(l, p, hw, [], [], [], [])
  {
    var channel, last := OutputChannel(l, p, hw, each, before, eachLast), [Write(l.out, l.outSize, p)];
    OutputChannelCore(l, p, hw, each, before, eachLast);
    EssentialRep(l.c, channel);
    KeepNone(EssentialOp(), once);
    KeepAll(EssentialOp(), last);
    KeepConcat(EssentialOp(), once, Rep(l.c, channel));
    KeepConcat(EssentialOp(), once + Rep(l.c, channel), last);
  }

  lemma {:induction false} LastInputsExtra(l: Layer, n: nat, j: nat)
    requires j + 2 <= |l.sizes|
    ensures All(ExtraOp(), LastInputs(l, n, j))
  {
    if j > 0 {
      LastInputsExtra(l, n, j - 1);
    }
  }

  function WeightOnly(l: Layer, p: nat, hw: nat): seq<Op>
    requires |l.sizes| >= 2 && p > 0
  {
    WeightSchedule(l, p, hw, [], [])
  }

  function OutputOnly(l: Layer, p: nat, hw: nat): seq<Op>
    requires |l.sizes| >= 2 && p > 0
  {
    OutputSchedule(l, p, hw, [], [], [], [])
  }

  /** The operations of a convolution that concern its input, weight and output. */
  ghost predicate HasCore(ops: seq<Op>, core: seq<Op>) {
    EssentialOps(ops) == core
  }

  lemma {:induction false} WeightStationaryCore(l: Layer, p: nat)
    requires |l.sizes| >= 2 && p > 0 && l.out == Out
    ensures HasCore(ConvWeightStationary(l, p), WeightOnly(l, p, l.h * l.w))
  {
    WeightCore(l, p, l.h * l.w, [], Bias(l, p));
  }

  lemma {:induction false} WeightReductionCore(l: Layer, p: nat)
    requires |l.sizes| >= 2 && p > 0 && l.out == Out
    ensures HasCore(ConvWeightReduction(l, p), WeightOnly(l, p, l.h * l.w))
  {
    WeightCore(l, p, l.h * l.w, BiasOnce(l, l.sizes), []);
  }

  lemma {:induction false} FusedWeightCore(l: Layer, p: nat)
    requires |l.sizes| >= 6 && p > 0 && l.out == Out
    ensures HasCore(ConvBatchnormWeight(l, p), WeightOnly(l, p, l.h * l.w))
  {
    LastInputsExtra(l, p, 4);
    WeightCore(l, p, l.h * l.w, [], FusedBias(l, p) + LastInputs(l, p, 4));
  }

  lemma {:induction false} OutputStationaryCore(l: Layer, p: nat)
    requires |l.sizes| >= 2 && p > 0 && l.out == Out
    ensures HasCore(ConvOutputStationary(l, p), OutputOnly(l, p, l.h * l.w))
  {
    OutputCore(l, p, l.h * l.w, [], Bias(l, p), Bias(l, (l.h * l.w) % p), Bias(l, p));
  }

  lemma {:induction false} OutputReductionCore(l: Layer, p: nat)
    requires |l.sizes| >= 2 && p > 0 && l.out == Out && (|l.sizes| > 2 ==> |l.original| > 2)
    ensures HasCore(ConvOutputReduction(l, p), OutputOnly(l, p, l.h * l.w))
  {
    OutputCore(l, p, l.h * l.w, BiasOnce(l, l.original), [], Bias(l, (l.h * l.w) % p), []);
  }

  lemma {:induction false} FusedOutputCore(l: Layer, p: nat)
    requires |l.sizes| >= 6 && p > 0 && l.out == Out
    ensures HasCore(ConvBatchnormOutput(l, p), OutputOnly(l, p, l.h * l.w))
  {
    LastInputsExtra(l, p, 4);
    OutputCore(l, p, l.h * l.w, [], FusedBias(l, p) + LastInputs(l, p, 4), FusedBias(l, p),
               Bias(l, p) + LastInputs(l, p, 4));
  }

  /** The same convolution, alone and fused with a batch normalisation: the inputs that follow the first two
      may differ. */
  ghost predicate SameConvolution(l: Layer, fused: Layer) {
    && |l.sizes| >= 2 && |fused.sizes| >= 6 && (|l.sizes| > 2 ==> |l.original| > 2)
    && l.sizes[0] == fused.sizes[0] && l.sizes[1] == fused.sizes[1] && l.outSize == fused.outSize
    && l.out == Out && fused.out == Out
    && l.c == fused.c && l.h == fused.h && l.w == fused.w && l.k == fused.k
  }

  lemma {:induction false} SameCore(l: Layer, fused: Layer, p: nat, hw: nat)
    requires p > 0 && SameConvolution(l, fused)
    ensures WeightOnly(l, p, hw) == WeightOnly(fused, p, hw)
    ensures OutputOnly(l, p, hw) == OutputOnly(fused, p, hw)
  {
    assert WeightTile(l, p) == WeightTile(fused, p);
    assert WeightChannel(l, p, hw) == WeightChannel(fused, p, hw);
    assert OutputRound(l, p, [], []) == OutputRound(fused, p, [], []);
    assert OutputRound(l, hw % p, [], []) == OutputRound(fused, hw % p, [], []);
  }

  ghost function Core(m: Machine, ops: seq<Op>, start: Start): seq<Traffic> {
    Keep(IsEssential(), Trace(m, ops, start))
  }

  lemma {:induction false} CoreTracesAgree(m: Machine, a: seq<Op>, b: seq<Op>, core: seq<Op>,
                                           start: Start, start': Start)
    requires HasCore(a, core) && HasCore(b, core) && AgreeOnEssential(start, start')
    ensures Core(m, a, start) == Core(m, b, start')
  {
    EraseTrace(m, a, start, start');
    EraseTrace(m, b, start', start');
  }

  /** Weight-stationary convolution issues the same input, weight and output traffic and the same
      computations, record for record and address for address, whether its parameters are read each time,
      read once, or fused with those of a batch normalisation. */
  lemma {:induction false} WeightTracesAgree(m: Machine, l: Layer, fused: Layer, start: Start, start': Start)
    requires m.numPE > 0 && SameConvolution(l, fused) && AgreeOnEssential(start, start')
    ensures Core(m, ConvWeightStationary(l, m.numPE), start) == Core(m, ConvWeightReduction(l, m.numPE), start)
    ensures Core(m, ConvWeightStationary(l, m.numPE), start) == Core(m, ConvBatchnormWeight(fused, m.numPE), start')
  {
    var p, core := m.numPE, WeightOnly(l, m.numPE, l.h * l.w);
    WeightStationaryCore(l, p);
    WeightReductionCore(l, p);
    FusedWeightCore(fused, p);
    SameCore(l, fused, p, l.h * l.w);
    CoreTracesAgree(m, ConvWeightStationary(l, p), ConvWeightReduction(l, p), core, start, start);
    CoreTracesAgree(m, ConvWeightStationary(l, p), ConvBatchnormWeight(fused, p), core, start, start');
  }

  /** The same for output-stationary convolution. */
  lemma {:induction false} OutputTracesAgree(m: Machine, l: Layer, fused: Layer, start: Start, start': Start)
    requires m.numPE > 0 && SameConvolution(l, fused) && AgreeOnEssential(start, start')
    ensures Core(m, ConvOutputStationary(l, m.numPE), start) == Core(m, ConvOutputReduction(l, m.numPE), start)
    ensures Core(m, ConvOutputStationary(l, m.numPE), start) == Core(m, ConvBatchnormOutput(fused, m.numPE), start')
  {
    var p, core := m.numPE, OutputOnly(l, m.numPE, l.h * l.w);
    OutputStationaryCore(l, p);
    OutputReductionCore(l, p);
    FusedOutputCore(fused, p);
    SameCore(l, fused, p, l.h * l.w);
    CoreTracesAgree(m, ConvOutputStationary(l, p), ConvOutputReduction(l, p), core, start, start);
    CoreTracesAgree(m, ConvOutputStationary(l, p), ConvBatchnormOutput(fused, p), core, start, start');
  }

  // ----- totals of the convolution schedules -----

  ghost function WeightTotal(f: Op -> int, l: Layer, p: nat, hw: nat, once: int, each: int): int
    requires |l.sizes| >= 2 && p > 0
  {
    var tile := f(Broadcast(In(0), l.sizes[0])) + f(Compute(p)) + f(Write(l.out, l.outSize, p));
    once + (l.k / p) * (each + l.c * (f(Read(In(1), l.sizes[1], p)) + hw * tile))
  }

  lemma {:induction false} WeightTileTotal(f: Op -> int, l: Layer, p: nat)
    requires |l.sizes| >= 2
    ensures Total(f, WeightTile(l, p))
            == f(Broadcast(In(0), l.sizes[0])) + f(Compute(p)) + f(Write(l.out, l.outSize, p))
  {
    var a, b, c := Broadcast(In(0), l.sizes[0]), Compute(p), Write(l.out, l.outSize, p);
    TotalOne(f, a);
    TotalOne(f, b);
    TotalOne(f, c);
    TotalConcat(f, [a], [b]);
    TotalConcat(f, [a] + [b], [c]);
    assert WeightTile(l, p) == [a] + [b] + [c];
  }

  lemma {:induction false} TotalOne(f: Op -> int, op: Op)
    ensures Total(f, [op]) == f(op)
  {
    assert [op][..0] == [];
  }

  /** What an operator does in total follows from what its single operations do. */
  lemma {:induction false} WeightTotals(f: Op -> int, l: Layer, p: nat, hw: nat, once: seq<Op>, each: seq<Op>)
    requires |l.sizes| >= 2 && p > 0
    ensures Total(f, WeightSchedule(l, p, hw, once, each)) == WeightTotal(f, l, p, hw, Total(f, once), Total(f, each))
  {
    var tile, channel := WeightTile(l, p), WeightChannel(l, p, hw);
    WeightTileTotal(f, l, p);
    TotalRep(f, hw, tile);
    TotalOne(f, Read(In(1), l.sizes[1], p));
    TotalConcat(f, [Read(In(1), l.sizes[1], p)], Rep(hw, tile));
    TotalRep(f, l.c, channel);
    TotalConcat(f, each, Rep(l.c, channel));
    TotalRep(f, l.k / p, each + Rep(l.c, channel));
    TotalConcat(f, once, Rep(l.k / p, each + Rep(l.c, channel)));
  }

  ghost function RoundTotal(f: Op -> int, l: Layer, n: nat, before: int, each: int): int
    requires |l.sizes| >= 2
  {
    f(Read(In(0), l.sizes[0], n)) + before + l.k * (f(Broadcast(In(1), l.sizes[1])) + each + f(Compute(n)))
  }

  lemma {:induction false} RoundTotals(f: Op -> int, l: Layer, n: nat, before: seq<Op>, each: seq<Op>)
    requires |l.sizes| >= 2
    ensures Total(f, OutputRound(l, n, before, each)) == RoundTotal(f, l, n, Total(f, before), Total(f, each))
  {
    var a, b, c := Read(In(0), l.sizes[0], n), Broadcast(In(1), l.sizes[1]), Compute(n);
    TotalOne(f, a);
    TotalOne(f, b);
    TotalOne(f, c);
    TotalConcat(f, [b], each);
    TotalConcat(f, [b] + each, [c]);
    TotalRep(f, l.k, [b] + each + [c]);
    TotalConcat(f, [a], before);
    TotalConcat(f, [a] + before, Rep(l.k, [b] + each + [c]));
  }

  /** All rounds of one channel. */
  ghost function ChannelTotal(f: Op -> int, l: Layer, p: nat, hw: nat, each: int, before: int, eachLast: int): int
    requires |l.sizes| >= 2 && p > 0
  {
    (hw / p) * RoundTotal(f, l, p, 0, each)
    + if hw % p != 0 then RoundTotal(f, l, hw % p, before, eachLast) else 0
  }

  lemma {:induction false} ChannelTotals(f: Op -> int, l: Layer, p: nat, hw: nat,
                                         each: seq<Op>, before: seq<Op>, eachLast: seq<Op>)
    requires |l.sizes| >= 2 && p > 0
    ensures Total(f, OutputChannel(l, p, hw, each, before, eachLast))
            == ChannelTotal(f, l, p, hw, Total(f, each), Total(f, before), Total(f, eachLast))
  {
    var n, r, round := hw / p, hw % p, OutputRound(l, p, [], each);
    RoundTotals(f, l, p, [], each);
    RoundTotals(f, l, r, before, eachLast);
    TotalRep(f, n, round);
    TotalConcat(f, Rep(n, round), if r != 0 then OutputRound(l, r, before, eachLast) else []);
  }

  lemma {:induction false} OutputTotals(f: Op -> int, l: Layer, p: nat, hw: nat, once: seq<Op>,
                                        each: seq<Op>, before: seq<Op>, eachLast: seq<Op>)
    requires |l.sizes| >= 2 && p > 0
    ensures Total(f, OutputSchedule(l, p, hw, once, each, before, eachLast))
            == Total(f, once)
               + l.c * ChannelTotal(f, l, p, hw, Total(f, each), Total(f, before), Total(f, eachLast))
               + f(Write(l.out, l.outSize, p))
  {
    var channel := OutputChannel(l, p, hw, each, before, eachLast);
    ChannelTotals(f, l, p, hw, each, before, eachLast);
    TotalRep(f, l.c, channel);
    TotalConcat(f, once, Rep(l.c, channel));
    TotalOne(f, Write(l.out, l.outSize, p));
    TotalConcat(f, once + Rep(l.c, channel), [Write(l.out, l.outSize, p)]);
  }

  // ----- work -----

  /** C * (K - K mod numPE) * H * W: the work on the output channels that fill whole groups. */
  function WholeGroups(c: nat, k: nat, p: nat, hw: nat): int
    requires p > 0
  {
    c * (k - k % p) * hw
  }

  /** C * K * H * W. */
  function AllWork(c: nat, k: nat, hw: nat): int {
    c * k * hw
  }

  /** The extra reads do no work. */
  lemma {:induction false} EssentialWork(ops: seq<Op>)
    ensures Total(WorkOf(), EssentialOps(ops)) == Total(WorkOf(), ops)
  {
    if ops != [] {
      var j := |ops| - 1;
      EssentialWork(ops[..j]);
      TotalConcat(WorkOf(), EssentialOps(ops[..j]), if Essential(OriginOf(ops[j])) then [ops[j]] else []);
    }
  }

  lemma {:induction false} WeightWork(l: Layer, p: nat, hw: nat)
    requires |l.sizes| >= 2 && p > 0
    ensures Total(WorkOf(), WeightOnly(l, p, hw)) == WholeGroups(l.c, l.k, p, hw)
  {
    WeightTotals(WorkOf(), l, p, hw, [], []);
    WeightWorkProduct(l.k, p, l.c, hw);
  }

  lemma {:induction false} WeightWorkProduct(k: nat, p: nat, c: nat, hw: nat)
    requires p > 0
    ensures (k / p) * (c * (hw * p)) == WholeGroups(c, k, p, hw)
  {
    var q := k / p;
    assert k == q * p + k % p;
    assert q * (c * (hw * p)) == c * (q * p) * hw;
  }

  lemma {:induction false} RoundsAndRest(total: nat, p: nat, k: nat)
    requires p > 0
    ensures (total / p) * (k * p) + k * (total % p) == k * total
  {
    var n, r := total / p, total % p;
    assert total == n * p + r;
    assert n * (k * p) == k * (n * p);
  }

  lemma {:induction false} OutputWork(l: Layer, p: nat, hw: nat)
    requires |l.sizes| >= 2 && p > 0
    ensures Total(WorkOf(), OutputOnly(l, p, hw)) == AllWork(l.c, l.k, hw)
  {
    OutputTotals(WorkOf(), l, p, hw, [], [], [], []);
    RoundsAndRest(hw, p, l.k);
    assert ChannelTotal(WorkOf(), l, p, hw, 0, 0, 0) == l.k * hw;
    MulAssociates(l.c, l.k, hw);
  }

  /** The number of computations in a trace. */
  ghost function Computations(m: Machine, ops: seq<Op>, start: Start): nat {
    |Keep(IsWork(), Trace(m, ops, start))|
  }

  lemma {:induction false} ComputationsOfCore(m: Machine, ops: seq<Op>, core: seq<Op>, start: Start)
    requires HasCore(ops, core)
    ensures Computations(m, ops, start) == Total(WorkOf(), core)
  {
    TraceWork(m, ops, start);
    EssentialWork(ops);
  }

  lemma {:induction false} WeightCoreWork(m: Machine, l: Layer, hw: nat, ops: seq<Op>, start: Start)
    requires m.numPE > 0 && |l.sizes| >= 2 && HasCore(ops, WeightOnly(l, m.numPE, hw))
    ensures Computations(m, ops, start) == WholeGroups(l.c, l.k, m.numPE, hw)
  {
    WeightWork(l, m.numPE, hw);
    ComputationsOfCore(m, ops, WeightOnly(l, m.numPE, hw), start);
  }

  lemma {:induction false} OutputCoreWork(m: Machine, l: Layer, hw: nat, ops: seq<Op>, start: Start)
    requires m.numPE > 0 && |l.sizes| >= 2 && HasCore(ops, OutputOnly(l, m.numPE, hw))
    ensures Computations(m, ops, start) == AllWork(l.c, l.k, hw)
  {
    OutputWork(l, m.numPE, hw);
    ComputationsOfCore(m, ops, OutputOnly(l, m.numPE, hw), start);
  }

  /** Weight-stationary convolution works on the whole groups of output channels only. */
  lemma {:induction false} WeightConvolutionWork(m: Machine, l: Layer, start: Start)
    requires m.numPE > 0 && |l.sizes| >= 2 && l.out == Out
    ensures Computations(m, ConvWeightStationary(l, m.numPE), start) == WholeGroups(l.c, l.k, m.numPE, l.h * l.w)
    ensures Computations(m, ConvWeightReduction(l, m.numPE), start) == WholeGroups(l.c, l.k, m.numPE, l.h * l.w)
  {
    WeightStationaryCore(l, m.numPE);
    WeightReductionCore(l, m.numPE);
    WeightCoreWork(m, l, l.h * l.w, ConvWeightStationary(l, m.numPE), start);
    WeightCoreWork(m, l, l.h * l.w, ConvWeightReduction(l, m.numPE), start);
  }

  /** Output-stationary convolution does all the work for every number of processing elements. */
  lemma {:induction false} OutputConvolutionWork(m: Machine, l: Layer, start: Start)
    requires m.numPE > 0 && |l.sizes| >= 2 && l.out == Out && (|l.sizes| > 2 ==> |l.original| > 2)
    ensures Computations(m, ConvOutputStationary(l, m.numPE), start) == AllWork(l.c, l.k, l.h * l.w)
    ensures Computations(m, ConvOutputReduction(l, m.numPE), start) == AllWork(l.c, l.k, l.h * l.w)
  {
    OutputStationaryCore(l, m.numPE);
    OutputReductionCore(l, m.numPE);
    OutputCoreWork(m, l, l.h * l.w, ConvOutputStationary(l, m.numPE), start);
    OutputCoreWork(m, l, l.h * l.w, ConvOutputReduction(l, m.numPE), start);
  }

  /** Fusing a batch normalisation adds no work to either dataflow. */
  lemma {:induction false} FusedConvolutionWork(m: Machine, l: Layer, start: Start)
    requires m.numPE > 0 && |l.sizes| >= 6 && l.out == Out
    ensures Computations(m, ConvBatchnormWeight(l, m.numPE), start) == WholeGroups(l.c, l.k, m.numPE, l.h * l.w)
    ensures Computations(m, ConvBatchnormOutput(l, m.numPE), start) == AllWork(l.c, l.k, l.h * l.w)
  {
    FusedWeightCore(l, m.numPE);
    FusedOutputCore(l, m.numPE);
    WeightCoreWork(m, l, l.h * l.w, ConvBatchnormWeight(l, m.numPE), start);
    OutputCoreWork(m, l, l.h * l.w, ConvBatchnormOutput(l, m.numPE), start);
  }

  /** The two dataflows do equal work exactly if the processing elements divide the output channels evenly. */
  lemma {:induction false} DataflowsAgreeExactlyWhen(m: Machine, l: Layer, start: Start)
    requires m.numPE > 0 && |l.sizes| >= 2 && l.out == Out && (|l.sizes| > 2 ==> |l.original| > 2)
    requires l.c > 0 && l.h > 0 && l.w > 0
    ensures (Computations(m, ConvWeightStationary(l, m.numPE), start)
             == Computations(m, ConvOutputStationary(l, m.numPE), start)) <==> l.k % m.numPE == 0
  {
    WeightConvolutionWork(m, l, start);
    OutputConvolutionWork(m, l, start);
    SharesAgree(l.c, l.k, m.numPE, l.h, l.w);
  }

  lemma {:induction false} SharesAgree(c: nat, k: nat, p: nat, h: nat, w: nat)
    requires p > 0 && c > 0 && h > 0 && w > 0
    ensures WholeGroups(c, k, p, h * w) == AllWork(c, k, h * w) <==> k % p == 0
  {
    RemainderBound(k, p);
    ProductsAgree(c, k, k % p, h, w);
  }

  lemma {:induction false} ProductsAgree(c: nat, k: nat, r: nat, h: nat, w: nat)
    requires c > 0 && h > 0 && w > 0 && r <= k
    ensures c * (k - r) * (h * w) == c * k * (h * w) <==> r == 0
  {
    var hw := h * w;
    assert hw > 0;
    assert c * (k - r) * hw == c * k * hw - c * r * hw;
    if r > 0 {
      assert c * r > 0;
      assert c * r * hw > 0;
    }
  }
}
