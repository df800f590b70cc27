/** How many tiles of each tensor the generators transfer, and exactly when each tile is transferred once. */
module TrafficConservation {
  import opened Arithmetic
  import opened Collections
  import opened TrafficTrace
  import opened TrafficProperties
  import opened TrafficSchedules
  import opened TrafficCoverage

  // ----- tiles of a convolution -----

  /** Reads of the bias and of normalisation parameters transfer none of the other tensors. */
  lemma {:induction false} ExtrasTransferNothing(slot: Slot, ops: seq<Op>)
    requires All(ExtraOp(), ops) && Essential(For(slot))
    ensures Total(TilesOf(slot), ops) == 0
  {
    if ops != [] {
      ExtrasTransferNothing(slot, ops[..|ops| - 1]);
    }
  }

  /** The tiles of a convolution's input, weight and output. */
  function InputTiles(c: nat, hw: nat): nat {
    c * hw
  }

  function WeightTiles(c: nat, k: nat): nat {
    c * k
  }

  function OutputTiles(k: nat, hw: nat): nat {
    k * hw
  }

  /** `n` for each channel, in every one of the `q` rounds of output channels. */
  function InRounds(q: nat, c: nat, n: nat): nat {
    q * (c * n)
  }

  lemma {:induction false} WeightSlotTotal(slot: Slot, l: Layer, p: nat, hw: nat, once: seq<Op>, each: seq<Op>)
    requires |l.sizes| >= 2 && p > 0 && Essential(For(slot)) && All(ExtraOp(), once) && All(ExtraOp(), each)
    ensures Total(TilesOf(slot), WeightSchedule(l, p, hw, once, each)) == WeightTotal(TilesOf(slot), l, p, hw, 0, 0)
  {
    ExtrasTransferNothing(slot, once);
    ExtrasTransferNothing(slot, each);
    WeightTotals(TilesOf(slot), l, p, hw, once, each);
  }

  lemma {:induction false} WeightTileCounts(l: Layer, p: nat, hw: nat, once: seq<Op>, each: seq<Op>)
    requires |l.sizes| >= 2 && p > 0 && l.out == Out && All(ExtraOp(), once) && All(ExtraOp(), each)
    ensures var ops := WeightSchedule(l, p, hw, once, each);
            && Total(TilesOf(In(0)), ops) == InRounds(l.k / p, l.c, hw)
            && Total(TilesOf(In(1)), ops) == InRounds(l.k / p, l.c, p)
            && Total(TilesOf(Out), ops) == InRounds(l.k / p, l.c, OutputTiles(hw, p))
  {
    WeightSlotTotal(In(0), l, p, hw, once, each);
    WeightSlotTotal(In(1), l, p, hw, once, each);
    WeightSlotTotal(Out, l, p, hw, once, each);
    WeightTilesIn0(l, p, hw);
    WeightTilesIn1(l, p, hw);
    WeightTilesOut(l, p, hw);
  }

  lemma {:induction false} WeightTilesIn0(l: Layer, p: nat, hw: nat)
    requires |l.sizes| >= 2 && p > 0 && l.out == Out
    ensures WeightTotal(TilesOf(In(0)), l, p, hw, 0, 0) == InRounds(l.k / p, l.c, hw)
  {
  }

  lemma {:induction false} WeightTilesIn1(l: Layer, p: nat, hw: nat)
    requires |l.sizes| >= 2 && p > 0 && l.out == Out
    ensures WeightTotal(TilesOf(In(1)), l, p, hw, 0, 0) == InRounds(l.k / p, l.c, p)
  {
    assert hw * 0 == 0;
  }

  lemma {:induction false} WeightTilesOut(l: Layer, p: nat, hw: nat)
    requires |l.sizes| >= 2 && p > 0 && l.out == Out
    ensures WeightTotal(TilesOf(Out), l, p, hw, 0, 0) == InRounds(l.k / p, l.c, OutputTiles(hw, p))
  {
  }

  lemma {:induction false} OutputTileCounts(l: Layer, p: nat, hw: nat, once: seq<Op>,
                                            each: seq<Op>, before: seq<Op>, eachLast: seq<Op>)
    requires |l.sizes| >= 2 && p > 0 && l.out == Out && All(ExtraOp(), once)
    requires All(ExtraOp(), each) && All(ExtraOp(), before) && All(ExtraOp(), eachLast)
    ensures var ops := OutputSchedule(l, p, hw, once, each, before, eachLast);
            && Total(TilesOf(In(0)), ops) == InputTiles(l.c, hw)
            && Total(TilesOf(In(1)), ops) == InRounds(l.c, CeilDiv(hw, p), l.k)
            && Total(TilesOf(Out), ops) == p
  {
    OutputSlotTotal(In(0), l, p, hw, once, each, before, eachLast);
    OutputSlotTotal(In(1), l, p, hw, once, each, before, eachLast);
    OutputSlotTotal(Out, l, p, hw, once, each, before, eachLast);
    ChannelsTileCounts(l, p, hw);
  }

  lemma {:induction false} ChannelsTileCounts(l: Layer, p: nat, hw: nat)
    requires |l.sizes| >= 2 && p > 0
    ensures l.c * ChannelTotal(TilesOf(In(0)), l, p, hw, 0, 0, 0) == InputTiles(l.c, hw)
    ensures l.c * ChannelTotal(TilesOf(In(1)), l, p, hw, 0, 0, 0) == InRounds(l.c, CeilDiv(hw, p), l.k)
    ensures l.c * ChannelTotal(TilesOf(Out), l, p, hw, 0, 0, 0) == 0
  {
    ChannelTileCounts(l, p, hw);
  }

  lemma {:induction false} OutputSlotTotal(slot: Slot, l: Layer, p: nat, hw: nat, once: seq<Op>,
                                           each: seq<Op>, before: seq<Op>, eachLast: seq<Op>)
    requires |l.sizes| >= 2 && p > 0 && Essential(For(slot)) && All(ExtraOp(), once)
    requires All(ExtraOp(), each) && All(ExtraOp(), before) && All(ExtraOp(), eachLast)
    ensures var f := TilesOf(slot);
            Total(f, OutputSchedule(l, p, hw, once, each, before, eachLast))
            == l.c * ChannelTotal(f, l, p, hw, 0, 0, 0) + f(Write(l.out, l.outSize, p))
  {
    ExtrasTransferNothing(slot, once);
    ExtrasTransferNothing(slot, each);
    ExtrasTransferNothing(slot, before);
    ExtrasTransferNothing(slot, eachLast);
    OutputTotals(TilesOf(slot), l, p, hw, once, each, before, eachLast);
  }

  lemma {:induction false} ChannelTileCounts(l: Layer, p: nat, hw: nat)
    requires |l.sizes| >= 2 && p > 0
    ensures ChannelTotal(TilesOf(In(0)), l, p, hw, 0, 0, 0) == hw
    ensures ChannelTotal(TilesOf(In(1)), l, p, hw, 0, 0, 0) == CeilDiv(hw, p) * l.k
    ensures ChannelTotal(TilesOf(Out), l, p, hw, 0, 0, 0) == 0
  {
    RoundsCount(hw, p, l.k);
    forall n ensures RoundTotal(TilesOf(In(0)), l, n, 0, 0) == n {
      assert l.k * 0 == 0;
    }
    assert forall n :: RoundTotal(TilesOf(In(1)), l, n, 0, 0) == l.k * 1;
    assert forall n :: RoundTotal(TilesOf(Out), l, n, 0, 0) == l.k * 0;
  }

  lemma {:induction false} RoundsCount(hw: nat, p: nat, k: nat)
    requires p > 0
    ensures (hw / p) * p + hw % p == hw
    ensures (hw / p) * k + (if hw % p != 0 then k else 0) == CeilDiv(hw, p) * k
  {
    var n, r := hw / p, hw % p;
    if r == 0 {
      DivisionUnique(hw + p - 1, p, n, p - 1);
    } else {
      assert hw + p - 1 == (n + 1) * p + (r - 1);
      DivisionUnique(hw + p - 1, p, n + 1, r - 1);
      assert (n + 1) * k == n * k + k;
    }
  }

  // ----- convolutions: exactly when each tile is transferred once -----

  /** The tensor is transferred as one gapless row of exactly `n` tiles of size `z`. */
  ghost predicate Once(m: Machine, ops: seq<Op>, start: Start, slot: Slot, z: nat, n: nat) {
    Extents(Keep(DataFor(slot), Trace(m, ops, start))) == Tiling(start(slot), z, n)
  }

  lemma {:induction false} OnceExactlyWhen(m: Machine, ops: seq<Op>, start: Start, slot: Slot, z: nat, n: nat)
    requires All(SizeIs(slot, z), ops)
    ensures Once(m, ops, start, slot, z, n) <==> Total(TilesOf(slot), ops) == n
  {
    TraceTiling(m, ops, start, slot, z);
    TilingLength(start(slot), z, Total(TilesOf(slot), ops));
    TilingLength(start(slot), z, n);
  }

  /** No inputs beyond the first two are taken for parameters unless they are. */
  predicate ParametersLast(l: Layer) {
    |l.sizes| == 2 || |l.sizes| == 3 || |l.sizes| >= 6
  }

  lemma {:induction false} WeightExtras(l: Layer, p: nat, ops: seq<Op>) returns (once: seq<Op>, each: seq<Op>)
    requires ParametersLast(l) && p > 0 && IsWeightSchedule(l, p, ops)
    ensures ops == WeightSchedule(l, p, l.h * l.w, once, each) && All(ExtraOp(), once) && All(ExtraOp(), each)
  {
    if ops == ConvWeightStationary(l, p) {
      once, each := [], Bias(l, p);
    } else if ops == ConvWeightReduction(l, p) {
      once, each := BiasOnce(l, l.sizes), [];
    } else {
      LastInputsExtra(l, p, 4);
      once, each := [], FusedBias(l, p) + LastInputs(l, p, 4);
    }
  }

  lemma {:induction false} WeightSizes(l: Layer, p: nat, ops: seq<Op>)
    requires ParametersLast(l) && p > 0 && l.out == Out && IsWeightSchedule(l, p, ops)
    ensures All(SizeIs(In(0), l.sizes[0]), ops) && All(SizeIs(In(1), l.sizes[1]), ops)
    ensures All(SizeIs(Out, l.outSize), ops)
  {
    var once, each := WeightExtras(l, p, ops);
    AllWeight(SizeIs(In(0), l.sizes[0]), l, p, l.h * l.w, once, each);
    AllWeight(SizeIs(In(1), l.sizes[1]), l, p, l.h * l.w, once, each);
    AllWeight(SizeIs(Out, l.outSize), l, p, l.h * l.w, once, each);
  }

  /** A count decides coverage. */
  lemma {:induction false} CountDecides(m: Machine, ops: seq<Op>, start: Start, slot: Slot, z: nat, total: nat, n: nat)
    requires All(SizeIs(slot, z), ops) && Total(TilesOf(slot), ops) == total
    ensures Once(m, ops, start, slot, z, n) <==> total == n
  {
    OnceExactlyWhen(m, ops, start, slot, z, n);
  }

  /** A weight-stationary convolution, plain, reduced or fused, reads every input tile exactly once if and only if
      there is one group of output channels, every weight exactly once if and only if the groups are whole, and
      writes every output tile exactly once if and only if they are and there is one channel. */
  lemma {:induction false} WeightCoversExactlyWhen(m: Machine, l: Layer, hw: nat, ops: seq<Op>, start: Start)
    requires m.numPE > 0 && ParametersLast(l) && l.out == Out && IsWeightSchedule(l, m.numPE, ops)
    requires l.c > 0 && hw == l.h * l.w > 0 && l.k > 0
    ensures Once(m, ops, start, In(0), l.sizes[0], InputTiles(l.c, hw)) <==> l.k / m.numPE == 1
    ensures Once(m, ops, start, In(1), l.sizes[1], WeightTiles(l.c, l.k)) <==> l.k % m.numPE == 0
    ensures Once(m, ops, start, Out, l.outSize, OutputTiles(l.k, hw)) <==> l.c == 1 && l.k % m.numPE == 0
  {
    var p, q := m.numPE, l.k / m.numPE;
    var once, each := WeightExtras(l, p, ops);
    WeightTileCounts(l, p, hw, once, each);
    WeightSizes(l, p, ops);
    CountDecides(m, ops, start, In(0), l.sizes[0], InRounds(q, l.c, hw), InputTiles(l.c, hw));
    CountDecides(m, ops, start, In(1), l.sizes[1], InRounds(q, l.c, p), WeightTiles(l.c, l.k));
    CountDecides(m, ops, start, Out, l.outSize, InRounds(q, l.c, OutputTiles(hw, p)), OutputTiles(l.k, hw));
    InputGroups(q, l.c, hw);
    WeightGroups(l.k, p, l.c);
    OutputGroups(l.k, p, l.c, hw);
  }

  lemma {:induction false} InputGroups(q: nat, c: nat, hw: nat)
    requires c > 0 && hw > 0
    ensures InRounds(q, c, hw) == InputTiles(c, hw) <==> q == 1
  {
    var n := c * hw;
    assert n > 0;
    if q >= 2 {
      MulAtLeast(q - 1, n);
      assert q * n == (q - 1) * n + n;
    }
  }

  lemma {:induction false} WeightGroups(k: nat, p: nat, c: nat)
    requires p > 0 && c > 0
    ensures InRounds(k / p, c, p) == WeightTiles(c, k) <==> k % p == 0
  {
    var q, r := k / p, k % p;
    assert k == q * p + r;
    assert c * k == q * (c * p) + c * r;
    if r > 0 {
      MulAtLeast(c, r);
    }
  }

  lemma {:induction false} OutputGroups(k: nat, p: nat, c: nat, hw: nat)
    requires p > 0 && c > 0 && hw > 0 && k > 0
    ensures InRounds(k / p, c, OutputTiles(hw, p)) == OutputTiles(k, hw) <==> c == 1 && k % p == 0
  {
    var q, r := k / p, k % p;
    var g := q * p;
    assert k == g + r;
    assert q * (c * (hw * p)) == (c * g) * hw;
    CancelFactor(c * g, k, hw);
    GroupsFill(q, p, r, c);
  }

  lemma {:induction false} GroupsFill(q: nat, p: nat, r: nat, c: nat)
    requires r < p && c > 0 && q * p + r > 0
    ensures c * (q * p) == q * p + r <==> c == 1 && r == 0
  {
    var g := q * p;
    assert c * g == (c - 1) * g + g;
    if c > 1 && q > 0 {
      MulAtLeast(q, p);
      MulAtLeast(c - 1, g);
    } else if q == 0 {
      assert g == 0;
    }
  }

  lemma {:induction false} CancelFactor(a: nat, b: nat, f: nat)
    requires f > 0
    ensures a * f == b * f <==> a == b
  {
    if a > b {
      MulAtLeast(a - b, f);
      assert a * f == b * f + (a - b) * f;
    } else if a < b {
      MulAtLeast(b - a, f);
      assert b * f == a * f + (b - a) * f;
    }
  }

  lemma {:induction false} OutputExtras(l: Layer, p: nat, ops: seq<Op>)
    returns (once: seq<Op>, each: seq<Op>, before: seq<Op>, eachLast: seq<Op>)
    requires ParametersLast(l) && p > 0 && IsOutputSchedule(l, p, ops)
    ensures ops == OutputSchedule(l, p, l.h * l.w, once, each, before, eachLast) && All(ExtraOp(), once)
    ensures All(ExtraOp(), each) && All(ExtraOp(), before) && All(ExtraOp(), eachLast)
  {
    if ops == ConvOutputStationary(l, p) {
      once, each, before, eachLast := [], Bias(l, p), Bias(l, (l.h * l.w) % p), Bias(l, p);
    } else if (|l.sizes| > 2 ==> |l.original| > 2) && ops == ConvOutputReduction(l, p) {
      once, each, before, eachLast := BiasOnce(l, l.original), [], Bias(l, (l.h * l.w) % p), [];
    } else {
      FusedExtras(l, p);
      once, each := [], FusedBias(l, p) + LastInputs(l, p, 4);
      before, eachLast := FusedBias(l, p), Bias(l, p) + LastInputs(l, p, 4);
    }
  }

  lemma {:induction false} FusedExtras(l: Layer, p: nat)
    requires |l.sizes| >= 6
    ensures All(ExtraOp(), FusedBias(l, p) + LastInputs(l, p, 4)) && All(ExtraOp(), FusedBias(l, p))
    ensures All(ExtraOp(), Bias(l, p) + LastInputs(l, p, 4))
  {
    LastInputsExtra(l, p, 4);
  }

  lemma {:induction false} OutputSizes(l: Layer, p: nat, ops: seq<Op>)
    requires ParametersLast(l) && p > 0 && l.out == Out && IsOutputSchedule(l, p, ops)
    ensures All(SizeIs(In(0), l.sizes[0]), ops) && All(SizeIs(In(1), l.sizes[1]), ops)
    ensures All(SizeIs(Out, l.outSize), ops)
  {
    var once, each, before, eachLast := OutputExtras(l, p, ops);
    AllOutput(SizeIs(In(0), l.sizes[0]), l, p, l.h * l.w, once, each, before, eachLast);
    AllOutput(SizeIs(In(1), l.sizes[1]), l, p, l.h * l.w, once, each, before, eachLast);
    AllOutput(SizeIs(Out, l.outSize), l, p, l.h * l.w, once, each, before, eachLast);
  }

  /** An output-stationary convolution, plain, reduced or fused, always reads every input tile exactly once; it reads
      every weight exactly once if and only if one round holds all positions, and writes every output tile exactly
      once if and only if there are as many as processing elements. */
  lemma {:induction false} OutputCoversExactlyWhen(m: Machine, l: Layer, hw: nat, ops: seq<Op>, start: Start)
    requires m.numPE > 0 && ParametersLast(l) && l.out == Out && IsOutputSchedule(l, m.numPE, ops)
    requires l.c > 0 && hw == l.h * l.w > 0 && l.k > 0
    ensures Once(m, ops, start, In(0), l.sizes[0], InputTiles(l.c, hw))
    ensures Once(m, ops, start, In(1), l.sizes[1], WeightTiles(l.c, l.k)) <==> hw <= m.numPE
    ensures Once(m, ops, start, Out, l.outSize, OutputTiles(l.k, hw)) <==> m.numPE == OutputTiles(l.k, hw)
  {
    var p, q := m.numPE, CeilDiv(hw, m.numPE);
    var once, each, before, eachLast := OutputExtras(l, p, ops);
    OutputTileCounts(l, p, hw, once, each, before, eachLast);
    OutputSizes(l, p, ops);
    CountDecides(m, ops, start, In(0), l.sizes[0], InputTiles(l.c, hw), InputTiles(l.c, hw));
    CountDecides(m, ops, start, In(1), l.sizes[1], InRounds(l.c, q, l.k), WeightTiles(l.c, l.k));
    CountDecides(m, ops, start, Out, l.outSize, p, OutputTiles(l.k, hw));
    WeightRounds(q, l.c, l.k);
    OneRoundExactlyWhen(hw, p);
  }

  lemma {:induction false} WeightRounds(q: nat, c: nat, k: nat)
    requires c > 0 && k > 0
    ensures InRounds(c, q, k) == WeightTiles(c, k) <==> q == 1
  {
    assert c * (q * k) == q * (c * k);
    InputGroups(q, c, k);
  }

  lemma {:induction false} OneRoundExactlyWhen(n: nat, p: nat)
    requires n > 0 && p > 0
    ensures CeilDiv(n, p) == 1 <==> n <= p
  {
    var q := CeilDiv(n, p);
    CeilDivMeaning(n, p);
    if q >= 2 {
      MulAtLeast(q - 1, p);
      assert q * p == (q - 1) * p + p;
    } else if q == 1 {
      assert q * p == p;
    }
  }

  // ----- the fused remainder -----

  lemma {:induction false} LastFourTotal(f: Op -> int, l: Layer, p: nat)
    requires |l.sizes| == 6
    ensures Total(f, LastInputs(l, p, 4)) == f(Read(In(5), l.sizes[5], p)) + f(Read(In(4), l.sizes[4], p))
                                             + f(Read(In(3), l.sizes[3], p)) + f(Read(In(2), l.sizes[2], p))
  {
    var a, b, c, d := Read(In(5), l.sizes[5], p), Read(In(4), l.sizes[4], p), Read(In(3), l.sizes[3], p),
                      Read(In(2), l.sizes[2], p);
    assert LastInputs(l, p, 1) == [a] && LastInputs(l, p, 2) == [a] + [b];
    assert LastInputs(l, p, 3) == [a] + [b] + [c] && LastInputs(l, p, 4) == [a] + [b] + [c] + [d];
    TotalOne(f, a);
    TotalOne(f, b);
    TotalOne(f, c);
    TotalOne(f, d);
    TotalConcat(f, [a], [b]);
    TotalConcat(f, [a] + [b], [c]);
    TotalConcat(f, [a] + [b] + [c], [d]);
  }

  /** With six inputs the third is the first normalisation parameter.  The remainder round takes it for a bias as
      well: it is read one tile per processing element more, for every channel and output channel. */
  lemma {:induction false} FusedSurplus(l: Layer, p: nat, hw: nat)
    requires |l.sizes| == 6 && p > 0 && l.out == Out && hw == l.h * l.w
    ensures Total(TilesOf(In(2)), ConvBatchnormOutput(l, p))
            == Total(TilesOf(In(3)), ConvBatchnormOutput(l, p)) + Surplus(l.c, l.k, p, hw)
  {
    FusedParameterTotal(In(2), l, p, hw, 2 * p);
    FusedParameterTotal(In(3), l, p, hw, p);
    SurplusRounds(l, p, hw);
  }

  function Surplus(c: nat, k: nat, p: nat, hw: nat): int
    requires p > 0
  {
    c * (if hw % p != 0 then k * p else 0)
  }

  /** The total of a parameter, given how often the remainder round reads it. */
  lemma {:induction false} FusedParameterTotal(slot: Slot, l: Layer, p: nat, hw: nat, last: nat)
    requires |l.sizes| == 6 && p > 0 && l.out == Out && hw == l.h * l.w
    requires (slot == In(2) && last == 2 * p) || (slot == In(3) && last == p)
    ensures Total(TilesOf(slot), ConvBatchnormOutput(l, p))
            == l.c * ChannelTotal(TilesOf(slot), l, p, hw, p, 0, last)
  {
    var four := LastInputs(l, p, 4);
    ParameterReads(slot, l, p);
    SixInputs(l, p);
    OutputTotals(TilesOf(slot), l, p, hw, [], four, [], Bias(l, p) + four);
  }

  lemma {:induction false} SixInputs(l: Layer, p: nat)
    requires |l.sizes| == 6 && p > 0
    ensures ConvBatchnormOutput(l, p)
            == OutputSchedule(l, p, l.h * l.w, [], LastInputs(l, p, 4), [], Bias(l, p) + LastInputs(l, p, 4))
  {
    assert FusedBias(l, p) == [] && [] + LastInputs(l, p, 4) == LastInputs(l, p, 4);
  }

  lemma {:induction false} ParameterReads(slot: Slot, l: Layer, p: nat)
    requires |l.sizes| == 6 && (slot == In(2) || slot == In(3))
    ensures Total(TilesOf(slot), LastInputs(l, p, 4)) == p
    ensures Total(TilesOf(slot), Bias(l, p) + LastInputs(l, p, 4)) == if slot == In(2) then 2 * p else p
  {
    LastFourTotal(TilesOf(slot), l, p);
    TotalOne(TilesOf(slot), Read(In(2), l.sizes[2], p));
    TotalConcat(TilesOf(slot), Bias(l, p), LastInputs(l, p, 4));
  }

  lemma {:induction false} SurplusRounds(l: Layer, p: nat, hw: nat)
    requires |l.sizes| == 6 && p > 0
    ensures l.c * ChannelTotal(TilesOf(In(2)), l, p, hw, p, 0, 2 * p)
            == l.c * ChannelTotal(TilesOf(In(3)), l, p, hw, p, 0, p) + Surplus(l.c, l.k, p, hw)
  {
    var a, b := ChannelTotal(TilesOf(In(2)), l, p, hw, p, 0, 2 * p), ChannelTotal(TilesOf(In(3)), l, p, hw, p, 0, p);
    assert l.k * (2 * p) == l.k * p + l.k * p;
    assert a == b + if hw % p != 0 then l.k * p else 0;
  }

  /** The two parameters are read equally often if and only if there is no remainder round, or nothing to do in it. */
  lemma {:induction false} FusedParametersExactlyWhen(l: Layer, p: nat, hw: nat)
    requires |l.sizes| == 6 && p > 0 && l.out == Out && hw == l.h * l.w
    ensures Total(TilesOf(In(2)), ConvBatchnormOutput(l, p)) == Total(TilesOf(In(3)), ConvBatchnormOutput(l, p)) <==>
            hw % p == 0 || l.c * l.k == 0
  {
    FusedSurplus(l, p, hw);
    NoSurplus(l.c, l.k, p, hw);
  }

  lemma {:induction false} NoSurplus(c: nat, k: nat, p: nat, hw: nat)
    requires p > 0
    ensures Surplus(c, k, p, hw) == 0 <==> hw % p == 0 || c * k == 0
  {
    if hw % p != 0 {
      assert c * (k * p) == (c * k) * p;
      if c * k > 0 {
        MulAtLeast(c * k, p);
      }
    }
  }

  /** One tile on two processing elements: the first parameter is read four times, the second twice. */
  lemma {:induction false} FusedParameterInstance(l: Layer)
    requires l == Layer([1, 1, 1, 1, 1, 1], 1, Out, [], 1, 1, 1, 1)
    ensures Total(TilesOf(In(2)), ConvBatchnormOutput(l, 2)) == 4
    ensures Total(TilesOf(In(3)), ConvBatchnormOutput(l, 2)) == 2
  {
    FusedParameterTotal(In(2), l, 2, 1, 4);
    FusedParameterTotal(In(3), l, 2, 1, 2);
  }

  // ----- an output that shares its input's cursor -----

  function ReadsOf(slot: Slot): Traffic -> bool {
    (t: Traffic) => t.kind == READ && t.origin == For(slot)
  }

  /** Where and how much of the first input is read. */
  function ReadExtents(m: Machine, ops: seq<Op>, start: Start): seq<(int, int)> {
    Extents(Keep(ReadsOf(In(0)), Trace(m, ops, start)))
  }

  /** The same with its value named.  The trigger keeps the trace folded. */
  ghost predicate ReadsAre(m: Machine, ops: seq<Op>, start: Start, s: seq<(int, int)>) {
    forall t {:trigger Trace(m, ops, t)} :: t == start ==> s == ReadExtents(m, ops, t)
  }

  lemma {:induction false} ReadsMeaning(m: Machine, ops: seq<Op>, start: Start, s: seq<(int, int)>)
    requires ReadsAre(m, ops, start, s)
    ensures s == ReadExtents(m, ops, start)
  {
  }

  /** Where the cursors are after some operations. */
  function After(start: Start, ops: seq<Op>): Start {
    (slot: Slot) => start(slot) + Moved(ops, slot)
  }

  lemma {:induction false} MovedConcat(a: seq<Op>, b: seq<Op>, slot: Slot)
    ensures Moved(a + b, slot) == Moved(a, slot) + Moved(b, slot)
  {
    if b == [] {
      assert a + b == a;
    } else {
      var k := |b| - 1;
      MovedConcat(a, b[..k], slot);
      assert (a + b)[..|a| + k] == a + b[..k];
    }
  }

  /** The second operations' trace goes on where the first operations left the cursors. */
  ghost predicate TraceGoesOn(m: Machine, a: seq<Op>, b: seq<Op>, start: Start) {
    Trace(m, a + b, start) == Trace(m, a, start) + Trace(m, b, After(start, a))
  }

  lemma {:induction false} TraceConcat(m: Machine, a: seq<Op>, b: seq<Op>, start: Start)
    ensures TraceGoesOn(m, a, b, start)
  {
    if b == [] {
      TraceConcatNothing(m, a, start);
    } else {
      SplitLast(b);
      var init, op := b[..|b| - 1], b[|b| - 1];
      TraceConcat(m, a, init, start);
      TraceConcatStep(m, a, init, op, start);
    }
  }

  lemma {:induction false} TraceConcatNothing(m: Machine, a: seq<Op>, start: Start)
    ensures TraceGoesOn(m, a, [], start)
  {
    assert a + [] == a && Trace(m, [], After(start, a)) == [];
  }

  lemma {:induction false} TraceConcatStep(m: Machine, a: seq<Op>, b: seq<Op>, op: Op, start: Start)
    requires TraceGoesOn(m, a, b, start)
    ensures TraceGoesOn(m, a, b + [op], start)
  {
    var s, t, e := Trace(m, a, start), Trace(m, b, After(start, a)), Emit(m, op, Base(op, a + b, start));
    TraceAppend(m, a + b, op, start);
    TraceAppend(m, b, op, After(start, a));
    SameBaseAfter(a, b, op, start);
    Reassociate(a, b, [op]);
    Reassociate(s, t, e);
  }

  lemma {:induction false} SameBaseAfter(a: seq<Op>, b: seq<Op>, op: Op, start: Start)
    ensures Base(op, a + b, start) == Base(op, b, After(start, a))
  {
    if !op.Compute? {
      MovedConcat(a, b, op.slot);
    }
  }

  lemma {:induction false} ExtentsConcat(a: seq<Traffic>, b: seq<Traffic>)
    ensures Extents(a + b) == Extents(a) + Extents(b)
  {
    if b == [] {
      assert a + b == a;
    } else {
      var k := |b| - 1;
      ExtentsConcat(a, b[..k]);
      ExtentsAppend(a + b[..k], b[k]);
      ExtentsAppend(b[..k], b[k]);
      assert a + b == (a + b[..k]) + [b[k]] && b == b[..k] + [b[k]];
      Reassociate(Extents(a), Extents(b[..k]), [(b[k].addr, b[k].size)]);
    }
  }

  lemma {:induction false} ExtentsAppend(t: seq<Traffic>, x: Traffic)
    ensures Extents(t + [x]) == Extents(t) + [(x.addr, x.size)]
  {
    assert (t + [x])[..|t|] == t;
  }

  lemma {:induction false} ReadsConcat(m: Machine, a: seq<Op>, b: seq<Op>, start: Start,
                                       s: seq<(int, int)>, t: seq<(int, int)>)
    requires ReadsAre(m, a, start, s) && ReadsAre(m, b, After(start, a), t)
    ensures ReadsAre(m, a + b, start, s + t)
  {
    var x, y := Trace(m, a, start), Trace(m, b, After(start, a));
    TraceConcat(m, a, b, start);
    assert Trace(m, a + b, start) == x + y;
    KeepConcat(ReadsOf(In(0)), x, y);
    ExtentsConcat(Keep(ReadsOf(In(0)), x), Keep(ReadsOf(In(0)), y));
  }

  lemma {:induction false} BurstExtents(slot: Slot, base: int, z: int, n: nat)
    ensures Extents(Burst(READ, slot, base, z, n)) == Tiling(base, z, n)
  {
    if n > 0 {
      BurstExtents(slot, base, z, n - 1);
      var e := Burst(READ, slot, base, z, n);
      assert e[..|e| - 1] == Burst(READ, slot, base, z, n - 1);
    }
  }

  lemma {:induction false} OneReadExtents(m: Machine, z: nat, p: nat, start: Start)
    ensures ReadsAre(m, [Read(In(0), z, p)], start, Tiling(start(In(0)), z, p))
  {
    var op := Read(In(0), z, p);
    assert [op][..0] == [] && Trace(m, [], start) == [];
    var e := Burst(READ, In(0), start(In(0)), z, p);
    assert Trace(m, [op], start) == [] + e == e;
    BurstShape(READ, In(0), start(In(0)), z, p);
    KeepAll(ReadsOf(In(0)), e);
    BurstExtents(In(0), start(In(0)), z, p);
  }

  /** Operations that read nothing of the first input. */
  function OtherOp(): Op -> bool {
    (op: Op) => op.Compute? || op.Write? || op.slot != In(0)
  }

  lemma {:induction false} NoReads(m: Machine, ops: seq<Op>, start: Start)
    requires All(OtherOp(), ops)
    ensures ReadsAre(m, ops, start, [])
  {
    if ops == [] {
      assert Trace(m, ops, start) == [];
    } else {
      SplitLast(ops);
      var init, op := ops[..|ops| - 1], ops[|ops| - 1];
      NoReads(m, init, start);
      NoReadOne(m, op, After(start, init));
      var none: seq<(int, int)> := [];
      ReadsConcat(m, init, [op], start, none, none);
      assert none + none == none;
    }
  }

  lemma {:induction false} NoReadOne(m: Machine, op: Op, start: Start)
    requires OtherOp()(op)
    ensures ReadsAre(m, [op], start, [])
  {
    assert [op][..0] == [] && Trace(m, [], start) == [];
    var e := Emit(m, op, Base(op, [], start));
    assert Trace(m, [op], start) == [] + e == e;
    NoReadEmitted(m, op, Base(op, [], start));
  }

  lemma {:induction false} NoReadEmitted(m: Machine, op: Op, base: int)
    requires OtherOp()(op)
    ensures Keep(ReadsOf(In(0)), Emit(m, op, base)) == []
  {
    EmitOrigin(m, op, base);
    if op.Write? {
      BurstShape(WRITE, op.slot, base, op.size, op.n);
    }
    KeepNone(ReadsOf(In(0)), Emit(m, op, base));
  }

  /** One round of an element-wise operator. */
  function ElementBody(l: Layer, p: nat, n: nat): seq<Op> {
    ReadEach(l.sizes, 0, |l.sizes|, p) + [Compute(n), Write(l.out, l.outSize, n)]
  }

  lemma {:induction false} EachOther(sizes: seq<nat>, hi: nat, p: nat)
    requires hi <= |sizes|
    ensures forall op :: op in ReadEach(sizes, 1, hi, p) ==> op.Read? && op.slot != In(0)
    ensures All(OtherOp(), ReadEach(sizes, 1, hi, p))
    ensures Moved(ReadEach(sizes, 1, hi, p), In(0)) == 0
  {
    if hi > 1 {
      EachOther(sizes, hi - 1, p);
      MovedAppend(ReadEach(sizes, 1, hi - 1, p), Read(In(hi - 1), sizes[hi - 1], p), In(0));
    }
  }

  lemma {:induction false} BodyParts(l: Layer, p: nat, n: nat)
    requires |l.sizes| >= 1
    ensures ElementBody(l, p, n)
            == [Read(In(0), l.sizes[0], p)]
               + (ReadEach(l.sizes, 1, |l.sizes|, p) + [Compute(n), Write(l.out, l.outSize, n)])
  {
    FirstRead(l.sizes, |l.sizes|, p);
  }

  /** A round reads one stretch of the first input. */
  lemma {:induction false} SharedRoundReads(m: Machine, l: Layer, p: nat, n: nat, start: Start)
    requires |l.sizes| >= 1
    ensures ReadsAre(m, ElementBody(l, p, n), start, Tiling(start(In(0)), l.sizes[0], p))
  {
    BodyParts(l, p, n);
    EachOther(l.sizes, |l.sizes|, p);
    ReadThenOthers(m, l.sizes[0], p, ReadEach(l.sizes, 1, |l.sizes|, p) + [Compute(n), Write(l.out, l.outSize, n)],
                   start);
  }

  lemma {:induction false} ReadThenOthers(m: Machine, z: nat, p: nat, others: seq<Op>, start: Start)
    requires All(OtherOp(), others)
    ensures ReadsAre(m, [Read(In(0), z, p)] + others, start, Tiling(start(In(0)), z, p))
  {
    var first, t := [Read(In(0), z, p)], Tiling(start(In(0)), z, p);
    OneReadExtents(m, z, p, start);
    NoReads(m, others, After(start, first));
    ReadsConcat(m, first, others, start, t, []);
    assert t + [] == t;
  }

  /** With a shared cursor it leaves the cursor behind what it has written as well. */
  lemma {:induction false} SharedRoundMoves(l: Layer, p: nat, n: nat)
    requires |l.sizes| >= 1 && l.out == In(0) && l.outSize == l.sizes[0]
    ensures Moved(ElementBody(l, p, n), In(0)) == p * l.sizes[0] + n * l.sizes[0]
  {
    var z, each := l.sizes[0], ReadEach(l.sizes, 1, |l.sizes|, p);
    BodyParts(l, p, n);
    EachOther(l.sizes, |l.sizes|, p);
    MovedConcat([Read(In(0), z, p)], each + [Compute(n), Write(In(0), z, n)], In(0));
    MovedConcat(each, [Compute(n), Write(In(0), z, n)], In(0));
    MovedOne(Read(In(0), z, p));
    MovedOne(Compute(n));
    MovedOne(Write(In(0), z, n));
    MovedConcat([Compute(n)], [Write(In(0), z, n)], In(0));
    assert [Compute(n)] + [Write(In(0), z, n)] == [Compute(n), Write(In(0), z, n)];
  }

  lemma {:induction false} MovedOne(op: Op)
    ensures Moved([op], In(0)) == Step(op, In(0))
  {
    assert [op][..0] == [];
  }

  lemma {:induction false} RepFirst(n: nat, body: seq<Op>)
    ensures Rep(n + 1, body) == body + Rep(n, body)
  {
    if n == 0 {
      assert Rep(1, body) == Rep(0, body) + body;
    } else {
      RepFirst(n - 1, body);
      assert body + Rep(n - 1, body) + body == body + (Rep(n - 1, body) + body);
    }
  }

  /** Unless one full round does it, a second round follows the first. */
  lemma {:induction false} SecondRound(l: Layer, p: nat, n: nat) returns (k: nat, rest: seq<Op>)
    requires |l.sizes| >= 1 && p > 0 && n > 0 && n != p
    ensures ElementWise(l, p, n) == ElementBody(l, p, p) + (ElementBody(l, p, k) + rest)
  {
    var q, r, body := CeilDiv(n, p), n % p, ElementBody(l, p, p);
    var tail := if r != 0 then ElementBody(l, p, r) else [];
    assert ElementWise(l, p, n) == Rep(q, body) + tail;
    OneRoundExactlyWhen(n, p);
    CeilDivMeaning(n, p);
    RepFirst(q - 1, body);
    if q == 1 {
      k, rest := r, [];
      assert Rep(0, body) == [] && r != 0 by { DivisionUnique(n, p, 0, n); }
      assert body + [] + tail == body + (tail + []);
    } else {
      RepFirst(q - 2, body);
      k, rest := p, Rep(q - 2, body) + tail;
      assert body + (body + Rep(q - 2, body)) + tail == body + (body + (Rep(q - 2, body) + tail));
    }
  }

  ghost predicate OneTiling(s: seq<(int, int)>) {
    exists a, z, n: nat :: s == Tiling(a, z, n)
  }

  lemma {:induction false} TilingAt(a: int, z: int, n: nat, i: nat)
    requires i < n
    ensures |Tiling(a, z, n)| == n && Tiling(a, z, n)[i] == (a + i * z, z)
  {
    TilingLength(a, z, n);
    if i < n - 1 {
      TilingAt(a, z, n - 1, i);
    } else {
      TilingLength(a, z, n - 1);
    }
  }

  lemma {:induction false} GapBreaks(a: int, b: int, z: int, p: nat, s: seq<(int, int)>)
    requires p > 0 && b != a + p * z && |s| > p
    requires s[0] == (a, z) && s[p] == (b, z)
    ensures !OneTiling(s)
  {
    if a', z', n: nat :| s == Tiling(a', z', n) {
      TilingLength(a', z', n);
      TilingAt(a', z', n, 0);
      TilingAt(a', z', n, p);
    }
  }

  /** The second round's reads start where the first round's writes end. */
  lemma {:induction false} TwoRounds(m: Machine, l: Layer, p: nat, k: nat, rest: seq<Op>, start: Start)
    returns (s: seq<(int, int)>)
    requires |l.sizes| >= 1 && l.out == In(0) && l.outSize == l.sizes[0]
    ensures var z, a := l.sizes[0], start(In(0));
            ReadsAre(m, ElementBody(l, p, p) + (ElementBody(l, p, k) + rest), start,
                     Tiling(a, z, p) + (Tiling(a + (p * z + p * z), z, p) + s))
  {
    var z, first, second := l.sizes[0], ElementBody(l, p, p), ElementBody(l, p, k);
    var next := After(start, first);
    SharedRoundReads(m, l, p, p, start);
    SharedRoundMoves(l, p, p);
    SharedRoundReads(m, l, p, k, next);
    s := ReadExtents(m, rest, After(next, second));
    ReadsConcat(m, second, rest, next, Tiling(next(In(0)), z, p), s);
    ReadsConcat(m, first, second + rest, start, Tiling(start(In(0)), z, p), Tiling(next(In(0)), z, p) + s);
  }

  lemma {:induction false} Joined(a: int, b: int, z: int, p: nat, s: seq<(int, int)>)
    requires p > 0
    ensures var t := Tiling(a, z, p) + (Tiling(b, z, p) + s);
            |t| > p && t[0] == (a, z) && t[p] == (b, z)
  {
    TilingAt(a, z, p, 0);
    TilingAt(b, z, p, 0);
  }

  lemma {:induction false} SharedGap(m: Machine, l: Layer, p: nat, n: nat, start: Start)
    requires |l.sizes| >= 1 && p > 0 && n > 0 && n != p && l.out == In(0) && l.outSize == l.sizes[0] > 0
    ensures !OneTiling(ReadExtents(m, ElementWise(l, p, n), start))
  {
    var z, a := l.sizes[0], start(In(0));
    var b := a + (p * z + p * z);
    var k, rest := SecondRound(l, p, n);
    var s := TwoRounds(m, l, p, k, rest, start);
    MulAtLeast(p, z);
    Joined(a, b, z, p, s);
    var t := Tiling(a, z, p) + (Tiling(b, z, p) + s);
    GapBreaks(a, b, z, p, t);
    ReadsMeaning(m, ElementWise(l, p, n), start, t);
  }

  lemma {:induction false} SharedOneRound(m: Machine, l: Layer, p: nat, start: Start)
    requires |l.sizes| >= 1 && p > 0
    ensures OneTiling(ReadExtents(m, ElementWise(l, p, p), start))
  {
    var body := ElementBody(l, p, p);
    DivisionUnique(p, p, 1, 0);
    OneRoundExactlyWhen(p, p);
    assert Rep(0, body) == [] && Rep(1, body) == [] + body;
    assert ElementWise(l, p, p) == body;
    SharedRoundReads(m, l, p, p, start);
  }

  /** Operations that transfer nothing but empty tiles of the first input, and do not broadcast it. */
  function EmptyOps(): Op -> bool {
    (op: Op) => op.Compute? || op.slot != In(0) || (op.size == 0 && !op.Broadcast?)
  }

  lemma {:induction false} EmptyMoves(ops: seq<Op>)
    requires All(EmptyOps(), ops)
    ensures Moved(ops, In(0)) == 0
  {
    if ops != [] {
      EmptyMoves(ops[..|ops| - 1]);
    }
  }

  /** The reads are `n` empty tiles, all at the same place. */
  ghost predicate EmptyReads(m: Machine, ops: seq<Op>, start: Start, n: nat) {
    ReadsAre(m, ops, start, Tiling(start(In(0)), 0, n))
  }

  /** Tiles of size zero never move the cursor, so nothing can come apart. */
  lemma {:induction false} EmptyTiles(m: Machine, ops: seq<Op>, start: Start) returns (n: nat)
    requires All(EmptyOps(), ops)
    ensures EmptyReads(m, ops, start, n)
  {
    if ops == [] {
      n := 0;
      assert Trace(m, ops, start) == [] && Tiling(start(In(0)), 0, 0) == [];
    } else {
      SplitLast(ops);
      var init, op := ops[..|ops| - 1], ops[|ops| - 1];
      var i := EmptyTiles(m, init, start);
      n := EmptyTilesStep(m, init, op, start, i);
    }
  }

  lemma {:induction false} EmptyTilesStep(m: Machine, ops: seq<Op>, op: Op, start: Start, i: nat) returns (n: nat)
    requires All(EmptyOps(), ops) && EmptyOps()(op) && EmptyReads(m, ops, start, i)
    ensures EmptyReads(m, ops + [op], start, n)
  {
    var j := EmptyOp(m, op, After(start, ops));
    EmptyMoves(ops);
    TilingJoins(start(In(0)), i, j);
    n := i + j;
    ReadsConcat(m, ops, [op], start, Tiling(start(In(0)), 0, i), Tiling(start(In(0)), 0, j));
  }

  lemma {:induction false} EmptyOp(m: Machine, op: Op, start: Start) returns (j: nat)
    requires EmptyOps()(op)
    ensures ReadsAre(m, [op], start, Tiling(start(In(0)), 0, j))
  {
    if op.Read? && op.slot == In(0) {
      OneReadExtents(m, 0, op.n, start);
      j := op.n;
    } else {
      NoReads(m, [op], start);
      j := 0;
    }
  }

  lemma {:induction false} TilingJoins(a: int, n: nat, j: nat)
    ensures Tiling(a, 0, n) + Tiling(a, 0, j) == Tiling(a, 0, n + j)
  {
    if j > 0 {
      TilingJoins(a, n, j - 1);
      Reassociate(Tiling(a, 0, n), Tiling(a, 0, j - 1), [(a, 0)]);
    } else {
      assert Tiling(a, 0, n) + [] == Tiling(a, 0, n);
    }
  }

  lemma {:induction false} ElementsEmpty(l: Layer, p: nat, n: nat)
    requires |l.sizes| >= 1 && p > 0 && l.out == In(0) && l.outSize == l.sizes[0] == 0
    ensures All(EmptyOps(), ElementWise(l, p, n))
  {
    EachOther(l.sizes, |l.sizes|, p);
    BodyParts(l, p, p);
    BodyParts(l, p, n % p);
    AllRep(EmptyOps(), CeilDiv(n, p), ElementBody(l, p, p));
  }

  /** Where the output shares its input's cursor, the reads of an element-wise operator form one gapless row if and
      only if the tiles are empty, there is nothing to do, or one full round does it. */
  lemma {:induction false} SharedReadsExactlyWhen(m: Machine, l: Layer, n: nat, start: Start)
    requires m.numPE > 0 && |l.sizes| >= 1 && l.out == In(0) && l.outSize == l.sizes[0]
    ensures OneTiling(ReadExtents(m, ElementWise(l, m.numPE, n), start)) <==>
            l.outSize == 0 || n == 0 || n == m.numPE
  {
    var p := m.numPE;
    if l.outSize == 0 {
      ElementsEmpty(l, p, n);
      var k := EmptyTiles(m, ElementWise(l, p, n), start);
    } else if n == 0 {
      DivisionUnique(p - 1, p, 0, p - 1);
      assert ElementWise(l, p, n) == [] && ReadExtents(m, [], start) == Tiling(0, 0, 0);
    } else if n == p {
      SharedOneRound(m, l, p, start);
    } else {
      SharedGap(m, l, p, n, start);
    }
  }

  lemma {:induction false} UnitTiles(a: int)
    ensures Tiling(a, 1, 1) == [(a, 1)]
  {
    TilingAt(a, 1, 1, 0);
  }

  lemma {:induction false} TwoParts(l: Layer)
    ensures ElementWise(l, 1, 2) == ElementBody(l, 1, 1) + ElementBody(l, 1, 1)
  {
    var body := ElementBody(l, 1, 1);
    assert CeilDiv(2, 1) == 2;
    assert Rep(2, body) == Rep(1, body) + body && Rep(1, body) == Rep(0, body) + body && Rep(0, body) == [];
    assert [] + body == body;
  }

  /** Two parts on one processing element: the second read skips the place the first result is written to. */
  lemma {:induction false} SharedReadsInstance(m: Machine, l: Layer, start: Start)
    requires m.numPE == 1 && l == Layer([1], 1, In(0), [], 1, 1, 1, 1)
    ensures ReadExtents(m, ElementWise(l, 1, 2), start) == [(start(In(0)), 1), (start(In(0)) + 2, 1)]
    ensures !OneTiling(ReadExtents(m, ElementWise(l, 1, 2), start))
  {
    var a, body := start(In(0)), ElementBody(l, 1, 1);
    TwoParts(l);
    SharedRoundReads(m, l, 1, 1, start);
    SharedRoundMoves(l, 1, 1);
    SharedRoundReads(m, l, 1, 1, After(start, body));
    UnitTiles(a);
    UnitTiles(a + 2);
    ReadsConcat(m, body, body, start, [(a, 1)], [(a + 2, 1)]);
    ReadsMeaning(m, ElementWise(l, 1, 2), start, [(a, 1)] + [(a + 2, 1)]);
    SharedGap(m, l, 1, 2, start);
  }

  // ----- what is transferred -----

  /** The operation writes output tiles to the output, or reads tiles of an input; broadcasts of inputs from
      `whole` on transfer them in their original size. */
  function OfLayer(l: Layer, whole: nat): Op -> bool {
    (op: Op) =>
      match op
      case Compute(_) => true
      case Write(slot, size, _) => slot == l.out && size == l.outSize
      case Read(slot, size, _) => slot.In? && slot.j < |l.sizes| && size == l.sizes[slot.j]
      case Broadcast(slot, size) =>
        && slot.In? && slot.j < |l.sizes|
        && (if slot.j < whole then size == l.sizes[slot.j]
            else slot.j < |l.original| && size == l.original[slot.j])
  }

  lemma {:induction false} LastInputsOfLayer(l: Layer, whole: nat, n: nat, i: nat)
    requires i <= |l.sizes|
    ensures All(OfLayer(l, whole), LastInputs(l, n, i))
  {
    if i > 0 {
      LastInputsOfLayer(l, whole, n, i - 1);
    }
  }

  lemma {:induction false} ReadEachOfLayer(l: Layer, whole: nat, lo: nat, hi: nat, n: nat)
    requires hi <= |l.sizes|
    ensures All(OfLayer(l, whole), ReadEach(l.sizes, lo, hi, n))
  {
    if hi > lo {
      ReadEachOfLayer(l, whole, lo, hi - 1, n);
    }
  }

  lemma {:induction false} BroadcastEachOfLayer(l: Layer, hi: nat)
    requires hi <= |l.sizes|
    ensures All(OfLayer(l, |l.sizes|), BroadcastEach(l.sizes, 1, hi))
  {
    if hi > 1 {
      BroadcastEachOfLayer(l, hi - 1);
    }
  }

  lemma {:induction false} BroadcastWholeOfLayer(l: Layer, whole: nat, hi: nat)
    requires hi <= |l.original| <= |l.sizes| && whole <= 1
    ensures All(OfLayer(l, whole), BroadcastEach(l.original, 1, hi))
  {
    if hi > 1 {
      BroadcastWholeOfLayer(l, whole, hi - 1);
    }
  }

  /** Weight-stationary convolutions transfer tiles only, each of its tensor's size. */
  lemma {:induction false} WeightTransfers(l: Layer, p: nat, ops: seq<Op>)
    requires |l.sizes| >= 2 && p > 0 && IsWeightSchedule(l, p, ops)
    ensures All(OfLayer(l, |l.sizes|), ops)
  {
    var q, hw := OfLayer(l, |l.sizes|), l.h * l.w;
    if ops == ConvWeightStationary(l, p) {
      AllWeight(q, l, p, hw, [], Bias(l, p));
    } else if ops == ConvWeightReduction(l, p) {
      AllWeight(q, l, p, hw, BiasOnce(l, l.sizes), []);
    } else {
      LastInputsOfLayer(l, |l.sizes|, p, 4);
      AllWeight(q, l, p, hw, [], FusedBias(l, p) + LastInputs(l, p, 4));
    }
  }

  /** So do output-stationary ones, but for the aggregated bias, which is broadcast whole. */
  lemma {:induction false} OutputTransfers(l: Layer, p: nat)
    requires |l.sizes| >= 2 && p > 0
    ensures All(OfLayer(l, |l.sizes|), ConvOutputStationary(l, p))
    ensures (|l.sizes| > 2 ==> |l.original| > 2) ==> All(OfLayer(l, 2), ConvOutputReduction(l, p))
    ensures |l.sizes| >= 4 ==> All(OfLayer(l, |l.sizes|), ConvBatchnormOutput(l, p))
  {
    var hw := l.h * l.w;
    AllOutput(OfLayer(l, |l.sizes|), l, p, hw, [], Bias(l, p), Bias(l, hw % p), Bias(l, p));
    if |l.sizes| > 2 ==> |l.original| > 2 {
      AllOutput(OfLayer(l, 2), l, p, hw, BiasOnce(l, l.original), [], Bias(l, hw % p), []);
    }
    if |l.sizes| >= 4 {
      LastInputsOfLayer(l, |l.sizes|, p, 4);
      AllOutput(OfLayer(l, |l.sizes|), l, p, hw, [], FusedBias(l, p) + LastInputs(l, p, 4), FusedBias(l, p),
                Bias(l, p) + LastInputs(l, p, 4));
    }
  }

  lemma {:induction false} RoundsTransfer(l: Layer, whole: nat, p: nat, total: nat, each: seq<Op>, last: seq<Op>)
    requires |l.sizes| >= 1 && p > 0 && All(OfLayer(l, whole), each) && All(OfLayer(l, whole), last)
    ensures All(OfLayer(l, whole), NormRounds(l, p, total, each, last))
  {
    AllRep(OfLayer(l, whole), total / p, NormTile(l, p, each));
  }

  /** So do element-wise operators and batch normalisation, but for aggregated parameters. */
  lemma {:induction false} ElementTransfers(l: Layer, p: nat, n: nat)
    requires p > 0
    ensures All(OfLayer(l, |l.sizes|), ElementWise(l, p, n))
    ensures |l.sizes| >= 1 ==> All(OfLayer(l, |l.sizes|), Batchnorm(l, p, n))
  {
    var q, fetch := OfLayer(l, |l.sizes|), ReadEach(l.sizes, 0, |l.sizes|, p);
    ReadEachOfLayer(l, |l.sizes|, 0, |l.sizes|, p);
    AllRep(q, CeilDiv(n, p), fetch + [Compute(p), Write(l.out, l.outSize, p)]);
    if |l.sizes| >= 1 {
      NormTransfers(l, p, n);
    }
  }

  lemma {:induction false} NormTransfers(l: Layer, p: nat, n: nat)
    requires p > 0 && |l.sizes| >= 1
    ensures All(OfLayer(l, |l.sizes|), Batchnorm(l, p, n))
  {
    var q, params := OfLayer(l, |l.sizes|), BroadcastEach(l.sizes, 1, |l.sizes|);
    ReadEachOfLayer(l, |l.sizes|, 1, |l.sizes|, p);
    BroadcastEachOfLayer(l, |l.sizes|);
    RoundsTransfer(l, |l.sizes|, p, l.c, ReadEach(l.sizes, 1, |l.sizes|, p), params);
    RoundsTransfer(l, |l.sizes|, p, l.h * l.w, [], []);
    AllRep(q, l.c, params + NormRounds(l, p, l.h * l.w, [], []));
    AllRep(q, CeilDiv(n, p), NormTile(l, p, []));
  }

  lemma {:induction false} AggregatedTransfers(l: Layer, p: nat)
    requires p > 0 && 1 <= |l.sizes| && |l.original| <= |l.sizes|
    ensures All(OfLayer(l, 1), BatchnormReduction(l, p))
  {
    BroadcastWholeOfLayer(l, 1, |l.original|);
    RoundsTransfer(l, 1, p, l.c * l.h * l.w, [], []);
  }

  // ----- how often the bias is read -----

  lemma {:induction false} BiasTilesIn(l: Layer, n: nat)
    requires |l.sizes| == 3
    ensures Total(TilesOf(In(2)), Bias(l, n)) == n
  {
    TotalOne(TilesOf(In(2)), Read(In(2), l.sizes[2], n));
  }

  lemma {:induction false} BiasRound(l: Layer, n: nat, before: int, each: int)
    requires |l.sizes| == 3 && l.out == Out
    ensures RoundTotal(TilesOf(In(2)), l, n, before, each) == before + l.k * each
  {
  }

  /** An output-stationary convolution reads the bias for every computation on all processing elements, and once more in
      the remainder round. */
  lemma {:induction false} OutputBiasTotal(l: Layer, p: nat, hw: nat)
    requires |l.sizes| == 3 && p > 0 && l.out == Out && hw == l.h * l.w
    ensures Total(TilesOf(In(2)), ConvOutputStationary(l, p))
            == l.c * ((hw / p) * (l.k * p) + if hw % p != 0 then hw % p + l.k * p else 0)
  {
    var f, r := TilesOf(In(2)), hw % p;
    BiasTilesIn(l, p);
    BiasTilesIn(l, r);
    BiasRound(l, p, 0, p);
    BiasRound(l, r, r, p);
    OutputTotals(f, l, p, hw, [], Bias(l, p), Bias(l, r), Bias(l, p));
  }

  /** Aggregated, it broadcasts it once and reads it in the remainder round of every channel. */
  lemma {:induction false} AggregatedBiasTotal(l: Layer, p: nat, hw: nat)
    requires |l.sizes| == 3 && |l.original| > 2 && p > 0 && l.out == Out && hw == l.h * l.w
    ensures Total(TilesOf(In(2)), ConvOutputReduction(l, p)) == 1 + l.c * (hw % p)
  {
    var f, r := TilesOf(In(2)), hw % p;
    BiasTilesIn(l, r);
    BiasRound(l, p, 0, 0);
    BiasRound(l, r, r, 0);
    TotalOne(f, Broadcast(In(2), l.original[2]));
    assert ChannelTotal(f, l, p, hw, 0, r, 0) == r;
    OutputTotals(f, l, p, hw, BiasOnce(l, l.original), [], Bias(l, r), []);
  }
}
