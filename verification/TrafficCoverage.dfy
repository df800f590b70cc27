/** Which tiles the batch normalisation and element-wise generators cover, and the well-formedness of the
    traces of all nine generators. */
module TrafficCoverage {
  import opened Arithmetic
  import opened Collections
  import opened TrafficTrace
  import opened TrafficProperties
  import opened TrafficSchedules

  // ----- batch normalisation -----

  /** What a sequence of operations does to an operator's first input and output: tiles read, computations,
      tiles written. */
  ghost predicate Counts(l: Layer, ops: seq<Op>, read: int, work: int, written: int) {
    && Total(TilesOf(In(0)), ops) == read
    && Total(WorkOf(), ops) == work
    && Total(TilesOf(l.out), ops) == written
  }

  lemma {:induction false} CountsConcat(l: Layer, a: seq<Op>, b: seq<Op>,
                                        r: int, c: int, w: int, r': int, c': int, w': int)
    requires Counts(l, a, r, c, w) && Counts(l, b, r', c', w')
    ensures Counts(l, a + b, r + r', c + c', w + w')
  {
    TotalConcat(TilesOf(In(0)), a, b);
    TotalConcat(WorkOf(), a, b);
    TotalConcat(TilesOf(l.out), a, b);
  }

  lemma {:induction false} CountsRep(l: Layer, n: nat, body: seq<Op>, r: int, c: int, w: int)
    requires Counts(l, body, r, c, w)
    ensures Counts(l, Rep(n, body), n * r, n * c, n * w)
  {
    TotalRep(TilesOf(In(0)), n, body);
    TotalRep(WorkOf(), n, body);
    TotalRep(TilesOf(l.out), n, body);
  }

  lemma {:induction false} CountsOne(l: Layer, op: Op)
    ensures Counts(l, [op], TilesOf(In(0))(op), WorkOf()(op), TilesOf(l.out)(op))
  {
    assert [op][..0] == [];
  }

  /** Reads of parameters touch neither the first input nor the output. */
  function ParamOp(): Op -> bool {
    (op: Op) => !op.Compute? && op.slot.In? && op.slot.j > 0
  }

  lemma {:induction false} CountsParams(l: Layer, ops: seq<Op>)
    requires l.out == Out && All(ParamOp(), ops)
    ensures Counts(l, ops, 0, 0, 0)
  {
    if ops != [] {
      CountsParams(l, ops[..|ops| - 1]);
    }
  }

  lemma {:induction false} EachIsParam(sizes: seq<nat>, hi: nat, n: nat)
    requires hi <= |sizes|
    ensures All(ParamOp(), ReadEach(sizes, 1, hi, n)) && All(ParamOp(), BroadcastEach(sizes, 1, hi))
  {
    if hi > 1 {
      EachIsParam(sizes, hi - 1, n);
    }
  }

  lemma {:induction false} NormTileCounts(l: Layer, n: nat, params: seq<Op>)
    requires |l.sizes| >= 1 && l.out == Out && All(ParamOp(), params)
    ensures Counts(l, NormTile(l, n, params), n, n, n)
  {
    CountsOne(l, Read(In(0), l.sizes[0], n));
    CountsParams(l, params);
    CountsConcat(l, [Read(In(0), l.sizes[0], n)], params, n, 0, 0, 0, 0, 0);
    WorkCounts(l, n);
    CountsConcat(l, [Read(In(0), l.sizes[0], n)] + params, [Compute(n), Write(l.out, l.outSize, n)], n, 0, 0, 0, n, n);
  }

  lemma {:induction false} WorkCounts(l: Layer, n: nat)
    requires l.out == Out
    ensures Counts(l, [Compute(n), Write(l.out, l.outSize, n)], 0, n, n)
  {
    CountsOne(l, Compute(n));
    CountsOne(l, Write(l.out, l.outSize, n));
    CountsConcat(l, [Compute(n)], [Write(l.out, l.outSize, n)], 0, n, 0, 0, 0, n);
    assert [Compute(n), Write(l.out, l.outSize, n)] == [Compute(n)] + [Write(l.out, l.outSize, n)];
  }

  lemma {:induction false} NormRoundsCounts(l: Layer, p: nat, total: nat, each: seq<Op>, last: seq<Op>)
    requires |l.sizes| >= 1 && p > 0 && l.out == Out && All(ParamOp(), each) && All(ParamOp(), last)
    ensures Counts(l, NormRounds(l, p, total, each, last), total, total, total)
  {
    var n, r := total / p, total % p;
    NormTileCounts(l, p, each);
    NormTileCounts(l, r, last);
    CountsRep(l, n, NormTile(l, p, each), p, p, p);
    var rest := if r != 0 then NormTile(l, r, last) else [];
    assert Counts(l, rest, r, r, r);
    CountsConcat(l, Rep(n, NormTile(l, p, each)), rest, n * p, n * p, n * p, r, r, r);
    assert total == n * p + r;
  }

  /** The number of parts the input is split into. */
  function Parts(l: Layer): nat {
    l.c * l.h * l.w
  }

  predicate SplitsChannelsOnly(l: Layer) {
    l.c > 1 && l.h == 1 && l.w == 1
  }

  predicate SplitsAll(l: Layer) {
    l.c > 1 && l.h != 1 && l.w != 1
  }

  lemma {:induction false} BatchnormSplitCounts(l: Layer, p: nat, subgraphs: nat)
    requires |l.sizes| >= 1 && p > 0 && l.out == Out && (SplitsChannelsOnly(l) || SplitsAll(l))
    ensures Counts(l, Batchnorm(l, p, subgraphs), Parts(l), Parts(l), Parts(l))
  {
    var params, hw := BroadcastEach(l.sizes, 1, |l.sizes|), l.h * l.w;
    EachIsParam(l.sizes, |l.sizes|, p);
    if SplitsChannelsOnly(l) {
      NormRoundsCounts(l, p, l.c, ReadEach(l.sizes, 1, |l.sizes|, p), params);
    } else {
      NormRoundsCounts(l, p, hw, [], []);
      CountsParams(l, params);
      CountsConcat(l, params, NormRounds(l, p, hw, [], []), 0, 0, 0, hw, hw, hw);
      CountsRep(l, l.c, params + NormRounds(l, p, hw, [], []), hw, hw, hw);
      MulAssociates(l.c, l.h, l.w);
    }
  }

  lemma {:induction false} BatchnormReductionCounts(l: Layer, p: nat)
    requires 1 <= |l.sizes| && |l.original| <= |l.sizes| && p > 0 && l.out == Out
    ensures Counts(l, BatchnormReduction(l, p), Parts(l), Parts(l), Parts(l))
  {
    var params := BroadcastEach(l.original, 1, |l.original|);
    EachIsParam(l.original, |l.original|, p);
    CountsParams(l, params);
    NormRoundsCounts(l, p, Parts(l), [], []);
    CountsConcat(l, params, NormRounds(l, p, Parts(l), [], []), 0, 0, 0, Parts(l), Parts(l), Parts(l));
  }

  /** Without a split of the channels, a full round more than the remainder needs is read. */
  lemma {:induction false} BatchnormUnsplitCounts(l: Layer, p: nat, subgraphs: nat)
    requires |l.sizes| >= 1 && p > 0 && l.out == Out && l.c == 1
    ensures var rounds, r := CeilDiv(subgraphs, p) * p, subgraphs % p;
            Counts(l, Batchnorm(l, p, subgraphs), if r != 0 then rounds + p else rounds, rounds + r, rounds + r)
  {
    var params := BroadcastEach(l.sizes, 1, |l.sizes|);
    var n, r := CeilDiv(subgraphs, p), subgraphs % p;
    EachIsParam(l.sizes, |l.sizes|, p);
    CountsParams(l, params);
    NormTileCounts(l, p, []);
    CountsRep(l, n, NormTile(l, p, []), p, p, p);
    CountsConcat(l, params, Rep(n, NormTile(l, p, [])), 0, 0, 0, n * p, n * p, n * p);
    var a, b := [Read(In(0), l.sizes[0], p)], [Compute(r), Write(l.out, l.outSize, r)];
    CountsOne(l, Read(In(0), l.sizes[0], p));
    WorkCounts(l, r);
    CountsConcat(l, a, b, p, 0, 0, 0, r, r);
    var rest := if r != 0 then a + b else [];
    assert a + b == [Read(In(0), l.sizes[0], p), Compute(r), Write(l.out, l.outSize, r)];
    assert Counts(l, rest, if r != 0 then p else 0, r, r);
    CountsConcat(l, params + Rep(n, NormTile(l, p, [])), rest, n * p, n * p, n * p,
                 if r != 0 then p else 0, r, r);
  }

  // ----- coverage -----

  function Reads(m: Machine, ops: seq<Op>, start: Start): seq<(int, int)> {
    Extents(Keep(DataFor(In(0)), Trace(m, ops, start)))
  }

  function Writes(m: Machine, ops: seq<Op>, start: Start): seq<(int, int)> {
    Extents(Keep(DataFor(Out), Trace(m, ops, start)))
  }

  /** The first input is read and the output written as one gapless row of exactly `n` tiles, with `n`
      computations. */
  ghost predicate Covers(m: Machine, l: Layer, ops: seq<Op>, start: Start, n: nat)
    requires |l.sizes| >= 1
  {
    && Reads(m, ops, start) == Tiling(start(In(0)), l.sizes[0], n)
    && Writes(m, ops, start) == Tiling(start(Out), l.outSize, n)
    && Computations(m, ops, start) == n
  }

  /** The first input and the output are always transferred in tiles of one size. */
  function TileSizes(z: nat, outZ: nat): Op -> bool {
    (op: Op) => op.Compute? || ((op.slot == In(0) ==> op.size == z) && (op.slot == Out ==> op.size == outZ))
  }

  lemma {:induction false} TilingLength(a: int, z: int, n: nat)
    ensures |Tiling(a, z, n)| == n
  {
    if n > 0 {
      TilingLength(a, z, n - 1);
    }
  }

  lemma {:induction false} CoversExactlyWhen(m: Machine, l: Layer, ops: seq<Op>, start: Start,
                                             r: int, c: int, w: int, n: nat)
    requires |l.sizes| >= 1 && l.out == Out && All(TileSizes(l.sizes[0], l.outSize), ops) && Counts(l, ops, r, c, w)
    ensures Covers(m, l, ops, start, n) <==> r == n && c == n && w == n
  {
    assert All(SizeIs(In(0), l.sizes[0]), ops) && All(SizeIs(Out, l.outSize), ops);
    TraceTiling(m, ops, start, In(0), l.sizes[0]);
    TraceTiling(m, ops, start, Out, l.outSize);
    TraceWork(m, ops, start);
    TilingLength(start(In(0)), l.sizes[0], r);
    TilingLength(start(In(0)), l.sizes[0], n);
    TilingLength(start(Out), l.outSize, w);
    TilingLength(start(Out), l.outSize, n);
  }

  lemma {:induction false} ParamSizes(l: Layer, ops: seq<Op>)
    requires |l.sizes| >= 1 && All(ParamOp(), ops)
    ensures All(TileSizes(l.sizes[0], l.outSize), ops)
  {
  }

  lemma {:induction false} NormRoundsSizes(l: Layer, p: nat, total: nat, each: seq<Op>, last: seq<Op>)
    requires |l.sizes| >= 1 && p > 0 && l.out == Out && All(ParamOp(), each) && All(ParamOp(), last)
    ensures All(TileSizes(l.sizes[0], l.outSize), NormRounds(l, p, total, each, last))
  {
    ParamSizes(l, each);
    ParamSizes(l, last);
    AllRep(TileSizes(l.sizes[0], l.outSize), total / p, NormTile(l, p, each));
  }

  lemma {:induction false} BatchnormSizes(l: Layer, p: nat, subgraphs: nat)
    requires |l.sizes| >= 1 && p > 0 && l.out == Out
    ensures All(TileSizes(l.sizes[0], l.outSize), Batchnorm(l, p, subgraphs))
    ensures |l.original| <= |l.sizes| ==> All(TileSizes(l.sizes[0], l.outSize), BatchnormReduction(l, p))
  {
    var params := BroadcastEach(l.sizes, 1, |l.sizes|);
    EachIsParam(l.sizes, |l.sizes|, p);
    ParamSizes(l, params);
    NormRoundsSizes(l, p, l.c, ReadEach(l.sizes, 1, |l.sizes|, p), params);
    NormRoundsSizes(l, p, l.h * l.w, [], []);
    AllRep(TileSizes(l.sizes[0], l.outSize), l.c, params + NormRounds(l, p, l.h * l.w, [], []));
    AllRep(TileSizes(l.sizes[0], l.outSize), CeilDiv(subgraphs, p), NormTile(l, p, []));
    if |l.original| <= |l.sizes| {
      EachIsParam(l.original, |l.original|, p);
      ParamSizes(l, BroadcastEach(l.original, 1, |l.original|));
      NormRoundsSizes(l, p, Parts(l), [], []);
    }
  }

  /** When only the channels are split, or all dimensions are, plain and aggregated batch normalisation read
      the same input tiles and write the same output tiles, each part of the input exactly once. */
  lemma {:induction false} BatchnormTracesAgree(m: Machine, l: Layer, subgraphs: nat, start: Start)
    requires m.numPE > 0 && |l.sizes| >= 1 && |l.original| <= |l.sizes| && l.out == Out
    requires SplitsChannelsOnly(l) || SplitsAll(l)
    ensures Covers(m, l, Batchnorm(l, m.numPE, subgraphs), start, Parts(l))
    ensures Covers(m, l, BatchnormReduction(l, m.numPE), start, Parts(l))
  {
    var p, n := m.numPE, Parts(l);
    BatchnormSizes(l, p, subgraphs);
    BatchnormSplitCounts(l, p, subgraphs);
    BatchnormReductionCounts(l, p);
    CoversExactlyWhen(m, l, Batchnorm(l, p, subgraphs), start, n, n, n, n);
    CoversExactlyWhen(m, l, BatchnormReduction(l, p), start, n, n, n, n);
  }

  /** Plain batch normalisation of `n` parts covers them exactly once if and only if the channels are split, alone
      or with both other dimensions, and `n` is the product of these splits, or the channels are whole and `n`
      fills all rounds.  With split channels and exactly one other split dimension nothing is issued at all. */
  lemma {:induction false} BatchnormCoversExactlyWhen(m: Machine, l: Layer, n: nat, start: Start)
    requires m.numPE > 0 && |l.sizes| >= 1 && l.out == Out
    ensures Covers(m, l, Batchnorm(l, m.numPE, n), start, n) <==>
            if SplitsChannelsOnly(l) || SplitsAll(l) then n == Parts(l)
            else if l.c == 1 then n % m.numPE == 0 else n == 0
  {
    var p := m.numPE;
    BatchnormSizes(l, p, n);
    if SplitsChannelsOnly(l) || SplitsAll(l) {
      BatchnormSplitCounts(l, p, n);
      CoversExactlyWhen(m, l, Batchnorm(l, p, n), start, Parts(l), Parts(l), Parts(l), n);
    } else if l.c == 1 {
      BatchnormUnsplitCounts(l, p, n);
      CoversRounds(m, l, Batchnorm(l, p, n), start, n);
    } else {
      assert Counts(l, [], 0, 0, 0);
      CoversExactlyWhen(m, l, Batchnorm(l, p, n), start, 0, 0, 0, n);
    }
  }

  /** Full rounds for all parts and then a round for the remainder cover the parts exactly if there is none. */
  lemma {:induction false} CoversRounds(m: Machine, l: Layer, ops: seq<Op>, start: Start, n: nat)
    requires m.numPE > 0 && |l.sizes| >= 1 && l.out == Out && All(TileSizes(l.sizes[0], l.outSize), ops)
    requires var rounds, r := CeilDiv(n, m.numPE) * m.numPE, n % m.numPE;
             Counts(l, ops, if r != 0 then rounds + m.numPE else rounds, rounds + r, rounds + r)
    ensures Covers(m, l, ops, start, n) <==> n % m.numPE == 0
  {
    var rounds, r := CeilDiv(n, m.numPE) * m.numPE, n % m.numPE;
    CeilDivMeaning(n, m.numPE);
    CoversExactlyWhen(m, l, ops, start, if r != 0 then rounds + m.numPE else rounds, rounds + r, rounds + r, n);
  }

  // ----- element-wise operators -----

  lemma {:induction false} ElementRoundCounts(l: Layer, p: nat, n: nat)
    requires |l.sizes| >= 1 && l.out == Out
    ensures Counts(l, ReadEach(l.sizes, 0, |l.sizes|, p) + [Compute(n), Write(l.out, l.outSize, n)], p, n, n)
  {
    FetchCounts(l, p);
    WorkCounts(l, n);
    CountsConcat(l, ReadEach(l.sizes, 0, |l.sizes|, p), [Compute(n), Write(l.out, l.outSize, n)], p, 0, 0, 0, n, n);
  }

  lemma {:induction false} FetchCounts(l: Layer, p: nat)
    requires |l.sizes| >= 1 && l.out == Out
    ensures Counts(l, ReadEach(l.sizes, 0, |l.sizes|, p), p, 0, 0)
  {
    EachIsParam(l.sizes, |l.sizes|, p);
    CountsParams(l, ReadEach(l.sizes, 1, |l.sizes|, p));
    CountsOne(l, Read(In(0), l.sizes[0], p));
    FirstRead(l.sizes, |l.sizes|, p);
    CountsConcat(l, [Read(In(0), l.sizes[0], p)], ReadEach(l.sizes, 1, |l.sizes|, p), p, 0, 0, 0, 0, 0);
  }

  /** The first input is read first. */
  lemma {:induction false} FirstRead(sizes: seq<nat>, hi: nat, p: nat)
    requires 1 <= hi <= |sizes|
    ensures ReadEach(sizes, 0, hi, p) == [Read(In(0), sizes[0], p)] + ReadEach(sizes, 1, hi, p)
  {
    if hi > 1 {
      FirstRead(sizes, hi - 1, p);
    } else {
      assert ReadEach(sizes, 0, 0, p) == [];
    }
  }

  lemma {:induction false} ElementWiseCounts(l: Layer, p: nat, n: nat)
    requires |l.sizes| >= 1 && p > 0 && l.out == Out
    ensures var rounds, r := CeilDiv(n, p) * p, n % p;
            Counts(l, ElementWise(l, p, n), if r != 0 then rounds + p else rounds, rounds + r, rounds + r)
  {
    var k, r, fetch := CeilDiv(n, p), n % p, ReadEach(l.sizes, 0, |l.sizes|, p);
    var body := fetch + [Compute(p), Write(l.out, l.outSize, p)];
    var rest := if r != 0 then fetch + [Compute(r), Write(l.out, l.outSize, r)] else [];
    ElementRoundCounts(l, p, p);
    ElementRoundCounts(l, p, r);
    CountsRep(l, k, body, p, p, p);
    assert Counts(l, rest, if r != 0 then p else 0, r, r);
    CountsConcat(l, Rep(k, body), rest, k * p, k * p, k * p, if r != 0 then p else 0, r, r);
  }

  lemma {:induction false} ElementWiseSizes(l: Layer, p: nat, n: nat)
    requires |l.sizes| >= 1 && p > 0 && l.out == Out
    ensures All(TileSizes(l.sizes[0], l.outSize), ElementWise(l, p, n))
  {
    EachIsParam(l.sizes, |l.sizes|, p);
    FirstRead(l.sizes, |l.sizes|, p);
    AllRep(TileSizes(l.sizes[0], l.outSize), CeilDiv(n, p),
           ReadEach(l.sizes, 0, |l.sizes|, p) + [Compute(p), Write(l.out, l.outSize, p)]);
  }

  /** An element-wise operator whose output has its own cursor covers its parts exactly once if and only if the
      processing elements divide them. */
  lemma {:induction false} ElementWiseCoversExactlyWhen(m: Machine, l: Layer, n: nat, start: Start)
    requires m.numPE > 0 && |l.sizes| >= 1 && l.out == Out
    ensures Covers(m, l, ElementWise(l, m.numPE, n), start, n) <==> n % m.numPE == 0
  {
    ElementWiseCounts(l, m.numPE, n);
    ElementWiseSizes(l, m.numPE, n);
    CoversRounds(m, l, ElementWise(l, m.numPE, n), start, n);
  }

  // ----- all nine generators -----

  /** Every record comes from an existing processing element, synchronisation keeps up with broadcasts, and
      each tensor is transferred end to end. */
  ghost predicate WellFormed(m: Machine, ops: seq<Op>, start: Start) {
    && OnMachine(m, Trace(m, ops, start))
    && (forall pe :: 1 <= pe < m.numPE ==> KeepsUp(Trace(m, ops, start), pe))
    && (forall slot ::
          EndToEnd(Keep(DataFor(slot), Trace(m, ops, start)), start(slot), start(slot) + Moved(ops, slot)))
  }

  lemma {:induction false} FitsWellFormed(m: Machine, ops: seq<Op>, start: Start)
    requires m.numPE > 0 && All(FitsOn(m.numPE), ops)
    ensures WellFormed(m, ops, start)
  {
    TraceOnMachine(m, ops, start);
    forall pe | 1 <= pe < m.numPE ensures KeepsUp(Trace(m, ops, start), pe) {
      TraceKeepsUp(m, ops, start, pe);
    }
    forall slot
      ensures EndToEnd(Keep(DataFor(slot), Trace(m, ops, start)), start(slot), start(slot) + Moved(ops, slot))
    {
      TraceEndToEnd(m, ops, start, slot);
    }
  }

  /** What holds of every single operation of a schedule holds of the schedule. */
  lemma {:induction false} AllWeight(q: Op -> bool, l: Layer, p: nat, hw: nat, once: seq<Op>, each: seq<Op>)
    requires |l.sizes| >= 2 && p > 0 && All(q, once) && All(q, each)
    requires q(Broadcast(In(0), l.sizes[0])) && q(Read(In(1), l.sizes[1], p)) && q(Compute(p))
    requires q(Write(l.out, l.outSize, p))
    ensures All(q, WeightSchedule(l, p, hw, once, each))
  {
    AllRep(q, hw, WeightTile(l, p));
    AllRep(q, l.c, WeightChannel(l, p, hw));
    AllRep(q, l.k / p, each + Rep(l.c, WeightChannel(l, p, hw)));
  }

  lemma {:induction false} AllRound(q: Op -> bool, l: Layer, n: nat, before: seq<Op>, each: seq<Op>)
    requires |l.sizes| >= 2 && All(q, before) && All(q, each)
    requires q(Read(In(0), l.sizes[0], n)) && q(Broadcast(In(1), l.sizes[1])) && q(Compute(n))
    ensures All(q, OutputRound(l, n, before, each))
  {
    AllRep(q, l.k, [Broadcast(In(1), l.sizes[1])] + each + [Compute(n)]);
  }

  lemma {:induction false} AllOutput(q: Op -> bool, l: Layer, p: nat, hw: nat, once: seq<Op>,
                                     each: seq<Op>, before: seq<Op>, eachLast: seq<Op>)
    requires |l.sizes| >= 2 && p > 0 && All(q, once) && All(q, each) && All(q, before) && All(q, eachLast)
    requires q(Read(In(0), l.sizes[0], p)) && q(Compute(p)) && q(Read(In(0), l.sizes[0], hw % p)) && q(Compute(hw % p))
    requires q(Broadcast(In(1), l.sizes[1])) && q(Write(l.out, l.outSize, p))
    ensures All(q, OutputSchedule(l, p, hw, once, each, before, eachLast))
  {
    AllRound(q, l, p, [], each);
    AllRound(q, l, hw % p, before, eachLast);
    AllRep(q, hw / p, OutputRound(l, p, [], each));
    AllRep(q, l.c, OutputChannel(l, p, hw, each, before, eachLast));
  }

  lemma {:induction false} LastInputsFit(l: Layer, p: nat, j: nat)
    requires j <= |l.sizes|
    ensures All(FitsOn(p), LastInputs(l, p, j))
  {
    if j > 0 {
      LastInputsFit(l, p, j - 1);
    }
  }

  lemma {:induction false} EachFits(sizes: seq<nat>, lo: nat, hi: nat, p: nat)
    requires hi <= |sizes|
    ensures All(FitsOn(p), ReadEach(sizes, lo, hi, p)) && All(FitsOn(p), BroadcastEach(sizes, lo, hi))
  {
    if hi > lo {
      EachFits(sizes, lo, hi - 1, p);
    }
  }

  lemma {:induction false} NormRoundsFit(l: Layer, p: nat, total: nat, each: seq<Op>, last: seq<Op>)
    requires |l.sizes| >= 1 && p > 0 && All(FitsOn(p), each) && All(FitsOn(p), last)
    ensures All(FitsOn(p), NormRounds(l, p, total, each, last))
  {
    AllRep(FitsOn(p), total / p, NormTile(l, p, each));
  }

  /** The three weight-stationary schedules, as far as the inputs they need are there. */
  ghost predicate IsWeightSchedule(l: Layer, p: nat, ops: seq<Op>)
    requires |l.sizes| >= 2 && p > 0
  {
    || ops == ConvWeightStationary(l, p) || ops == ConvWeightReduction(l, p)
    || (|l.sizes| >= 4 && ops == ConvBatchnormWeight(l, p))
  }

  /** The three output-stationary schedules. */
  ghost predicate IsOutputSchedule(l: Layer, p: nat, ops: seq<Op>)
    requires |l.sizes| >= 2 && p > 0
  {
    || ops == ConvOutputStationary(l, p)
    || ((|l.sizes| > 2 ==> |l.original| > 2) && ops == ConvOutputReduction(l, p))
    || (|l.sizes| >= 4 && ops == ConvBatchnormOutput(l, p))
  }

  lemma {:induction false} WeightFits(l: Layer, p: nat, ops: seq<Op>)
    requires |l.sizes| >= 2 && p > 0 && IsWeightSchedule(l, p, ops)
    ensures All(FitsOn(p), ops)
  {
    var hw := l.h * l.w;
    if ops == ConvWeightStationary(l, p) {
      AllWeight(FitsOn(p), l, p, hw, [], Bias(l, p));
    } else if ops == ConvWeightReduction(l, p) {
      AllWeight(FitsOn(p), l, p, hw, BiasOnce(l, l.sizes), []);
    } else {
      LastInputsFit(l, p, 4);
      AllWeight(FitsOn(p), l, p, hw, [], FusedBias(l, p) + LastInputs(l, p, 4));
    }
  }

  lemma {:induction false} OutputFits(l: Layer, p: nat, ops: seq<Op>)
    requires |l.sizes| >= 2 && p > 0 && IsOutputSchedule(l, p, ops)
    ensures All(FitsOn(p), ops)
  {
    var hw := l.h * l.w;
    if ops == ConvOutputStationary(l, p) {
      AllOutput(FitsOn(p), l, p, hw, [], Bias(l, p), Bias(l, hw % p), Bias(l, p));
    } else if (|l.sizes| > 2 ==> |l.original| > 2) && ops == ConvOutputReduction(l, p) {
      AllOutput(FitsOn(p), l, p, hw, BiasOnce(l, l.original), [], Bias(l, hw % p), []);
    } else {
      FusedOutputFits(l, p);
    }
  }

  lemma {:induction false} FusedOutputFits(l: Layer, p: nat)
    requires |l.sizes| >= 4 && p > 0
    ensures All(FitsOn(p), ConvBatchnormOutput(l, p))
  {
    LastInputsFit(l, p, 4);
    AllOutput(FitsOn(p), l, p, l.h * l.w, [], FusedBias(l, p) + LastInputs(l, p, 4), FusedBias(l, p),
              Bias(l, p) + LastInputs(l, p, 4));
  }

  lemma {:induction false} WeightTracesWellFormed(m: Machine, l: Layer, ops: seq<Op>, start: Start)
    requires m.numPE > 0 && |l.sizes| >= 2 && IsWeightSchedule(l, m.numPE, ops)
    ensures WellFormed(m, ops, start)
  {
    WeightFits(l, m.numPE, ops);
    FitsWellFormed(m, ops, start);
  }

  lemma {:induction false} OutputTracesWellFormed(m: Machine, l: Layer, ops: seq<Op>, start: Start)
    requires m.numPE > 0 && |l.sizes| >= 2 && IsOutputSchedule(l, m.numPE, ops)
    ensures WellFormed(m, ops, start)
  {
    OutputFits(l, m.numPE, ops);
    FitsWellFormed(m, ops, start);
  }

  lemma {:induction false} ElementWiseWellFormed(m: Machine, l: Layer, subgraphs: nat, start: Start)
    requires m.numPE > 0
    ensures WellFormed(m, ElementWise(l, m.numPE, subgraphs), start)
  {
    var p := m.numPE;
    EachFits(l.sizes, 0, |l.sizes|, p);
    AllRep(FitsOn(p), CeilDiv(subgraphs, p),
           ReadEach(l.sizes, 0, |l.sizes|, p) + [Compute(p), Write(l.out, l.outSize, p)]);
    FitsWellFormed(m, ElementWise(l, p, subgraphs), start);
  }

  lemma {:induction false} BatchnormTracesWellFormed(m: Machine, l: Layer, subgraphs: nat, start: Start)
    requires m.numPE > 0 && |l.sizes| >= 1
    ensures WellFormed(m, Batchnorm(l, m.numPE, subgraphs), start)
    ensures |l.original| <= |l.sizes| ==> WellFormed(m, BatchnormReduction(l, m.numPE), start)
  {
    var p := m.numPE;
    var params := BroadcastEach(l.sizes, 1, |l.sizes|);
    EachFits(l.sizes, 1, |l.sizes|, p);
    NormRoundsFit(l, p, l.c, ReadEach(l.sizes, 1, |l.sizes|, p), params);
    NormRoundsFit(l, p, l.h * l.w, [], []);
    AllRep(FitsOn(p), l.c, params + NormRounds(l, p, l.h * l.w, [], []));
    AllRep(FitsOn(p), CeilDiv(subgraphs, p), NormTile(l, p, []));
    FitsWellFormed(m, Batchnorm(l, p, subgraphs), start);
    if |l.original| <= |l.sizes| {
      EachFits(l.original, 1, |l.original|, p);
      NormRoundsFit(l, p, Parts(l), [], []);
      FitsWellFormed(m, BatchnormReduction(l, p), start);
    }
  }

  /** The operations of one of the nine generators, as far as the inputs it needs are there. */
  ghost predicate IsSchedule(l: Layer, p: nat, n: nat, ops: seq<Op>)
    requires p > 0
  {
    || ops == ElementWise(l, p, n)
    || (|l.sizes| >= 1 && ops == Batchnorm(l, p, n))
    || (1 <= |l.sizes| && |l.original| <= |l.sizes| && ops == BatchnormReduction(l, p))
    || (|l.sizes| >= 2 && (IsWeightSchedule(l, p, ops) || IsOutputSchedule(l, p, ops)))
  }

  lemma {:induction false} ScheduleWellFormed(m: Machine, l: Layer, n: nat, ops: seq<Op>, start: Start)
    requires m.numPE > 0 && IsSchedule(l, m.numPE, n, ops)
    ensures WellFormed(m, ops, start)
  {
    if ops == ElementWise(l, m.numPE, n) {
      ElementWiseWellFormed(m, l, n, start);
    } else if |l.sizes| >= 2 && IsWeightSchedule(l, m.numPE, ops) {
      WeightTracesWellFormed(m, l, ops, start);
    } else if |l.sizes| >= 2 && IsOutputSchedule(l, m.numPE, ops) {
      OutputTracesWellFormed(m, l, ops, start);
    } else {
      BatchnormTracesWellFormed(m, l, n, start);
    }
  }
}
