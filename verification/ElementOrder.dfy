/** In which order element-wise operators and batch normalisations read, compute and write. */
module ElementOrder {
  import opened Arithmetic
  import opened Collections
  import opened TrafficTrace
  import opened TrafficProperties
  import opened TrafficSchedules
  import opened TrafficCoverage
  import opened TrafficOrder

  /** One part on each of `n` processing elements. */
  function PartRound(l: Layer, n: nat, fetch: seq<Op>): seq<Op> {
    fetch + [Compute(n), Write(l.out, l.outSize, n)]
  }

  // ----- one round -----

  lemma {:induction false} WorkThenWrite(w: Op -> int, l: Layer, n: nat, lo: int, hi: int)
    requires lo <= 0 <= hi && lo <= w(Compute(n)) <= hi
    requires lo <= w(Compute(n)) + w(Write(l.out, l.outSize, n)) <= hi
    ensures var tail := [Compute(n), Write(l.out, l.outSize, n)];
            Ranges(w, tail, lo, hi) && Total(w, tail) == w(Compute(n)) + w(Write(l.out, l.outSize, n))
  {
    var a, b := Compute(n), Write(l.out, l.outSize, n);
    RangesOne(w, a, lo, hi);
    RangesOne(w, b, lo - w(a), hi - w(a));
    RangesConcat(w, [a], [b], lo, hi);
    assert [a] + [b] == [a, b];
  }

  /** What is computed is written. */
  lemma {:induction false} WorkIsWritten(w: Op -> int, l: Layer, n: nat, fetch: seq<Op>)
    requires Ignores(w, fetch) && 0 <= w(Compute(n)) <= 1 && w(Write(l.out, l.outSize, n)) == -w(Compute(n))
    ensures Settles(w, PartRound(l, n, fetch), 1)
  {
    SettlesNothing(w, fetch, 1);
    WorkThenWrite(w, l, n, 0, 1);
    SettlesBoth(w, fetch, [Compute(n), Write(l.out, l.outSize, n)], 1);
  }

  /** What is read is computed with. */
  lemma {:induction false} ReadIsUsed(w: Op -> int, l: Layer, n: nat, fetch: seq<Op>, v: int)
    requires Brings(w, fetch, v) && v <= 1 && 0 <= -w(Compute(n)) <= v && w(Write(l.out, l.outSize, n)) == 0
    ensures Ranges(w, PartRound(l, n, fetch), 0, 1) && Total(w, PartRound(l, n, fetch)) == v + w(Compute(n))
  {
    RangesWhole(w, fetch, 0, v);
    WorkThenWrite(w, l, n, -v, 0);
    RangesConcat(w, fetch, [Compute(n), Write(l.out, l.outSize, n)], 0, v);
    RangesWiden(w, PartRound(l, n, fetch), 0, v, 0, 1);
  }

  /** What was sent before is used up. */
  lemma {:induction false} WorkSpends(w: Op -> int, l: Layer, n: nat, fetch: seq<Op>, v: int)
    requires Ignores(w, fetch) && w(Compute(n)) == -v <= 0 && w(Write(l.out, l.outSize, n)) == 0
    ensures Spends(w, PartRound(l, n, fetch), v)
  {
    SpendsNothing(w, fetch);
    WorkThenWrite(w, l, n, -v, 0);
    SpendsBoth(w, fetch, [Compute(n), Write(l.out, l.outSize, n)], 0, v);
  }

  /** Rounds that settle, and a last one that may leave something. */
  lemma {:induction false} RoundsThenLast(w: Op -> int, k: nat, round: seq<Op>, last: seq<Op>)
    requires Settles(w, round, 1) && Ranges(w, last, 0, 1)
    ensures Ranges(w, Rep(k, round) + last, 0, 1) && Total(w, Rep(k, round) + last) == Total(w, last)
  {
    SettlesRep(w, k, round, 1);
    SettlesThen(w, Rep(k, round), last, 1);
  }

  // ----- the parameters -----

  /** Reads and broadcasts of inputs. */
  function FetchOp(): Op -> bool {
    (op: Op) => op.Read? || op.Broadcast?
  }

  lemma {:induction false} EachFetches(sizes: seq<nat>, lo: nat, hi: nat, n: nat)
    requires hi <= |sizes|
    ensures All(FetchOp(), ReadEach(sizes, lo, hi, n)) && All(FetchOp(), BroadcastEach(sizes, lo, hi))
  {
    if hi > lo {
      EachFetches(sizes, lo, hi - 1, n);
    }
  }

  lemma {:induction false} FetchesIgnored(pe: nat, ops: seq<Op>)
    requires All(FetchOp(), ops)
    ensures Ignores(Weigh(Computed(pe), 1, Stored(pe)), ops)
  {
    forall i | 0 <= i < |ops| ensures Weigh(Computed(pe), 1, Stored(pe))(ops[i]) == 0 {
      assert FetchOp()(ops[i]);
    }
  }

  /** A read of each input from `lo` on brings what one of them brings. */
  lemma {:induction false} ReadEachBrings(w: Op -> int, sizes: seq<nat>, lo: nat, hi: nat, n: nat, j: nat, v: nat)
    requires hi <= |sizes| && OnlyReads(w, n, j, v)
    ensures Brings(w, ReadEach(sizes, lo, hi, n), if lo <= j < hi then v else 0)
  {
    if hi <= lo {
      BringsNothing(w, []);
    } else {
      var op := Read(In(hi - 1), sizes[hi - 1], n);
      ReadEachBrings(w, sizes, lo, hi - 1, n, j, v);
      BringsOne(w, op);
      BringsBoth(w, ReadEach(sizes, lo, hi - 1, n), [op], if lo <= j < hi - 1 then v else 0, w(op));
    }
  }

  ghost predicate OnlyCasts(w: Op -> int, j: nat, v: int) {
    forall a: nat, z: nat {:trigger w(Broadcast(In(a), z))} :: w(Broadcast(In(a), z)) == if a == j then v else 0
  }

  lemma {:induction false} BroadcastEachBrings(w: Op -> int, sizes: seq<nat>, lo: nat, hi: nat, j: nat, v: nat)
    requires hi <= |sizes| && OnlyCasts(w, j, v)
    ensures Brings(w, BroadcastEach(sizes, lo, hi), if lo <= j < hi then v else 0)
  {
    if hi <= lo {
      BringsNothing(w, []);
    } else {
      var op := Broadcast(In(hi - 1), sizes[hi - 1]);
      BroadcastEachBrings(w, sizes, lo, hi - 1, j, v);
      BringsOne(w, op);
      BringsBoth(w, BroadcastEach(sizes, lo, hi - 1), [op], if lo <= j < hi - 1 then v else 0, w(op));
    }
  }

  // ----- element-wise operators -----

  /** Every processing element reads each input once before each computation and writes the result before it reads
      again.  The last round may read for processing elements that do not compute. */
  lemma {:induction false} ElementWiseInOrder(m: Machine, l: Layer, n: nat, start: Start, pe: nat, j: nat)
    requires m.numPE > 0 && pe < m.numPE && j < |l.sizes|
    ensures LeadsIn(m, ElementWise(l, m.numPE, n), start, Fetched(In(j), pe), 1, Computed(pe))
    ensures ServesIn(m, ElementWise(l, m.numPE, n), start, Computed(pe), 1, Stored(pe))
    ensures ServesIn(m, ElementWise(l, m.numPE, n), start, Fetched(In(j), pe), 1, Computed(pe)) <==>
            n % m.numPE == 0 || pe < n % m.numPE
  {
    ElementReads(l, m.numPE, n, pe, j);
    TraceLeads(m, ElementWise(l, m.numPE, n), start, Fetched(In(j), pe), 1, Computed(pe));
    ElementWrites(l, m.numPE, n, pe);
    TraceServes(m, ElementWise(l, m.numPE, n), start, Computed(pe), 1, Stored(pe));
  }

  lemma {:induction false} ElementReads(l: Layer, p: nat, n: nat, pe: nat, j: nat)
    requires pe < p && j < |l.sizes|
    ensures var w := Weigh(Fetched(In(j), pe), 1, Computed(pe));
            && Ranges(w, ElementWise(l, p, n), 0, 1)
            && Total(w, ElementWise(l, p, n)) == if n % p == 0 || pe < n % p then 0 else 1
  {
    var w, fetch, r := Weigh(Fetched(In(j), pe), 1, Computed(pe)), ReadEach(l.sizes, 0, |l.sizes|, p), n % p;
    OnlyReadsOf(p, j, 1, pe, Computed(pe));
    ReadEachBrings(w, l.sizes, 0, |l.sizes|, p, j, 1);
    ReadIsUsed(w, l, p, fetch, 1);
    ReadIsUsed(w, l, r, fetch, 1);
    SettlesNothing(w, [], 1);
    RoundsThenLast(w, CeilDiv(n, p), PartRound(l, p, fetch), if r != 0 then PartRound(l, r, fetch) else []);
  }

  lemma {:induction false} ElementWrites(l: Layer, p: nat, n: nat, pe: nat)
    requires pe < p
    ensures Settles(Weigh(Computed(pe), 1, Stored(pe)), ElementWise(l, p, n), 1)
  {
    var w, fetch, r := Weigh(Computed(pe), 1, Stored(pe)), ReadEach(l.sizes, 0, |l.sizes|, p), n % p;
    EachFetches(l.sizes, 0, |l.sizes|, p);
    FetchesIgnored(pe, fetch);
    WorkIsWritten(w, l, p, fetch);
    WorkIsWritten(w, l, r, fetch);
    SettlesNothing(w, [], 1);
    RoundsThenLast(w, CeilDiv(n, p), PartRound(l, p, fetch), if r != 0 then PartRound(l, r, fetch) else []);
  }

  // ----- batch normalisation -----

  lemma {:induction false} NormTileIsRound(l: Layer, n: nat, params: seq<Op>)
    requires |l.sizes| >= 1
    ensures NormTile(l, n, params) == PartRound(l, n, [Read(In(0), l.sizes[0], n)] + params)
  {
  }

  lemma {:induction false} NormTileWrites(l: Layer, n: nat, params: seq<Op>, pe: nat)
    requires |l.sizes| >= 1 && All(FetchOp(), params)
    ensures Settles(Weigh(Computed(pe), 1, Stored(pe)), NormTile(l, n, params), 1)
  {
    NormTileIsRound(l, n, params);
    FetchesIgnored(pe, [Read(In(0), l.sizes[0], n)] + params);
    WorkIsWritten(Weigh(Computed(pe), 1, Stored(pe)), l, n, [Read(In(0), l.sizes[0], n)] + params);
  }

  lemma {:induction false} NormRoundsWrite(l: Layer, p: nat, total: nat, each: seq<Op>, last: seq<Op>, pe: nat)
    requires |l.sizes| >= 1 && p > 0 && All(FetchOp(), each) && All(FetchOp(), last)
    ensures Settles(Weigh(Computed(pe), 1, Stored(pe)), NormRounds(l, p, total, each, last), 1)
  {
    var w := Weigh(Computed(pe), 1, Stored(pe));
    NormTileWrites(l, p, each, pe);
    NormTileWrites(l, total % p, last, pe);
    SettlesNothing(w, [], 1);
    RoundsThenLast(w, total / p, NormTile(l, p, each), if total % p != 0 then NormTile(l, total % p, last) else []);
  }

  /** The tiles of the round in which not all processing elements compute. */
  function UnsplitLast(l: Layer, p: nat, r: nat): seq<Op>
    requires |l.sizes| >= 1
  {
    if r != 0 then [Read(In(0), l.sizes[0], p), Compute(r), Write(l.out, l.outSize, r)] else []
  }

  lemma {:induction false} UnsplitLastIsRound(l: Layer, p: nat, r: nat)
    requires |l.sizes| >= 1 && r != 0
    ensures UnsplitLast(l, p, r) == PartRound(l, r, [Read(In(0), l.sizes[0], p)])
  {
  }

  // ----- results are written -----

  lemma {:induction false} UnsplitWrites(l: Layer, p: nat, k: nat, r: nat, params: seq<Op>, pe: nat)
    requires |l.sizes| >= 1 && All(FetchOp(), params)
    ensures Settles(Weigh(Computed(pe), 1, Stored(pe)), params + Rep(k, NormTile(l, p, [])) + UnsplitLast(l, p, r), 1)
  {
    var w, tile := Weigh(Computed(pe), 1, Stored(pe)), NormTile(l, p, []);
    FetchesIgnored(pe, params);
    SettlesNothing(w, params, 1);
    NormTileWrites(l, p, [], pe);
    SettlesRep(w, k, tile, 1);
    SettlesBoth(w, params, Rep(k, tile), 1);
    SettlesNothing(w, [], 1);
    if r != 0 {
      UnsplitLastIsRound(l, p, r);
      WorkIsWritten(w, l, r, [Read(In(0), l.sizes[0], p)]);
    }
    SettlesBoth(w, params + Rep(k, tile), UnsplitLast(l, p, r), 1);
  }

  lemma {:induction false} ChannelsWrite(l: Layer, p: nat, hw: nat, params: seq<Op>, pe: nat)
    requires |l.sizes| >= 1 && p > 0 && All(FetchOp(), params)
    ensures Settles(Weigh(Computed(pe), 1, Stored(pe)), params + NormRounds(l, p, hw, [], []), 1)
  {
    FetchesIgnored(pe, params);
    SettlesNothing(Weigh(Computed(pe), 1, Stored(pe)), params, 1);
    NormRoundsWrite(l, p, hw, [], [], pe);
    SettlesBoth(Weigh(Computed(pe), 1, Stored(pe)), params, NormRounds(l, p, hw, [], []), 1);
  }

  lemma {:induction false} BatchnormWrites(l: Layer, p: nat, n: nat, pe: nat)
    requires |l.sizes| >= 1 && p > 0
    ensures Settles(Weigh(Computed(pe), 1, Stored(pe)), Batchnorm(l, p, n), 1)
  {
    var w, params := Weigh(Computed(pe), 1, Stored(pe)), BroadcastEach(l.sizes, 1, |l.sizes|);
    EachFetches(l.sizes, 1, |l.sizes|, p);
    if SplitsChannelsOnly(l) {
      NormRoundsWrite(l, p, l.c, ReadEach(l.sizes, 1, |l.sizes|, p), params, pe);
    } else if SplitsAll(l) {
      ChannelsWrite(l, p, l.h * l.w, params, pe);
      SettlesRep(w, l.c, params + NormRounds(l, p, l.h * l.w, [], []), 1);
    } else if l.c == 1 {
      UnsplitWrites(l, p, CeilDiv(n, p), n % p, params, pe);
    } else {
      SettlesNothing(w, [], 1);
    }
  }

  // ----- inputs are used -----

  function InputUse(pe: nat): Op -> int {
    Weigh(Fetched(In(0), pe), 1, Computed(pe))
  }

  lemma {:induction false} ParametersUnused(pe: nat, ops: seq<Op>)
    requires All(ParamOp(), ops)
    ensures Ignores(InputUse(pe), ops)
  {
    forall i | 0 <= i < |ops| ensures InputUse(pe)(ops[i]) == 0 {
      assert ParamOp()(ops[i]);
    }
  }

  /** A round that reads for `q` processing elements and computes on `n`. */
  lemma {:induction false} RoundReads(l: Layer, q: nat, n: nat, params: seq<Op>, pe: nat)
    requires |l.sizes| >= 1 && All(ParamOp(), params) && n <= q
    ensures var round := PartRound(l, n, [Read(In(0), l.sizes[0], q)] + params);
            Ranges(InputUse(pe), round, 0, 1) && Total(InputUse(pe), round) == if n <= pe < q then 1 else 0
  {
    var w, op, v := InputUse(pe), Read(In(0), l.sizes[0], q), if pe < q then 1 else 0;
    ParametersUnused(pe, params);
    BringsOne(w, op);
    BringsNothing(w, params);
    BringsBoth(w, [op], params, v, 0);
    ReadIsUsed(w, l, n, [op] + params, v);
  }

  lemma {:induction false} NormRoundsRead(l: Layer, p: nat, total: nat, each: seq<Op>, last: seq<Op>, pe: nat)
    requires |l.sizes| >= 1 && p > 0 && All(ParamOp(), each) && All(ParamOp(), last)
    ensures Settles(InputUse(pe), NormRounds(l, p, total, each, last), 1)
  {
    RoundReads(l, p, p, each, pe);
    NormTileIsRound(l, p, each);
    RoundReads(l, total % p, total % p, last, pe);
    NormTileIsRound(l, total % p, last);
    SettlesNothing(InputUse(pe), [], 1);
    RoundsThenLast(InputUse(pe), total / p, NormTile(l, p, each),
                   if total % p != 0 then NormTile(l, total % p, last) else []);
  }

  lemma {:induction false} UnsplitReads(l: Layer, p: nat, k: nat, r: nat, params: seq<Op>, pe: nat)
    requires |l.sizes| >= 1 && All(ParamOp(), params) && r < p && pe < p
    ensures var ops := params + Rep(k, NormTile(l, p, [])) + UnsplitLast(l, p, r);
            && Ranges(InputUse(pe), ops, 0, 1)
            && Total(InputUse(pe), ops) == if r == 0 || pe < r then 0 else 1
  {
    var w, tile := InputUse(pe), NormTile(l, p, []);
    ParametersUnused(pe, params);
    SettlesNothing(w, params, 1);
    RoundReads(l, p, p, [], pe);
    NormTileIsRound(l, p, []);
    SettlesRep(w, k, tile, 1);
    SettlesBoth(w, params, Rep(k, tile), 1);
    SettlesNothing(w, [], 1);
    if r != 0 {
      UnsplitLastIsRound(l, p, r);
      RoundReads(l, p, r, [], pe);
      assert [Read(In(0), l.sizes[0], p)] + [] == [Read(In(0), l.sizes[0], p)];
    }
    SettlesThen(w, params + Rep(k, tile), UnsplitLast(l, p, r), 1);
  }

  lemma {:induction false} ChannelsRead(l: Layer, p: nat, hw: nat, params: seq<Op>, pe: nat)
    requires |l.sizes| >= 1 && p > 0 && All(ParamOp(), params)
    ensures Settles(InputUse(pe), params + NormRounds(l, p, hw, [], []), 1)
  {
    ParametersUnused(pe, params);
    SettlesNothing(InputUse(pe), params, 1);
    NormRoundsRead(l, p, hw, [], [], pe);
    SettlesBoth(InputUse(pe), params, NormRounds(l, p, hw, [], []), 1);
  }

  lemma {:induction false} BatchnormReads(l: Layer, p: nat, n: nat, pe: nat)
    requires |l.sizes| >= 1 && pe < p
    ensures Ranges(InputUse(pe), Batchnorm(l, p, n), 0, 1)
    ensures Total(InputUse(pe), Batchnorm(l, p, n)) == if l.c != 1 || n % p == 0 || pe < n % p then 0 else 1
  {
    var w, params := InputUse(pe), BroadcastEach(l.sizes, 1, |l.sizes|);
    EachIsParam(l.sizes, |l.sizes|, p);
    if SplitsChannelsOnly(l) {
      NormRoundsRead(l, p, l.c, ReadEach(l.sizes, 1, |l.sizes|, p), params, pe);
    } else if SplitsAll(l) {
      ChannelsRead(l, p, l.h * l.w, params, pe);
      SettlesRep(w, l.c, params + NormRounds(l, p, l.h * l.w, [], []), 1);
    } else if l.c == 1 {
      UnsplitReads(l, p, CeilDiv(n, p), n % p, params, pe);
    } else {
      SettlesNothing(w, [], 1);
    }
  }

  /** Every processing element reads an input tile before each computation and writes the result before it reads
      again.  Only the last round of the unsplit branch may read for processing elements that do not compute. */
  lemma {:induction false} BatchnormInOrder(m: Machine, l: Layer, n: nat, start: Start, pe: nat)
    requires m.numPE > 0 && |l.sizes| >= 1 && pe < m.numPE
    ensures LeadsIn(m, Batchnorm(l, m.numPE, n), start, Fetched(In(0), pe), 1, Computed(pe))
    ensures ServesIn(m, Batchnorm(l, m.numPE, n), start, Computed(pe), 1, Stored(pe))
    ensures ServesIn(m, Batchnorm(l, m.numPE, n), start, Fetched(In(0), pe), 1, Computed(pe)) <==>
            l.c != 1 || n % m.numPE == 0 || pe < n % m.numPE
  {
    BatchnormReads(l, m.numPE, n, pe);
    TraceLeads(m, Batchnorm(l, m.numPE, n), start, Fetched(In(0), pe), 1, Computed(pe));
    BatchnormWrites(l, m.numPE, n, pe);
    TraceServes(m, Batchnorm(l, m.numPE, n), start, Computed(pe), 1, Stored(pe));
  }

  /** With aggregated parameters there is no such round. */
  lemma {:induction false} BatchnormReductionInOrder(m: Machine, l: Layer, start: Start, pe: nat)
    requires m.numPE > 0 && 1 <= |l.sizes| && |l.original| <= |l.sizes| && pe < m.numPE
    ensures ServesIn(m, BatchnormReduction(l, m.numPE), start, Fetched(In(0), pe), 1, Computed(pe))
    ensures ServesIn(m, BatchnormReduction(l, m.numPE), start, Computed(pe), 1, Stored(pe))
  {
    var params, ops := BroadcastEach(l.original, 1, |l.original|), BatchnormReduction(l, m.numPE);
    EachIsParam(l.original, |l.original|, m.numPE);
    EachFetches(l.original, 1, |l.original|, m.numPE);
    ChannelsRead(l, m.numPE, l.c * l.h * l.w, params, pe);
    TraceServes(m, ops, start, Fetched(In(0), pe), 1, Computed(pe));
    ChannelsWrite(l, m.numPE, l.c * l.h * l.w, params, pe);
    TraceServes(m, ops, start, Computed(pe), 1, Stored(pe));
  }

  // ----- parameters are there in time -----

  function ParameterUse(j: nat, n: nat, pe: nat): Op -> int {
    Weigh(Cast(In(j)), n, Computed(pe))
  }

  lemma {:induction false} NormTileSpends(l: Layer, q: nat, n: nat, j: nat, k: nat, pe: nat)
    requires |l.sizes| >= 1
    ensures Spends(ParameterUse(j, k, pe), PartRound(l, n, [Read(In(0), l.sizes[0], q)]), if pe < n then 1 else 0)
  {
    WorkSpends(ParameterUse(j, k, pe), l, n, [Read(In(0), l.sizes[0], q)], if pe < n then 1 else 0);
  }

  lemma {:induction false} NormTileAlone(l: Layer, n: nat)
    requires |l.sizes| >= 1
    ensures NormTile(l, n, []) == PartRound(l, n, [Read(In(0), l.sizes[0], n)])
  {
    assert [Read(In(0), l.sizes[0], n)] + [] == [Read(In(0), l.sizes[0], n)];
  }

  lemma {:induction false} NormRoundsSpend(l: Layer, p: nat, total: nat, j: nat, k: nat, pe: nat)
    requires |l.sizes| >= 1 && pe < p
    ensures Spends(ParameterUse(j, k, pe), NormRounds(l, p, total, [], []), Share(total, p, pe))
  {
    var w, r := ParameterUse(j, k, pe), total % p;
    NormTileAlone(l, p);
    NormTileSpends(l, p, p, j, k, pe);
    NormTileAlone(l, r);
    NormTileSpends(l, r, r, j, k, pe);
    SpendsNothing(w, []);
    DealtOut(w, total, p, pe, NormTile(l, p, []), if r != 0 then NormTile(l, r, []) else [], 1);
  }

  lemma {:induction false} CastThenRounds(l: Layer, sizes: seq<nat>, p: nat, total: nat, j: nat, pe: nat)
    requires |l.sizes| >= 1 && pe < p && 1 <= j < |sizes|
    ensures Settles(ParameterUse(j, Share(total, p, pe), pe),
                    BroadcastEach(sizes, 1, |sizes|) + NormRounds(l, p, total, [], []), Share(total, p, pe))
  {
    var n := Share(total, p, pe);
    BroadcastEachBrings(ParameterUse(j, n, pe), sizes, 1, |sizes|, j, n);
    NormRoundsSpend(l, p, total, j, n, pe);
    Settled(ParameterUse(j, n, pe), BroadcastEach(sizes, 1, |sizes|), NormRounds(l, p, total, [], []), n);
  }

  /** Where all dimensions are split, each parameter is broadcast before the tiles of its channel. */
  lemma {:induction false} ChannelParametersInOrder(m: Machine, l: Layer, n: nat, start: Start, pe: nat, j: nat)
    requires SplitsAll(l) && pe < m.numPE && 1 <= j < |l.sizes|
    ensures ServesIn(m, Batchnorm(l, m.numPE, n), start, Cast(In(j)), Share(l.h * l.w, m.numPE, pe), Computed(pe))
  {
    var hw, k := l.h * l.w, Share(l.h * l.w, m.numPE, pe);
    CastThenRounds(l, l.sizes, m.numPE, hw, j, pe);
    SettlesRep(ParameterUse(j, k, pe), l.c,
               BroadcastEach(l.sizes, 1, |l.sizes|) + NormRounds(l, m.numPE, hw, [], []), k);
    TraceServes(m, Batchnorm(l, m.numPE, n), start, Cast(In(j)), k, Computed(pe));
  }

  /** Aggregated, each is broadcast before everything. */
  lemma {:induction false} AggregatedParametersInOrder(m: Machine, l: Layer, start: Start, pe: nat, j: nat)
    requires pe < m.numPE && 1 <= j < |l.original| <= |l.sizes|
    ensures ServesIn(m, BatchnormReduction(l, m.numPE), start, Cast(In(j)), Share(l.c * l.h * l.w, m.numPE, pe),
                     Computed(pe))
  {
    CastThenRounds(l, l.original, m.numPE, l.c * l.h * l.w, j, pe);
    TraceServes(m, BatchnormReduction(l, m.numPE), start, Cast(In(j)), Share(l.c * l.h * l.w, m.numPE, pe),
                Computed(pe));
  }

  lemma {:induction false} UnsplitSpends(l: Layer, p: nat, k: nat, r: nat, j: nat, n: nat, pe: nat)
    requires |l.sizes| >= 1 && pe < p && 1 <= j < |l.sizes| && n == k + if pe < r then 1 else 0
    ensures Settles(ParameterUse(j, n, pe),
                    BroadcastEach(l.sizes, 1, |l.sizes|) + Rep(k, NormTile(l, p, [])) + UnsplitLast(l, p, r), n)
  {
    var w, params, tile := ParameterUse(j, n, pe), BroadcastEach(l.sizes, 1, |l.sizes|), NormTile(l, p, []);
    BroadcastEachBrings(w, l.sizes, 1, |l.sizes|, j, n);
    NormTileAlone(l, p);
    NormTileSpends(l, p, p, j, n, pe);
    SpendsRep(w, k, tile, 1);
    SpendsNothing(w, []);
    if r != 0 {
      UnsplitLastIsRound(l, p, r);
      NormTileSpends(l, p, r, j, n, pe);
    }
    SpendsBoth(w, Rep(k, tile), UnsplitLast(l, p, r), k, if pe < r then 1 else 0);
    Settled(w, params, Rep(k, tile) + UnsplitLast(l, p, r), n);
    Reassociate(params, Rep(k, tile), UnsplitLast(l, p, r));
  }

  lemma {:induction false} UnsplitSettles(l: Layer, p: nat, n: nat, j: nat, k: nat, pe: nat)
    requires l.c == 1 && pe < p && 1 <= j < |l.sizes| && k == CeilDiv(n, p) + if pe < n % p then 1 else 0
    ensures Settles(ParameterUse(j, k, pe), Batchnorm(l, p, n), k)
  {
    UnsplitSpends(l, p, CeilDiv(n, p), n % p, j, k, pe);
  }

  /** So it is where the channels are whole. */
  lemma {:induction false} UnsplitParametersInOrder(m: Machine, l: Layer, n: nat, start: Start, pe: nat, j: nat)
    requires l.c == 1 && pe < m.numPE && 1 <= j < |l.sizes|
    ensures ServesIn(m, Batchnorm(l, m.numPE, n), start, Cast(In(j)),
                     CeilDiv(n, m.numPE) + (if pe < n % m.numPE then 1 else 0), Computed(pe))
  {
    var k := CeilDiv(n, m.numPE) + if pe < n % m.numPE then 1 else 0;
    UnsplitSettles(l, m.numPE, n, j, k, pe);
    TraceServes(m, Batchnorm(l, m.numPE, n), start, Cast(In(j)), k, Computed(pe));
  }

  /** Where only the channels are split, every processing element is given each parameter once before each
      computation, by a read of its own or by a broadcast. */
  lemma {:induction false} SplitParametersInOrder(m: Machine, l: Layer, n: nat, start: Start, pe: nat, j: nat)
    requires SplitsChannelsOnly(l) && pe < m.numPE && 1 <= j < |l.sizes|
    ensures LeadsIn(m, Batchnorm(l, m.numPE, n), start, Given(In(j), pe), 1, Computed(pe))
  {
    GivenRounds(l, m.numPE, l.c, j, pe);
    TraceLeads(m, Batchnorm(l, m.numPE, n), start, Given(In(j), pe), 1, Computed(pe));
  }

  lemma {:induction false} GivenRound(l: Layer, n: nat, params: seq<Op>, j: nat, pe: nat)
    requires |l.sizes| >= 1 && j >= 1 && Brings(Weigh(Given(In(j), pe), 1, Computed(pe)), params, 1)
    ensures var w := Weigh(Given(In(j), pe), 1, Computed(pe));
            && Ranges(w, NormTile(l, n, params), 0, 1)
            && Total(w, NormTile(l, n, params)) == if pe < n then 0 else 1
  {
    var w, op := Weigh(Given(In(j), pe), 1, Computed(pe)), Read(In(0), l.sizes[0], n);
    NormTileIsRound(l, n, params);
    BringsNothing(w, [op]);
    BringsBoth(w, [op], params, 0, 1);
    ReadIsUsed(w, l, n, [op] + params, 1);
  }

  lemma {:induction false} GivenRounds(l: Layer, p: nat, total: nat, j: nat, pe: nat)
    requires pe < p && 1 <= j < |l.sizes|
    ensures Ranges(Weigh(Given(In(j), pe), 1, Computed(pe)),
                   NormRounds(l, p, total, ReadEach(l.sizes, 1, |l.sizes|, p), BroadcastEach(l.sizes, 1, |l.sizes|)),
                   0, 1)
  {
    var w, r := Weigh(Given(In(j), pe), 1, Computed(pe)), total % p;
    var each, last := ReadEach(l.sizes, 1, |l.sizes|, p), BroadcastEach(l.sizes, 1, |l.sizes|);
    GivenBrings(l.sizes, p, j, pe);
    GivenRound(l, p, each, j, pe);
    GivenRound(l, r, last, j, pe);
    SettlesNothing(w, [], 1);
    RoundsThenLast(w, total / p, NormTile(l, p, each), if r != 0 then NormTile(l, r, last) else []);
  }

  lemma {:induction false} GivenBrings(sizes: seq<nat>, p: nat, j: nat, pe: nat)
    requires pe < p && 1 <= j < |sizes|
    ensures var w := Weigh(Given(In(j), pe), 1, Computed(pe));
            Brings(w, ReadEach(sizes, 1, |sizes|, p), 1) && Brings(w, BroadcastEach(sizes, 1, |sizes|), 1)
  {
    var w := Weigh(Given(In(j), pe), 1, Computed(pe));
    ReadEachBrings(w, sizes, 1, |sizes|, p, j, 1);
    BroadcastEachBrings(w, sizes, 1, |sizes|, j, 1);
  }
}
