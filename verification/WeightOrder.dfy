/** In which order weight-stationary convolutions read, compute and write. */
module WeightOrder {
  import opened TrafficTrace
  import opened TrafficProperties
  import opened TrafficSchedules
  import opened TrafficCoverage
  import opened TrafficConservation
  import opened TrafficOrder

  // ----- weight-stationary convolution -----

  /** What is balanced in every tile is balanced throughout. */
  lemma {:induction false} WeightPerTile(w: Op -> int, l: Layer, p: nat, hw: nat, once: seq<Op>, each: seq<Op>, h: int)
    requires |l.sizes| >= 2 && p > 0 && Ignores(w, once) && Ignores(w, each) && w(Read(In(1), l.sizes[1], p)) == 0
    requires Ranges(w, WeightTile(l, p), 0, h) && Total(w, WeightTile(l, p)) == 0
    ensures Ranges(w, WeightSchedule(l, p, hw, once, each), 0, h)
    ensures Total(w, WeightSchedule(l, p, hw, once, each)) == 0
  {
    var first, tiles := [Read(In(1), l.sizes[1], p)], Rep(hw, WeightTile(l, p));
    RangesWhole(w, WeightTile(l, p), 0, h);
    RangesRepZero(w, hw, WeightTile(l, p), h);
    RangesOne(w, first[0], 0, h);
    RangesConcat(w, first, tiles, 0, h);
    RangesRepZero(w, l.c, WeightChannel(l, p, hw), h);
    WeightRounds(w, l, p, hw, once, each, h);
  }

  lemma {:induction false} WeightRounds(w: Op -> int, l: Layer, p: nat, hw: nat, once: seq<Op>, each: seq<Op>, h: int)
    requires |l.sizes| >= 2 && p > 0 && Ignores(w, once) && Ignores(w, each)
    requires var round := Rep(l.c, WeightChannel(l, p, hw)); Ranges(w, round, 0, h) && Total(w, round) == 0
    ensures Ranges(w, WeightSchedule(l, p, hw, once, each), 0, h)
    ensures Total(w, WeightSchedule(l, p, hw, once, each)) == 0
  {
    var round := Rep(l.c, WeightChannel(l, p, hw));
    RangesWhole(w, round, 0, h);
    RangesNothing(w, each);
    RangesWiden(w, each, 0, 0, 0, h);
    RangesConcat(w, each, round, 0, h);
    RangesRepZero(w, l.k / p, each + round, h);
    RangesNothing(w, once);
    RangesWiden(w, once, 0, 0, 0, h);
    RangesConcat(w, once, Rep(l.k / p, each + round), 0, h);
  }

  /** What a weight tile brings is used up by its tiles. */
  lemma {:induction false} WeightPerChannel(w: Op -> int, l: Layer, p: nat, hw: nat, once: seq<Op>, each: seq<Op>)
    requires |l.sizes| >= 2 && p > 0 && Ignores(w, once) && Ignores(w, each) && w(Read(In(1), l.sizes[1], p)) == hw
    requires Ranges(w, WeightTile(l, p), -1, 0) && Total(w, WeightTile(l, p)) == -1
    ensures Ranges(w, WeightSchedule(l, p, hw, once, each), 0, hw)
    ensures Total(w, WeightSchedule(l, p, hw, once, each)) == 0
  {
    var first, tiles := [Read(In(1), l.sizes[1], p)], Rep(hw, WeightTile(l, p));
    RangesRepDown(w, hw, WeightTile(l, p), 1);
    RangesOne(w, first[0], 0, hw);
    RangesSpent(w, first, tiles, hw);
    RangesRepZero(w, l.c, WeightChannel(l, p, hw), hw);
    WeightRounds(w, l, p, hw, once, each, hw);
  }

  /** All tiles of a round use up one each. */
  lemma {:induction false} WeightRoundSpends(w: Op -> int, l: Layer, p: nat, hw: nat)
    requires |l.sizes| >= 2 && w(Read(In(1), l.sizes[1], p)) == 0
    requires Ranges(w, WeightTile(l, p), -1, 0) && Total(w, WeightTile(l, p)) == -1
    ensures var round := Rep(l.c, WeightChannel(l, p, hw));
            Ranges(w, round, -(l.c * hw), 0) && Total(w, round) == -(l.c * hw)
  {
    var first, tiles := [Read(In(1), l.sizes[1], p)], Rep(hw, WeightTile(l, p));
    RangesRepDown(w, hw, WeightTile(l, p), 1);
    RangesOne(w, first[0], 0 - hw, 0);
    RangesConcat(w, first, tiles, 0 - hw, 0);
    RangesRepDown(w, l.c, WeightChannel(l, p, hw), hw);
  }

  /** What a round brings first is used up by the round. */
  lemma {:induction false} WeightPerRound(w: Op -> int, l: Layer, p: nat, hw: nat, once: seq<Op>, each: seq<Op>, h: int)
    requires |l.sizes| >= 2 && p > 0 && Ignores(w, once) && Ranges(w, each, 0, h) && Total(w, each) == h
    requires var round := Rep(l.c, WeightChannel(l, p, hw)); Ranges(w, round, -h, 0) && Total(w, round) == -h
    ensures Ranges(w, WeightSchedule(l, p, hw, once, each), 0, h)
    ensures Total(w, WeightSchedule(l, p, hw, once, each)) == 0
  {
    var round := Rep(l.c, WeightChannel(l, p, hw));
    RangesSpent(w, each, round, h);
    RangesRepZero(w, l.k / p, each + round, h);
    RangesNothing(w, once);
    RangesWiden(w, once, 0, 0, 0, h);
    RangesConcat(w, once, Rep(l.k / p, each + round), 0, h);
  }

  /** What comes before all rounds is used up by all of them. */
  lemma {:induction false} WeightAtOnce(w: Op -> int, l: Layer, p: nat, hw: nat, once: seq<Op>, each: seq<Op>, h: int)
    requires |l.sizes| >= 2 && p > 0 && Ignores(w, each)
    requires Ranges(w, once, 0, (l.k / p) * h) && Total(w, once) == (l.k / p) * h
    requires var round := Rep(l.c, WeightChannel(l, p, hw)); Ranges(w, round, -h, 0) && Total(w, round) == -h
    ensures Ranges(w, WeightSchedule(l, p, hw, once, each), 0, (l.k / p) * h)
    ensures Total(w, WeightSchedule(l, p, hw, once, each)) == 0
  {
    var round := Rep(l.c, WeightChannel(l, p, hw));
    RangesNothing(w, each);
    RangesWiden(w, each, 0, 0, -h, 0);
    RangesConcat(w, each, round, -h, 0);
    RangesRepDown(w, l.k / p, each + round, h);
    RangesSpent(w, once, Rep(l.k / p, each + round), (l.k / p) * h);
  }

  lemma {:induction false} TileRanges(w: Op -> int, l: Layer, p: nat, b: int, c: int, s: int, lo: int, hi: int)
    requires |l.sizes| >= 2 && w(Broadcast(In(0), l.sizes[0])) == b && w(Compute(p)) == c
    requires w(Write(l.out, l.outSize, p)) == s
    requires lo <= 0 <= hi && lo <= b <= hi && lo <= b + c <= hi && lo <= b + c + s <= hi
    ensures Ranges(w, WeightTile(l, p), lo, hi) && Total(w, WeightTile(l, p)) == b + c + s
  {
    RangesThree(w, Broadcast(In(0), l.sizes[0]), Compute(p), Write(l.out, l.outSize, p), lo, hi);
  }

  lemma {:induction false} WeightForm(l: Layer, p: nat, ops: seq<Op>) returns (once: seq<Op>, each: seq<Op>)
    requires |l.sizes| >= 2 && p > 0 && IsWeightSchedule(l, p, ops)
    ensures ops == WeightSchedule(l, p, l.h * l.w, once, each)
    ensures All(ExtraRead(), once) && All(ExtraRead(), each)
    ensures ParametersLast(l) ==> All(ParameterOp(), once) && All(ParameterOp(), each)
  {
    if ops == ConvWeightStationary(l, p) {
      once, each := [], Bias(l, p);
    } else if ops == ConvWeightReduction(l, p) {
      once, each := BiasOnce(l, l.sizes), [];
    } else {
      once, each := [], FusedBias(l, p) + LastInputs(l, p, 4);
      LastAreReads(l, p, 4);
      if ParametersLast(l) {
        LastAreParameters(l, p, 4);
      }
    }
  }

  // ----- the order of weight-stationary convolutions -----

  lemma {:induction false} WeightServesTile(m: Machine, l: Layer, ops: seq<Op>, start: Start, x: Event, y: Event)
    requires m.numPE > 0 && |l.sizes| >= 2 && IsWeightSchedule(l, m.numPE, ops)
    requires TileBalanced(l, m.numPE, x, y)
    ensures ServesIn(m, ops, start, x, 1, y)
  {
    var once, each := WeightForm(l, m.numPE, ops);
    ReadsIgnored(x, 1, y, once);
    ReadsIgnored(x, 1, y, each);
    WeightPerTile(Weigh(x, 1, y), l, m.numPE, l.h * l.w, once, each, 1);
    TraceServes(m, ops, start, x, 1, y);
  }

  lemma {:induction false} WeightServesChannel(m: Machine, l: Layer, ops: seq<Op>, start: Start, pe: nat, y: Event)
    requires m.numPE > 0 && ParametersLast(l) && IsWeightSchedule(l, m.numPE, ops) && pe < m.numPE
    requires TileSpends(l, m.numPE, Fetched(In(1), pe), l.h * l.w, y)
    ensures ServesIn(m, ops, start, Fetched(In(1), pe), l.h * l.w, y)
  {
    var x, hw := Fetched(In(1), pe), l.h * l.w;
    var once, each := WeightForm(l, m.numPE, ops);
    ParametersIgnored(x, hw, y, once);
    ParametersIgnored(x, hw, y, each);
    WeightPerChannel(Weigh(x, hw, y), l, m.numPE, hw, once, each);
    TraceServes(m, ops, start, x, hw, y);
  }

  /** In every weight-stationary trace each processing element computes once for each broadcast input tile and then
      writes its result, before the next input tile comes. */
  lemma {:induction false} WeightTilesInOrder(m: Machine, l: Layer, ops: seq<Op>, start: Start, pe: nat)
    requires m.numPE > 0 && |l.sizes| >= 2 && IsWeightSchedule(l, m.numPE, ops) && pe < m.numPE
    ensures ServesIn(m, ops, start, Cast(In(0)), 1, Computed(pe))
    ensures ServesIn(m, ops, start, Computed(pe), 1, Stored(pe))
    ensures ServesIn(m, ops, start, Cast(In(0)), 1, Stored(pe))
  {
    CastThenComputed(l, m.numPE, pe);
    WeightServesTile(m, l, ops, start, Cast(In(0)), Computed(pe));
    ComputedThenStored(l, m.numPE, pe);
    WeightServesTile(m, l, ops, start, Computed(pe), Stored(pe));
    CastThenStored(l, m.numPE, pe);
    WeightServesTile(m, l, ops, start, Cast(In(0)), Stored(pe));
  }

  ghost predicate TileBalanced(l: Layer, p: nat, x: Event, y: Event)
    requires |l.sizes| >= 2
  {
    var w := Weigh(x, 1, y);
    && Unlike(x, y) && NoRead(x) && NoRead(y) && w(Read(In(1), l.sizes[1], p)) == 0
    && Ranges(w, WeightTile(l, p), 0, 1) && Total(w, WeightTile(l, p)) == 0
  }

  lemma {:induction false} CastThenComputed(l: Layer, p: nat, pe: nat)
    requires |l.sizes| >= 2 && pe < p
    ensures TileBalanced(l, p, Cast(In(0)), Computed(pe))
  {
    TileRanges(Weigh(Cast(In(0)), 1, Computed(pe)), l, p, 1, -1, 0, 0, 1);
  }

  lemma {:induction false} ComputedThenStored(l: Layer, p: nat, pe: nat)
    requires |l.sizes| >= 2 && pe < p
    ensures TileBalanced(l, p, Computed(pe), Stored(pe))
  {
    TileRanges(Weigh(Computed(pe), 1, Stored(pe)), l, p, 0, 1, -1, 0, 1);
  }

  lemma {:induction false} CastThenStored(l: Layer, p: nat, pe: nat)
    requires |l.sizes| >= 2 && pe < p
    ensures TileBalanced(l, p, Cast(In(0)), Stored(pe))
  {
    TileRanges(Weigh(Cast(In(0)), 1, Stored(pe)), l, p, 1, 0, -1, 0, 1);
  }

  /** Each weight tile is read before the input tiles it is used for, and used for all of them before the next. */
  lemma {:induction false} WeightsInOrder(m: Machine, l: Layer, ops: seq<Op>, start: Start, pe: nat)
    requires m.numPE > 0 && ParametersLast(l) && IsWeightSchedule(l, m.numPE, ops) && pe < m.numPE
    ensures ServesIn(m, ops, start, Fetched(In(1), pe), l.h * l.w, Cast(In(0)))
    ensures ServesIn(m, ops, start, Fetched(In(1), pe), l.h * l.w, Computed(pe))
  {
    TileSpendsCast(l, m.numPE, pe, l.h * l.w);
    WeightServesChannel(m, l, ops, start, pe, Cast(In(0)));
    TileSpendsWork(l, m.numPE, Fetched(In(1), pe), pe, l.h * l.w);
    WeightServesChannel(m, l, ops, start, pe, Computed(pe));
  }

  ghost predicate TileSpends(l: Layer, p: nat, x: Event, n: nat, y: Event)
    requires |l.sizes| >= 2
  {
    var w := Weigh(x, n, y);
    && Unlike(x, y) && NoParameter(y) && CountIn(y, Read(In(1), l.sizes[1], p)) == 0
    && Ranges(w, WeightTile(l, p), -1, 0) && Total(w, WeightTile(l, p)) == -1
  }

  lemma {:induction false} TileSpendsCast(l: Layer, p: nat, pe: nat, n: nat)
    requires |l.sizes| >= 2
    ensures TileSpends(l, p, Fetched(In(1), pe), n, Cast(In(0)))
  {
    TileRanges(Weigh(Fetched(In(1), pe), n, Cast(In(0))), l, p, -1, 0, 0, -1, 0);
  }

  lemma {:induction false} TileSpendsWork(l: Layer, p: nat, x: Event, pe: nat, n: nat)
    requires |l.sizes| >= 2 && pe < p && (x.Fetched? || x.Cast?) && x.slot.In? && x.slot.j >= 1
    ensures TileSpends(l, p, x, n, Computed(pe))
  {
    TileRanges(Weigh(x, n, Computed(pe)), l, p, 0, -1, 0, -1, 0);
  }

  lemma {:induction false} WeightComputes(l: Layer, p: nat, hw: nat, x: Event, n: nat, pe: nat)
    requires |l.sizes| >= 2 && pe < p && (x.Fetched? || x.Cast?) && x.slot.In? && x.slot.j >= 2
    ensures var w, round := Weigh(x, n, Computed(pe)), Rep(l.c, WeightChannel(l, p, hw));
            Ranges(w, round, -(l.c * hw), 0) && Total(w, round) == -(l.c * hw)
  {
    TileSpendsWork(l, p, x, pe, n);
    WeightRoundSpends(Weigh(x, n, Computed(pe)), l, p, hw);
  }

  /** A parameter that is read in every round serves the computations of the round. */
  lemma {:induction false} WeightParameterPerRound(m: Machine, l: Layer, each: seq<Op>, start: Start, j: nat, pe: nat)
    requires m.numPE > 0 && |l.sizes| >= 2 && pe < m.numPE && j >= 2
    requires Brings(Weigh(Fetched(In(j), pe), l.c * (l.h * l.w), Computed(pe)), each, l.c * (l.h * l.w))
    ensures ServesIn(m, WeightSchedule(l, m.numPE, l.h * l.w, [], each), start, Fetched(In(j), pe),
                     l.c * (l.h * l.w), Computed(pe))
  {
    var x, y, hw := Fetched(In(j), pe), Computed(pe), l.h * l.w;
    WeightComputes(l, m.numPE, hw, x, l.c * hw, pe);
    WeightPerRound(Weigh(x, l.c * hw, y), l, m.numPE, hw, [], each, l.c * hw);
    TraceServes(m, WeightSchedule(l, m.numPE, hw, [], each), start, x, l.c * hw, y);
  }

  /** The bias is read before each round of output channels. */
  lemma {:induction false} WeightBiasInOrder(m: Machine, l: Layer, start: Start, pe: nat)
    requires m.numPE > 0 && |l.sizes| > 2 && pe < m.numPE
    ensures ServesIn(m, ConvWeightStationary(l, m.numPE), start, Fetched(In(2), pe), l.c * (l.h * l.w), Computed(pe))
  {
    var p, n, y := m.numPE, l.c * (l.h * l.w), Computed(pe);
    OnlyReadsOf(p, 2, n, pe, y);
    BiasBrings(Weigh(Fetched(In(2), pe), n, y), l, p, 2, n);
    WeightParameterPerRound(m, l, Bias(l, p), start, 2, pe);
  }

  /** The parameters of a fused normalisation are read before each round, too. */
  lemma {:induction false} FusedWeightParametersInOrder(m: Machine, l: Layer, start: Start, pe: nat, j: nat)
    requires m.numPE > 0 && |l.sizes| >= 6 && pe < m.numPE && FusedParameter(l, j)
    ensures ServesIn(m, ConvBatchnormWeight(l, m.numPE), start, Fetched(In(j), pe), l.c * (l.h * l.w), Computed(pe))
  {
    var p, n, y := m.numPE, l.c * (l.h * l.w), Computed(pe);
    OnlyReadsOf(p, j, n, pe, y);
    FusedBrings(Weigh(Fetched(In(j), pe), n, y), l, p, j, n);
    WeightParameterPerRound(m, l, FusedBias(l, p) + LastInputs(l, p, 4), start, j, pe);
  }

  /** Aggregated, the bias is broadcast once before everything. */
  lemma {:induction false} WeightBiasAtOnce(m: Machine, l: Layer, start: Start, pe: nat)
    requires m.numPE > 0 && |l.sizes| > 2 && pe < m.numPE
    ensures ServesIn(m, ConvWeightReduction(l, m.numPE), start, Cast(In(2)),
                   (l.k / m.numPE) * (l.c * (l.h * l.w)), Computed(pe))
  {
    var x, y, p, hw := Cast(In(2)), Computed(pe), m.numPE, l.h * l.w;
    var n := (l.k / p) * (l.c * hw);
    WeightComputes(l, p, hw, x, n, pe);
    BringsOne(Weigh(x, n, y), Broadcast(In(2), l.sizes[2]));
    WeightAtOnce(Weigh(x, n, y), l, p, hw, BiasOnce(l, l.sizes), [], l.c * hw);
    TraceServes(m, ConvWeightReduction(l, p), start, x, n, y);
  }
}
