/** In which order output-stationary convolutions read, compute and write. */
module OutputOrder {
  import opened Collections
  import opened TrafficTrace
  import opened TrafficProperties
  import opened TrafficSchedules
  import opened TrafficCoverage
  import opened TrafficConservation
  import opened TrafficOrder

  /** What is done for one output channel in a round. */
  function ChannelBody(l: Layer, n: nat, each: seq<Op>): seq<Op>
    requires |l.sizes| >= 2
  {
    [Broadcast(In(1), l.sizes[1])] + each + [Compute(n)]
  }

  /** What settles in both kinds of rounds settles throughout. */
  lemma {:induction false} OutputSettles(w: Op -> int, l: Layer, p: nat, hw: nat, once: seq<Op>,
                                         each: seq<Op>, before: seq<Op>, eachLast: seq<Op>, h: int)
    requires |l.sizes| >= 2 && p > 0 && h >= 0 && Ignores(w, once) && w(Write(l.out, l.outSize, p)) == 0
    requires Settles(w, OutputRound(l, p, [], each), h)
    requires hw % p != 0 ==> Settles(w, OutputRound(l, hw % p, before, eachLast), h)
    ensures Settles(w, OutputSchedule(l, p, hw, once, each, before, eachLast), h)
  {
    var rounds, last := Rep(hw / p, OutputRound(l, p, [], each)),
                        if hw % p != 0 then OutputRound(l, hw % p, before, eachLast) else [];
    SettlesRep(w, hw / p, OutputRound(l, p, [], each), h);
    if hw % p == 0 {
      SettlesNothing(w, [], h);
    }
    SettlesBoth(w, rounds, last, h);
    SettlesRep(w, l.c, OutputChannel(l, p, hw, each, before, eachLast), h);
    SettlesNothing(w, once, h);
    SettlesBoth(w, once, Rep(l.c, OutputChannel(l, p, hw, each, before, eachLast)), h);
    SettlesNothing(w, [Write(l.out, l.outSize, p)], h);
    SettlesBoth(w, once + Rep(l.c, OutputChannel(l, p, hw, each, before, eachLast)), [Write(l.out, l.outSize, p)], h);
  }

  /** The same without settling. */
  lemma {:induction false} OutputCovered(w: Op -> int, l: Layer, p: nat, hw: nat, once: seq<Op>,
                                         each: seq<Op>, before: seq<Op>, eachLast: seq<Op>)
    requires |l.sizes| >= 2 && p > 0 && Covered(w, once) && w(Write(l.out, l.outSize, p)) == 0
    requires Covered(w, OutputRound(l, p, [], each))
    requires hw % p != 0 ==> Covered(w, OutputRound(l, hw % p, before, eachLast))
    ensures Covered(w, OutputSchedule(l, p, hw, once, each, before, eachLast))
  {
    var rounds, last := Rep(hw / p, OutputRound(l, p, [], each)),
                        if hw % p != 0 then OutputRound(l, hw % p, before, eachLast) else [];
    CoveredRep(w, hw / p, OutputRound(l, p, [], each));
    if hw % p == 0 {
      CoveredNothing(w, []);
    }
    CoveredBoth(w, rounds, last);
    CoveredRep(w, l.c, OutputChannel(l, p, hw, each, before, eachLast));
    CoveredBoth(w, once, Rep(l.c, OutputChannel(l, p, hw, each, before, eachLast)));
    CoveredNothing(w, [Write(l.out, l.outSize, p)]);
    CoveredBoth(w, once + Rep(l.c, OutputChannel(l, p, hw, each, before, eachLast)), [Write(l.out, l.outSize, p)]);
  }

  /** What a round reads first is used up by its output channels. */
  lemma {:induction false} RoundSettles(w: Op -> int, l: Layer, n: nat, before: seq<Op>, each: seq<Op>, v: nat)
    requires |l.sizes| >= 2 && Ignores(w, before) && Ignores(w, each) && w(Broadcast(In(1), l.sizes[1])) == 0
    requires v <= 1 && w(Read(In(0), l.sizes[0], n)) == v * l.k && w(Compute(n)) == 0 - v
    ensures Settles(w, OutputRound(l, n, before, each), v * l.k)
  {
    var first, body := [Read(In(0), l.sizes[0], n)], ChannelBody(l, n, each);
    BringsOne(w, first[0]);
    BringsNothing(w, before);
    BringsBoth(w, first, before, v * l.k, 0);
    SpendsNothing(w, [Broadcast(In(1), l.sizes[1])]);
    SpendsNothing(w, each);
    SpendsBoth(w, [Broadcast(In(1), l.sizes[1])], each, 0, 0);
    SpendsOne(w, Compute(n));
    SpendsBoth(w, [Broadcast(In(1), l.sizes[1])] + each, [Compute(n)], 0, v);
    SpendsRep(w, l.k, body, v);
    Settled(w, first + before, Rep(l.k, body), v * l.k);
  }

  /** What each output channel reads is used by its computation. */
  lemma {:induction false} ChannelCovered(w: Op -> int, l: Layer, n: nat, before: seq<Op>, each: seq<Op>,
                                          u: int, v: int)
    requires |l.sizes| >= 2 && w(Read(In(0), l.sizes[0], n)) == 0 && Covered(w, before)
    requires w(Broadcast(In(1), l.sizes[1])) == u >= 0 && Brings(w, each, v) && 0 <= -w(Compute(n)) <= u + v
    ensures Covered(w, OutputRound(l, n, before, each))
  {
    var first, weight := [Read(In(0), l.sizes[0], n)], [Broadcast(In(1), l.sizes[1])];
    BringsOne(w, weight[0]);
    BringsBoth(w, weight, each, u, v);
    CoveredSpent(w, weight + each, Compute(n), u + v);
    CoveredRep(w, l.k, ChannelBody(l, n, each));
    CoveredNothing(w, first);
    CoveredBoth(w, first, before);
    CoveredBoth(w, first + before, Rep(l.k, ChannelBody(l, n, each)));
  }

  lemma {:induction false} ChannelSettles(w: Op -> int, l: Layer, n: nat, before: seq<Op>, each: seq<Op>)
    requires |l.sizes| >= 2 && w(Read(In(0), l.sizes[0], n)) == 0 && Ignores(w, before) && Ignores(w, each)
    requires w(Broadcast(In(1), l.sizes[1])) == 1 && w(Compute(n)) == -1
    ensures Settles(w, OutputRound(l, n, before, each), 1)
  {
    var first, weight := [Read(In(0), l.sizes[0], n)], [Broadcast(In(1), l.sizes[1])];
    BringsOne(w, weight[0]);
    BringsNothing(w, each);
    BringsBoth(w, weight, each, 1, 0);
    SpendsOne(w, Compute(n));
    Settled(w, weight + each, [Compute(n)], 1);
    SettlesRep(w, l.k, ChannelBody(l, n, each), 1);
    SettlesNothing(w, first, 1);
    SettlesNothing(w, before, 1);
    SettlesBoth(w, first, before, 1);
    SettlesBoth(w, first + before, Rep(l.k, ChannelBody(l, n, each)), 1);
  }

  // ----- what the three forms read besides -----

  ghost predicate Extras(q: Op -> bool, once: seq<Op>, each: seq<Op>, before: seq<Op>, eachLast: seq<Op>) {
    All(q, once) && All(q, each) && All(q, before) && All(q, eachLast)
  }

  ghost predicate AllIgnored(w: Op -> int, once: seq<Op>, each: seq<Op>, before: seq<Op>, eachLast: seq<Op>) {
    Ignores(w, once) && Ignores(w, each) && Ignores(w, before) && Ignores(w, eachLast)
  }

  lemma {:induction false} FusedForm(l: Layer, p: nat)
    requires |l.sizes| >= 4
    ensures Extras(ExtraRead(), [], FusedBias(l, p) + LastInputs(l, p, 4), FusedBias(l, p),
                   Bias(l, p) + LastInputs(l, p, 4))
    ensures |l.sizes| >= 6 ==> Extras(ParameterOp(), [], FusedBias(l, p) + LastInputs(l, p, 4), FusedBias(l, p),
                                      Bias(l, p) + LastInputs(l, p, 4))
  {
    LastAreReads(l, p, 4);
    if |l.sizes| >= 6 {
      LastAreParameters(l, p, 4);
    }
  }

  lemma {:induction false} OutputForm(l: Layer, p: nat, ops: seq<Op>)
    returns (once: seq<Op>, each: seq<Op>, before: seq<Op>, eachLast: seq<Op>)
    requires |l.sizes| >= 2 && p > 0 && IsOutputSchedule(l, p, ops)
    ensures ops == OutputSchedule(l, p, l.h * l.w, once, each, before, eachLast)
    ensures Extras(ExtraRead(), once, each, before, eachLast)
    ensures ParametersLast(l) ==> Extras(ParameterOp(), once, each, before, eachLast)
  {
    if ops == ConvOutputStationary(l, p) {
      once, each, before, eachLast := [], Bias(l, p), Bias(l, (l.h * l.w) % p), Bias(l, p);
    } else if (|l.sizes| > 2 ==> |l.original| > 2) && ops == ConvOutputReduction(l, p) {
      once, each, before, eachLast := BiasOnce(l, l.original), [], Bias(l, (l.h * l.w) % p), [];
    } else {
      once, each, before, eachLast := [], FusedBias(l, p) + LastInputs(l, p, 4), FusedBias(l, p),
        Bias(l, p) + LastInputs(l, p, 4);
      FusedForm(l, p);
    }
  }

  lemma {:induction false} ParametersAllIgnored(x: Event, n: nat, y: Event, once: seq<Op>,
                                                each: seq<Op>, before: seq<Op>, eachLast: seq<Op>)
    requires Extras(ParameterOp(), once, each, before, eachLast) && NoParameter(x) && NoParameter(y)
    ensures AllIgnored(Weigh(x, n, y), once, each, before, eachLast)
  {
    ParametersIgnored(x, n, y, once);
    ParametersIgnored(x, n, y, each);
    ParametersIgnored(x, n, y, before);
    ParametersIgnored(x, n, y, eachLast);
  }

  lemma {:induction false} ReadsAllIgnored(x: Event, n: nat, y: Event, once: seq<Op>,
                                           each: seq<Op>, before: seq<Op>, eachLast: seq<Op>)
    requires Extras(ExtraRead(), once, each, before, eachLast) && NoRead(x) && NoRead(y)
    ensures AllIgnored(Weigh(x, n, y), once, each, before, eachLast)
  {
    ReadsIgnored(x, n, y, once);
    ReadsIgnored(x, n, y, each);
    ReadsIgnored(x, n, y, before);
    ReadsIgnored(x, n, y, eachLast);
  }

  // ----- inputs and weights -----

  lemma {:induction false} LastRoundSettles(l: Layer, n: nat, before: seq<Op>, each: seq<Op>, pe: nat)
    requires |l.sizes| >= 2
    requires var w := Weigh(Fetched(In(0), pe), l.k, Computed(pe)); Ignores(w, before) && Ignores(w, each)
    ensures Settles(Weigh(Fetched(In(0), pe), l.k, Computed(pe)), OutputRound(l, n, before, each), l.k)
  {
    var w, v := Weigh(Fetched(In(0), pe), l.k, Computed(pe)), if pe < n then 1 else 0;
    assert v * l.k == if pe < n then l.k else 0;
    RoundSettles(w, l, n, before, each, v);
    RangesWiden(w, OutputRound(l, n, before, each), 0, v * l.k, 0, l.k);
  }

  lemma {:induction false} InputsSettle(l: Layer, p: nat, hw: nat, once: seq<Op>,
                                        each: seq<Op>, before: seq<Op>, eachLast: seq<Op>, pe: nat)
    requires |l.sizes| >= 2 && pe < p
    requires AllIgnored(Weigh(Fetched(In(0), pe), l.k, Computed(pe)), once, each, before, eachLast)
    ensures Settles(Weigh(Fetched(In(0), pe), l.k, Computed(pe)),
                    OutputSchedule(l, p, hw, once, each, before, eachLast), l.k)
  {
    LastRoundSettles(l, p, [], each, pe);
    LastRoundSettles(l, hw % p, before, eachLast, pe);
    OutputSettles(Weigh(Fetched(In(0), pe), l.k, Computed(pe)), l, p, hw, once, each, before, eachLast, l.k);
  }

  /** Each input tile is used for every output channel by the processing element that has read it, before it reads
      the next one. */
  lemma {:induction false} InputsInOrder(m: Machine, l: Layer, ops: seq<Op>, start: Start, pe: nat)
    requires m.numPE > 0 && ParametersLast(l) && IsOutputSchedule(l, m.numPE, ops) && pe < m.numPE
    ensures ServesIn(m, ops, start, Fetched(In(0), pe), l.k, Computed(pe))
  {
    var once, each, before, eachLast := OutputForm(l, m.numPE, ops);
    ParametersAllIgnored(Fetched(In(0), pe), l.k, Computed(pe), once, each, before, eachLast);
    InputsSettle(l, m.numPE, l.h * l.w, once, each, before, eachLast, pe);
    TraceServes(m, ops, start, Fetched(In(0), pe), l.k, Computed(pe));
  }

  lemma {:induction false} WeightsCover(l: Layer, p: nat, hw: nat, once: seq<Op>,
                                        each: seq<Op>, before: seq<Op>, eachLast: seq<Op>, pe: nat)
    requires |l.sizes| >= 2 && pe < p
    requires AllIgnored(Weigh(Cast(In(1)), 1, Computed(pe)), once, each, before, eachLast)
    ensures Covered(Weigh(Cast(In(1)), 1, Computed(pe)), OutputSchedule(l, p, hw, once, each, before, eachLast))
  {
    var w := Weigh(Cast(In(1)), 1, Computed(pe));
    BringsNothing(w, each);
    BringsNothing(w, eachLast);
    CoveredNothing(w, []);
    CoveredNothing(w, before);
    CoveredNothing(w, once);
    ChannelCovered(w, l, p, [], each, 1, 0);
    ChannelCovered(w, l, hw % p, before, eachLast, 1, 0);
    OutputCovered(w, l, p, hw, once, each, before, eachLast);
  }

  lemma {:induction false} WeightsSettle(l: Layer, p: nat, hw: nat, once: seq<Op>,
                                         each: seq<Op>, before: seq<Op>, eachLast: seq<Op>, pe: nat)
    requires |l.sizes| >= 2 && pe < p && (hw % p == 0 || pe < hw % p)
    requires AllIgnored(Weigh(Cast(In(1)), 1, Computed(pe)), once, each, before, eachLast)
    ensures Settles(Weigh(Cast(In(1)), 1, Computed(pe)), OutputSchedule(l, p, hw, once, each, before, eachLast), 1)
  {
    var w := Weigh(Cast(In(1)), 1, Computed(pe));
    ChannelSettles(w, l, p, [], each);
    if hw % p != 0 {
      ChannelSettles(w, l, hw % p, before, eachLast);
    }
    OutputSettles(w, l, p, hw, once, each, before, eachLast, 1);
  }

  /** No processing element computes before it has been sent a weight tile for it; one that takes part in every round
      computes exactly once for each. */
  lemma {:induction false} WeightsFirst(m: Machine, l: Layer, ops: seq<Op>, start: Start, pe: nat)
    requires m.numPE > 0 && |l.sizes| >= 2 && IsOutputSchedule(l, m.numPE, ops) && pe < m.numPE
    ensures NeverBeforeIn(m, ops, start, Cast(In(1)), Computed(pe))
    ensures (l.h * l.w) % m.numPE == 0 || pe < (l.h * l.w) % m.numPE ==>
              ServesIn(m, ops, start, Cast(In(1)), 1, Computed(pe))
  {
    var hw, x, y := l.h * l.w, Cast(In(1)), Computed(pe);
    var once, each, before, eachLast := OutputForm(l, m.numPE, ops);
    ReadsAllIgnored(x, 1, y, once, each, before, eachLast);
    WeightsCover(l, m.numPE, hw, once, each, before, eachLast, pe);
    CoveredNeverBefore(m, ops, start, x, y);
    if hw % m.numPE == 0 || pe < hw % m.numPE {
      WeightsSettle(l, m.numPE, hw, once, each, before, eachLast, pe);
      TraceServes(m, ops, start, x, 1, y);
    }
  }

  // ----- biases and normalisation parameters -----

  /** A parameter that every output channel reads is there before it computes. */
  lemma {:induction false} ParameterFirst(m: Machine, l: Layer, each: seq<Op>, before: seq<Op>, eachLast: seq<Op>,
                                          start: Start, j: nat, pe: nat, u: int, v: int)
    requires m.numPE > 0 && |l.sizes| >= 2 && pe < m.numPE && j >= 2 && u >= 1 && v >= 1
    requires var w := Weigh(Fetched(In(j), pe), 1, Computed(pe));
             Brings(w, each, u) && Covered(w, before) && Brings(w, eachLast, v)
    ensures NeverBeforeIn(m, OutputSchedule(l, m.numPE, l.h * l.w, [], each, before, eachLast), start,
                          Fetched(In(j), pe), Computed(pe))
  {
    var w, hw := Weigh(Fetched(In(j), pe), 1, Computed(pe)), l.h * l.w;
    CoveredNothing(w, []);
    ChannelCovered(w, l, m.numPE, [], each, 0, u);
    ChannelCovered(w, l, hw % m.numPE, before, eachLast, 0, v);
    OutputCovered(w, l, m.numPE, hw, [], each, before, eachLast);
    CoveredNeverBefore(m, OutputSchedule(l, m.numPE, hw, [], each, before, eachLast), start,
                       Fetched(In(j), pe), Computed(pe));
  }

  /** The bias is read before every computation. */
  lemma {:induction false} OutputBiasInOrder(m: Machine, l: Layer, start: Start, pe: nat)
    requires m.numPE > 0 && |l.sizes| > 2 && pe < m.numPE
    ensures NeverBeforeIn(m, ConvOutputStationary(l, m.numPE), start, Fetched(In(2), pe), Computed(pe))
  {
    var p, r := m.numPE, (l.h * l.w) % m.numPE;
    var w := Weigh(Fetched(In(2), pe), 1, Computed(pe));
    BringsOne(w, Read(In(2), l.sizes[2], p));
    BringsOne(w, Read(In(2), l.sizes[2], r));
    assert Ranges(w, Bias(l, r), 0, w(Read(In(2), l.sizes[2], r)));
    ParameterFirst(m, l, Bias(l, p), Bias(l, r), Bias(l, p), start, 2, pe, 1, 1);
  }

  /** So is every parameter of a fused normalisation. */
  lemma {:induction false} FusedOutputParametersInOrder(m: Machine, l: Layer, start: Start, pe: nat, j: nat)
    requires m.numPE > 0 && |l.sizes| >= 6 && pe < m.numPE && FusedParameter(l, j)
    ensures NeverBeforeIn(m, ConvBatchnormOutput(l, m.numPE), start, Fetched(In(j), pe), Computed(pe))
  {
    var p, w := m.numPE, Weigh(Fetched(In(j), pe), 1, Computed(pe));
    OnlyReadsOf(p, j, 1, pe, Computed(pe));
    FusedBrings(w, l, p, j, 1);
    BiasBrings(w, l, p, j, 1);
    LastInputsBring(w, l, p, 4, j, 1);
    var u, v := if j == 2 then 1 else 0, if |l.sizes| - 4 <= j < |l.sizes| then 1 else 0;
    BringsBoth(w, Bias(l, p), LastInputs(l, p, 4), u, v);
    assert Ranges(w, FusedBias(l, p), 0, if j == 2 && |l.sizes| == 7 then 1 else 0);
    ParameterFirst(m, l, FusedBias(l, p) + LastInputs(l, p, 4), FusedBias(l, p), Bias(l, p) + LastInputs(l, p, 4),
                   start, j, pe, 1, u + v);
  }

  lemma {:induction false} ChannelSpends(w: Op -> int, l: Layer, n: nat, before: seq<Op>, each: seq<Op>, v: int)
    requires |l.sizes| >= 2 && w(Read(In(0), l.sizes[0], n)) == 0 && Ignores(w, before) && Ignores(w, each)
    requires w(Broadcast(In(1), l.sizes[1])) == 0 && w(Compute(n)) == -v <= 0
    ensures Spends(w, OutputRound(l, n, before, each), l.k * v)
  {
    var first, weight := [Read(In(0), l.sizes[0], n)], [Broadcast(In(1), l.sizes[1])];
    SpendsNothing(w, weight);
    SpendsNothing(w, each);
    SpendsBoth(w, weight, each, 0, 0);
    SpendsOne(w, Compute(n));
    SpendsBoth(w, weight + each, [Compute(n)], 0, v);
    SpendsRep(w, l.k, ChannelBody(l, n, each), v);
    SpendsNothing(w, first);
    SpendsNothing(w, before);
    SpendsBoth(w, first, before, 0, 0);
    SpendsBoth(w, first + before, Rep(l.k, ChannelBody(l, n, each)), 0, l.k * v);
  }

  lemma {:induction false} LastSpends(w: Op -> int, l: Layer, r: nat, before: seq<Op>, pe: nat)
    requires |l.sizes| >= 2 && Ignores(w, before) && w(Broadcast(In(1), l.sizes[1])) == 0
    requires w(Read(In(0), l.sizes[0], r)) == 0 && w(Compute(r)) == if pe < r then -1 else 0
    ensures Spends(w, if r != 0 then OutputRound(l, r, before, []) else [], if pe < r then l.k else 0)
  {
    SpendsNothing(w, []);
    if r != 0 {
      ChannelSpends(w, l, r, before, [], if pe < r then 1 else 0);
    }
  }

  lemma {:induction false} RoundsSpend(w: Op -> int, l: Layer, p: nat, hw: nat, before: seq<Op>, pe: nat)
    requires |l.sizes| >= 2 && pe < p && Ignores(w, before) && w(Broadcast(In(1), l.sizes[1])) == 0
    requires w(Read(In(0), l.sizes[0], p)) == 0 && w(Read(In(0), l.sizes[0], hw % p)) == 0
    requires w(Compute(p)) == -1 && w(Compute(hw % p)) == if pe < hw % p then -1 else 0
    ensures Spends(w, OutputChannel(l, p, hw, [], before, []), Share(hw, p, pe) * l.k)
  {
    ChannelSpends(w, l, p, [], [], 1);
    LastSpends(w, l, hw % p, before, pe);
    DealtOut(w, hw, p, pe, OutputRound(l, p, [], []), if hw % p != 0 then OutputRound(l, hw % p, before, []) else [],
             l.k);
  }

  /** Aggregated, the bias is broadcast once before all computations. */
  lemma {:induction false} OutputBiasAtOnce(m: Machine, l: Layer, start: Start, pe: nat)
    requires m.numPE > 0 && |l.sizes| > 2 && |l.original| > 2 && pe < m.numPE
    ensures ServesIn(m, ConvOutputReduction(l, m.numPE), start, Cast(In(2)),
                     l.c * (Share(l.h * l.w, m.numPE, pe) * l.k), Computed(pe))
  {
    var p, hw := m.numPE, l.h * l.w;
    var n := l.c * (Share(hw, p, pe) * l.k);
    BiasAtOnceSettles(l, p, hw, pe, n);
    TraceServes(m, ConvOutputReduction(l, p), start, Cast(In(2)), n, Computed(pe));
  }

  lemma {:induction false} BiasAtOnceSettles(l: Layer, p: nat, hw: nat, pe: nat, n: nat)
    requires |l.sizes| > 2 && |l.original| > 2 && pe < p && n == l.c * (Share(hw, p, pe) * l.k)
    ensures Settles(Weigh(Cast(In(2)), n, Computed(pe)),
                    OutputSchedule(l, p, hw, BiasOnce(l, l.original), [], Bias(l, hw % p), []), n)
  {
    var w, once := Weigh(Cast(In(2)), n, Computed(pe)), BiasOnce(l, l.original);
    var channel := OutputChannel(l, p, hw, [], Bias(l, hw % p), []);
    RoundsSpend(w, l, p, hw, Bias(l, hw % p), pe);
    SpendsRep(w, l.c, channel, Share(hw, p, pe) * l.k);
    BringsOne(w, Broadcast(In(2), l.original[2]));
    Settled(w, once, Rep(l.c, channel), n);
    SettlesNothing(w, [Write(l.out, l.outSize, p)], n);
    SettlesBoth(w, once + Rep(l.c, channel), [Write(l.out, l.outSize, p)], n);
  }

  // ----- writes -----

  function NoWrite(): Op -> bool {
    (op: Op) => !op.Write?
  }

  lemma {:induction false} NothingWritten(m: Machine, ops: seq<Op>, start: Start)
    requires All(NoWrite(), ops)
    ensures forall i :: 0 <= i < |Trace(m, ops, start)| ==> Trace(m, ops, start)[i].kind != WRITE
  {
    if ops != [] {
      var k := |ops| - 1;
      NothingWritten(m, ops[..k], start);
      EmitsNoWrite(m, ops[k], Base(ops[k], ops[..k], start));
    }
  }

  lemma {:induction false} EmitsNoWrite(m: Machine, op: Op, base: int)
    requires !op.Write?
    ensures forall i :: 0 <= i < |Emit(m, op, base)| ==> Emit(m, op, base)[i].kind != WRITE
  {
    match op
    case Read(slot, size, n) => BurstShape(READ, slot, base, size, n);
    case Broadcast(slot, size) => SyncsShape(slot, m.numPE);
    case Compute(n) => WorksShape(m.addr, n);
  }

  lemma {:induction false} WritesLast(m: Machine, front: seq<Op>, start: Start, slot: Slot, size: nat)
    requires All(NoWrite(), front)
    ensures var t := Trace(m, front + [Write(slot, size, m.numPE)], start);
            ComeLast(t, WRITE) && forall pe: nat :: pe < m.numPE ==> Count(Stored(pe), t) == 1
  {
    var op, t := Write(slot, size, m.numPE), Trace(m, front, start);
    var e := Emit(m, op, Base(op, front, start));
    TraceAppend(m, front, op, start);
    NothingWritten(m, front, start);
    BurstShape(WRITE, slot, Base(op, front, start), size, m.numPE);
    forall pe: nat | pe < m.numPE ensures Count(Stored(pe), t + e) == 1 {
      CountConcat(Stored(pe), t, e);
      KeepNone(Is(Stored(pe)), t);
      EmitCount(Stored(pe), m, op, Base(op, front, start));
    }
  }

  /** Everything is read and computed before anything is written, and each processing element writes exactly once. */
  lemma {:induction false} OutputWritesLast(m: Machine, l: Layer, ops: seq<Op>, start: Start)
    requires m.numPE > 0 && |l.sizes| >= 2 && IsOutputSchedule(l, m.numPE, ops)
    ensures ComeLast(Trace(m, ops, start), WRITE)
    ensures forall pe: nat :: pe < m.numPE ==> Count(Stored(pe), Trace(m, ops, start)) == 1
  {
    var p, hw := m.numPE, l.h * l.w;
    var once, each, before, eachLast := OutputForm(l, p, ops);
    FrontWritesNothing(l, p, hw, once, each, before, eachLast);
    WritesLast(m, once + Rep(l.c, OutputChannel(l, p, hw, each, before, eachLast)), start, l.out, l.outSize);
  }

  lemma {:induction false} ReadsWriteNothing(ops: seq<Op>)
    requires All(ExtraRead(), ops)
    ensures All(NoWrite(), ops)
  {
    forall i | 0 <= i < |ops| ensures NoWrite()(ops[i]) {
      assert ExtraRead()(ops[i]);
    }
  }

  lemma {:induction false} FrontWritesNothing(l: Layer, p: nat, hw: nat, once: seq<Op>,
                                              each: seq<Op>, before: seq<Op>, eachLast: seq<Op>)
    requires |l.sizes| >= 2 && p > 0 && Extras(ExtraRead(), once, each, before, eachLast)
    ensures All(NoWrite(), once + Rep(l.c, OutputChannel(l, p, hw, each, before, eachLast)))
  {
    ReadsWriteNothing(once);
    ReadsWriteNothing(each);
    ReadsWriteNothing(before);
    ReadsWriteNothing(eachLast);
    AllRound(NoWrite(), l, p, [], each);
    AllRound(NoWrite(), l, hw % p, before, eachLast);
    AllRep(NoWrite(), hw / p, OutputRound(l, p, [], each));
    AllRep(NoWrite(), l.c, OutputChannel(l, p, hw, each, before, eachLast));
  }
}
