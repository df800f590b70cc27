/** The order of the records in the list that a generator leaves behind. */
module GeneratorOrder {
  import opened TrafficTrace
  import opened TrafficSchedules
  import opened TrafficCoverage
  import opened TrafficOrder
  import opened TrafficGeneration
  import WeightOrder
  import OutputOrder
  import ElementOrder

  lemma {:induction false} ListIsTrace(g: TrafficGenerator)
    requires g.Valid()
    ensures g.trafficList == Trace(g.machine, g.log, g.start)
  {
  }

  /** What serves one by one never falls behind and comes out even. */
  lemma {:induction false} OneByOne(t: seq<Traffic>, x: Event, y: Event)
    requires Serves(t, x, 1, y)
    ensures NeverBefore(t, x, y) && Count(y, t) == Count(x, t)
  {
    NotBefore(t, x, y, 1);
  }

  /** After any of the three weight-stationary generators: at every point of the list a processing element has written
      no more than it has computed and computed no more than input tiles were broadcast, and in the end all three are
      equal. */
  lemma {:induction false} WeightListInOrder(g: TrafficGenerator, pe: nat)
    requires g.Valid() && |g.layer.sizes| >= 2 && IsWeightSchedule(g.layer, g.machine.numPE, g.log)
    requires pe < g.machine.numPE
    ensures NeverBefore(g.trafficList, Cast(In(0)), Computed(pe))
    ensures NeverBefore(g.trafficList, Computed(pe), Stored(pe))
    ensures Count(Cast(In(0)), g.trafficList) == Count(Computed(pe), g.trafficList) == Count(Stored(pe), g.trafficList)
  {
    WeightOrder.WeightTilesInOrder(g.machine, g.layer, g.log, g.start, pe);
    ListIsTrace(g);
    OneByOne(g.trafficList, Cast(In(0)), Computed(pe));
    OneByOne(g.trafficList, Computed(pe), Stored(pe));
  }

  /** After any of the three output-stationary generators: nothing but writes follows the first write, each processing
      element has written once, and at no point has one computed more than weight tiles were broadcast. */
  lemma {:induction false} OutputListInOrder(g: TrafficGenerator, pe: nat)
    requires g.Valid() && |g.layer.sizes| >= 2 && IsOutputSchedule(g.layer, g.machine.numPE, g.log)
    requires pe < g.machine.numPE
    ensures ComeLast(g.trafficList, WRITE) && Count(Stored(pe), g.trafficList) == 1
    ensures NeverBefore(g.trafficList, Cast(In(1)), Computed(pe))
  {
    OutputOrder.OutputWritesLast(g.machine, g.layer, g.log, g.start);
    OutputOrder.WeightsFirst(g.machine, g.layer, g.log, g.start, pe);
    ListIsTrace(g);
  }

  /** After the element-wise and the normalising generators: at every point of the list a processing element has
      written no more than it has computed and computed no more than it has read of the first input, and in the end
      it has written all it has computed. */
  lemma {:induction false} ElementListInOrder(g: TrafficGenerator, pe: nat)
    requires g.Valid() && |g.layer.sizes| >= 1 && pe < g.machine.numPE
    requires var l, p, n := g.layer, g.machine.numPE, g.numSubgraph;
             || g.log == ElementWise(l, p, n) || g.log == Batchnorm(l, p, n)
             || (|l.original| <= |l.sizes| && g.log == BatchnormReduction(l, p))
    ensures NeverBefore(g.trafficList, Fetched(In(0), pe), Computed(pe))
    ensures NeverBefore(g.trafficList, Computed(pe), Stored(pe))
    ensures Count(Computed(pe), g.trafficList) == Count(Stored(pe), g.trafficList)
  {
    ElementServes(g, pe);
    ListIsTrace(g);
    NotBefore(g.trafficList, Fetched(In(0), pe), Computed(pe), 1);
    OneByOne(g.trafficList, Computed(pe), Stored(pe));
  }

  lemma {:induction false} ElementServes(g: TrafficGenerator, pe: nat)
    requires g.Valid() && |g.layer.sizes| >= 1 && pe < g.machine.numPE
    requires var l, p, n := g.layer, g.machine.numPE, g.numSubgraph;
             || g.log == ElementWise(l, p, n) || g.log == Batchnorm(l, p, n)
             || (|l.original| <= |l.sizes| && g.log == BatchnormReduction(l, p))
    ensures LeadsIn(g.machine, g.log, g.start, Fetched(In(0), pe), 1, Computed(pe))
    ensures ServesIn(g.machine, g.log, g.start, Computed(pe), 1, Stored(pe))
  {
    if g.log == ElementWise(g.layer, g.machine.numPE, g.numSubgraph) {
      ElementOrder.ElementWiseInOrder(g.machine, g.layer, g.numSubgraph, g.start, pe, 0);
    } else if g.log == Batchnorm(g.layer, g.machine.numPE, g.numSubgraph) {
      ElementOrder.BatchnormInOrder(g.machine, g.layer, g.numSubgraph, g.start, pe);
    } else {
      ElementOrder.BatchnormReductionInOrder(g.machine, g.layer, g.start, pe);
    }
  }
}
