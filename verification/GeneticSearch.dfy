/** The genetic search over the tile sizes of one layer.

Selection, crossover points, mutation and initial choices are left open, so what
is proved holds for every run of the search.
*/
module GeneticSearch {
  import opened Collections
  import opened DesignSpace

  type Space = seq<seq<nat>>

  type Individual = seq<nat>

  datatype Dataflow = Nvdla | Shi | OtherFlow

  // ----- the gene space -----

  predicate Pinned(conv: bool, flow: Dataflow, i: nat) {
    match flow
    case Nvdla => i != 1 && !(conv && i == 4)
    case Shi => i != 2 && i != 3
    case OtherFlow => false
  }

  /** Python's `s[n:]`. */
  function Drop<T>(s: seq<T>, n: nat): seq<T> {
    if n <= |s| then s[n..] else []
  }

  /** The weight's channel dimension has no gene of its own. */
  function Selected(conv: bool, genes: Space): Space {
    if conv then Take(genes, 5) + Drop(genes, 6) else Take(genes, 5)
  }

  function Encoded(conv: bool, flow: Dataflow, genes: Space): Space {
    var s := Selected(conv, genes);
    seq(|s|, i requires 0 <= i < |s| => if Pinned(conv, flow, i) then [1] else s[i])
  }

  method Encode(conv: bool, flow: Dataflow, genes: Space) returns (space: Space)
    ensures space == Encoded(conv, flow, genes)
  {
    space := Take(genes, 5);
    if conv {
      space := space + Drop(genes, 6);
    }
    ghost var s := space;
    for i := 0 to |space|
      invariant |space| == |s|
      invariant forall j :: 0 <= j < i ==> space[j] == Encoded(conv, flow, genes)[j]
      invariant forall j :: i <= j < |s| ==> space[j] == s[j]
    {
      if Pinned(conv, flow, i) {
        space := space[i := [1]];
      }
    }
  }

  /** For a convolution the first dataflow varies the channels of input and output, the second height and width of the
      input, and any other everything but the weight's channels. */
  lemma {:induction false} EncodedConvolution(genes: Space)
    requires |genes| == 8
    ensures Encoded(true, Nvdla, genes) == [[1], genes[1], [1], [1], genes[4], [1], [1]]
    ensures Encoded(true, Shi, genes) == [[1], [1], genes[2], genes[3], [1], [1], [1]]
    ensures Encoded(true, OtherFlow, genes) == genes[..5] + genes[6..]
  {
  }

  /** The same for any number of dimensions, and for other operators, of which up to five dimensions are kept and the
      first dataflow varies the channels only. */
  lemma {:induction false} EncodedMeaning(conv: bool, flow: Dataflow, genes: Space, i: nat)
    requires i < |genes| && (i < 5 || (conv && i != 5))
    ensures var space, k := Encoded(conv, flow, genes), if i < 5 then i else i - 1;
            && k < |space|
            && space[k] == if flow == OtherFlow || (flow == Nvdla && (i == 1 || (conv && i == 4)))
                              || (flow == Shi && (i == 2 || i == 3)) then genes[i] else [1]
  {
  }

  lemma {:induction false} EncodedLength(conv: bool, flow: Dataflow, genes: Space)
    ensures |Encoded(conv, flow, genes)|
            == if |genes| <= 5 then |genes| else if conv then |genes| - 1 else 5
  {
  }

  // ----- staying inside the space -----

  ghost predicate InSpace(space: Space, ind: Individual) {
    |ind| == |space| && forall i :: 0 <= i < |space| ==> ind[i] in space[i]
  }

  ghost predicate AllInSpace(space: Space, pop: seq<Individual>) {
    forall i :: 0 <= i < |pop| ==> InSpace(space, pop[i])
  }

  /** Every position offers a choice. */
  ghost predicate Choosable(space: Space) {
    forall i :: 0 <= i < |space| ==> space[i] != []
  }

  method InitIndividual(space: Space) returns (ind: Individual)
    requires Choosable(space)
    ensures InSpace(space, ind)
  {
    ind := [];
    for i := 0 to |space|
      invariant |ind| == i && forall j :: 0 <= j < i ==> ind[j] in space[j]
    {
      assert space[i][0] in space[i];
      var gene :| gene in space[i];
      ind := ind + [gene];
    }
  }

  method CustomMutate(space: Space, individual: Individual) returns (ind: Individual)
    requires Choosable(space) && InSpace(space, individual)
    ensures InSpace(space, ind)
  {
    ind := individual;
    for i := 0 to |ind|
      invariant InSpace(space, ind)
    {
      if * {
        var gene :| gene in space[i];
        ind := ind[i := gene];
      }
    }
  }

  /** Swaps the genes from position `lo` up to position `hi`. */
  function Exchange(a: Individual, b: Individual, lo: nat, hi: nat): Individual
    requires lo <= hi <= |a| && hi <= |b|
  {
    a[..lo] + b[lo..hi] + a[hi..]
  }

  /** A crossover of two individuals moves genes between equal positions only: at each position the two
      children hold the two genes the parents hold there. */
  lemma {:induction false} ExchangeKeepsGenes(a: Individual, b: Individual, lo: nat, hi: nat, i: nat)
    requires |a| == |b| && lo <= hi <= |a| && i < |a|
    ensures |Exchange(a, b, lo, hi)| == |a| && |Exchange(b, a, lo, hi)| == |b|
    ensures multiset{Exchange(a, b, lo, hi)[i], Exchange(b, a, lo, hi)[i]} == multiset{a[i], b[i]}
  {
  }

  method Mate(space: Space, a: Individual, b: Individual) returns (a': Individual, b': Individual)
    requires InSpace(space, a) && InSpace(space, b)
    ensures InSpace(space, a') && InSpace(space, b')
    ensures exists lo, hi :: 0 <= lo <= hi <= |space| && a' == Exchange(a, b, lo, hi) && b' == Exchange(b, a, lo, hi)
  {
    var lo, hi :| 0 <= lo <= hi <= |space|;
    a', b' := Exchange(a, b, lo, hi), Exchange(b, a, lo, hi);
    forall i | 0 <= i < |space| ensures a'[i] in space[i] && b'[i] in space[i] {
      ExchangeKeepsGenes(a, b, lo, hi, i);
      assert a'[i] == a[i] || a'[i] == b[i];
    }
  }

  /** Selection takes members of the population, as many as there are. */
  method Select(space: Space, pop: seq<Individual>) returns (offspring: seq<Individual>)
    requires AllInSpace(space, pop)
    ensures AllInSpace(space, offspring) && |offspring| == |pop|
    ensures forall i :: 0 <= i < |offspring| ==> offspring[i] in pop
  {
    offspring := [];
    for i := 0 to |pop|
      invariant |offspring| == i && AllInSpace(space, offspring)
      invariant forall k :: 0 <= k < i ==> offspring[k] in pop
    {
      var j :| 0 <= j < |pop|;
      offspring := offspring + [pop[j]];
    }
  }

  method NextGeneration(space: Space, pop: seq<Individual>) returns (offspring: seq<Individual>)
    requires Choosable(space) && AllInSpace(space, pop)
    ensures AllInSpace(space, offspring) && |offspring| == |pop|
  {
    offspring := Select(space, pop);
    for i := 0 to |offspring| / 2
      invariant AllInSpace(space, offspring) && |offspring| == |pop|
    {
      if * {
        var a, b := Mate(space, offspring[2 * i], offspring[2 * i + 1]);
        offspring := offspring[2 * i := a][2 * i + 1 := b];
      }
    }
    for i := 0 to |offspring|
      invariant AllInSpace(space, offspring) && |offspring| == |pop|
    {
      if * {
        var m := CustomMutate(space, offspring[i]);
        offspring := offspring[i := m];
      }
    }
  }

  /** The whole search, with every population it goes through. */
  method Run(space: Space, generations: nat, solPerPop: nat)
    returns (pop: seq<Individual>, history: seq<seq<Individual>>)
    requires Choosable(space)
    ensures |history| == generations + 1 && history[generations] == pop
    ensures forall g :: 0 <= g <= generations ==> |history[g]| == solPerPop && AllInSpace(space, history[g])
  {
    pop := [];
    for i := 0 to solPerPop
      invariant |pop| == i && AllInSpace(space, pop)
    {
      var ind := InitIndividual(space);
      pop := pop + [ind];
    }
    history := [pop];
    for g := 0 to generations
      invariant |history| == g + 1 && history[g] == pop
      invariant forall j :: 0 <= j <= g ==> |history[j]| == solPerPop && AllInSpace(space, history[j])
    {
      pop := NextGeneration(space, pop);
      history := history + [pop];
    }
  }

  // ----- what is exported -----

  datatype Split = Split(inputTile: seq<nat>, weightTile: seq<nat>)

  /** The tiles of an individual; a convolution's weight shares the input's channel tile. */
  function GenSplit(conv: bool, sol: Individual): Split
    requires conv ==> |sol| >= 7
  {
    Split(Take(sol, 4), if conv then [sol[4], sol[1], sol[5], sol[6]] else [])
  }

  predicate Divides(d: nat, v: nat) {
    d > 0 && v % d == 0
  }

  ghost predicate TilesDivide(s: Split, input: seq<nat>, weight: seq<nat>)
    requires |input| == 4 && |weight| == 4
  {
    && |s.inputTile| == 4 && |s.weightTile| == 4
    && (forall i :: 0 <= i < 4 ==> Divides(s.inputTile[i], input[i]))
    && Divides(s.weightTile[0], weight[0]) && Divides(s.weightTile[2], weight[2])
    && Divides(s.weightTile[3], weight[3])
    && s.weightTile[1] == s.inputTile[1]
  }

  /** The tile sizes of a four-dimensional input and weight. */
  ghost predicate ConvGenes(genes: seq<seq<nat>>, input: seq<nat>, weight: seq<nat>) {
    && |input| == 4 && |weight| == 4 && Positive(input) && Positive(weight)
    && genes == ShapeGenes(input) + ShapeGenes(weight)
  }

  /** A convolution layer with a four-dimensional input and weight. */
  ghost predicate ConvLayer(l: Layer, input: seq<nat>, weight: seq<nat>) {
    var p := DesignOf(l, |l|);
    p.Point? && p.opType == "Conv" && ConvGenes(p.genes, input, weight)
  }

  lemma {:induction false} BiasesAddNothing(ts: seq<TensorInfo>, n: nat)
    requires 2 <= n <= |ts| && !NamesBias(ts[0].name) && !NamesBias(ts[1].name)
    requires forall i :: 2 <= i < |ts| ==> NamesBias(ts[i].name)
    ensures TensorGenes(ts, n) == ShapeGenes(ts[0].shape) + ShapeGenes(ts[1].shape)
  {
    if n == 2 {
      assert TensorGenes(ts, 1) == TensorGenes(ts, 0) + ShapeGenes(ts[0].shape);
    } else {
      BiasesAddNothing(ts, n - 1);
    }
  }

  /** One group with an input, a weight and tensors named as biases is such a layer. */
  lemma {:induction false} ConvLayerOf(name: string, ts: seq<TensorInfo>)
    requires |ts| >= 2 && |ts[0].shape| == 4 && |ts[1].shape| == 4 && Positive(ts[0].shape) && Positive(ts[1].shape)
    requires !NamesBias(ts[0].name) && !NamesBias(ts[1].name)
    requires forall i :: 2 <= i < |ts| ==> NamesBias(ts[i].name)
    ensures ConvLayer([TypeOf("Conv"), Operator(name, [ts])], ts[0].shape, ts[1].shape)
  {
    BiasesAddNothing(ts, |ts|);
    TypeFirst("Conv", name, [ts]);
    assert LayerGenes([ts], 1) == LayerGenes([ts], 0) + TensorGenes(ts, |ts|);
  }

  /** The dimension that position `i` of an individual belongs to. */
  function Dimension(input: seq<nat>, weight: seq<nat>, i: nat): nat
    requires |input| == 4 && |weight| == 4 && i < 7
  {
    if i < 4 then input[i] else if i == 4 then weight[0] else weight[i - 3]
  }

  lemma {:induction false} EncodedDivides(genes: seq<seq<nat>>, input: seq<nat>, weight: seq<nat>, flow: Dataflow,
                                          i: nat)
    requires ConvGenes(genes, input, weight) && i < 7
    ensures var space := Encoded(true, flow, genes);
            && |space| == 7 && space[i] != []
            && forall d :: d in space[i] ==> Divides(d, Dimension(input, weight, i))
  {
    var v := Dimension(input, weight, i);
    assert Selected(true, genes)[i] == Divisors(v);
    SecondsAreDivisors(v);
    assert 1 in Divisors(v);
  }

  lemma {:induction false} TileDivides(genes: seq<seq<nat>>, input: seq<nat>, weight: seq<nat>, flow: Dataflow,
                                       ind: Individual, i: nat)
    requires ConvGenes(genes, input, weight) && i < 7
    requires InSpace(Encoded(true, flow, genes), ind)
    ensures |ind| == 7 && Divides(ind[i], Dimension(input, weight, i))
  {
    EncodedDivides(genes, input, weight, flow, i);
    assert ind[i] in Encoded(true, flow, genes)[i];
  }

  lemma {:induction false} SplitDivides(input: seq<nat>, weight: seq<nat>, ind: Individual)
    requires |input| == 4 && |weight| == 4 && |ind| == 7
    requires forall i :: 0 <= i < 7 ==> Divides(ind[i], Dimension(input, weight, i))
    ensures TilesDivide(GenSplit(true, ind), input, weight)
  {
    assert Divides(ind[4], weight[0]) && Divides(ind[5], weight[2]) && Divides(ind[6], weight[3]);
  }

  /** Whatever the search does, every individual of every generation exports tiles that divide the layer's
      dimensions, with one channel tile for input and weight. */
  lemma {:induction false} ExportedTilesDivide(genes: seq<seq<nat>>, input: seq<nat>, weight: seq<nat>,
                                               flow: Dataflow, ind: Individual)
    requires ConvGenes(genes, input, weight)
    requires InSpace(Encoded(true, flow, genes), ind)
    ensures |ind| == 7 && TilesDivide(GenSplit(true, ind), input, weight)
  {
    TileDivides(genes, input, weight, flow, ind, 0);
    forall i | 0 <= i < 7 ensures Divides(ind[i], Dimension(input, weight, i)) {
      TileDivides(genes, input, weight, flow, ind, i);
    }
    SplitDivides(input, weight, ind);
  }

  /** The search on a convolution layer: it never gets stuck, keeps its population size, and every split it
      exports in any generation is legal. */
  method SearchLayer(l: Layer, flow: Dataflow, generations: nat, solPerPop: nat,
                     ghost input: seq<nat>, ghost weight: seq<nat>)
    returns (history: seq<seq<Individual>>)
    requires ConvLayer(l, input, weight)
    ensures |history| == generations + 1
    ensures forall g :: 0 <= g <= generations ==> |history[g]| == solPerPop
    ensures forall g, i :: 0 <= g <= generations && 0 <= i < solPerPop ==>
              |history[g][i]| == 7 && TilesDivide(GenSplit(true, history[g][i]), input, weight)
  {
    var point := GetDesignPoint(l);
    var space := Encode(point.opType == "Conv", flow, point.genes);
    forall i | 0 <= i < |space| ensures space[i] != [] {
      EncodedDivides(point.genes, input, weight, flow, 0);
      EncodedDivides(point.genes, input, weight, flow, i);
    }
    var pop;
    pop, history := Run(space, generations, solPerPop);
    forall g, i | 0 <= g <= generations && 0 <= i < solPerPop
      ensures |history[g][i]| == 7 && TilesDivide(GenSplit(true, history[g][i]), input, weight)
    {
      assert InSpace(space, history[g][i]);
      ExportedTilesDivide(point.genes, input, weight, flow, history[g][i]);
    }
  }
}
