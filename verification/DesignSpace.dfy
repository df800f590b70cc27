/** The software design space: all factorisations of a dimension, found by dynamic programming, and the tile
    sizes offered for each dimension of a layer. */
module DesignSpace {
  import opened Arithmetic
  import opened Collections

  // ----- factorisations -----

  function Suffixed(ps: seq<seq<nat>>, k: nat): seq<seq<nat>> {
    seq(|ps|, i requires 0 <= i < |ps| => ps[i] + [k])
  }

  /** The table entry for `n` factors of `v`, restricted to last factors up to `k`. */
  function Column(n: nat, v: nat, k: nat): seq<seq<nat>>
    requires n >= 2 && k <= v
    decreases n, k
  {
    if k == 0 then [] else
      Column(n, v, k - 1) + (if v % k == 0 then Suffixed(Cell(n - 1, v / k), k) else [])
  }

  /** The table entry for `n` factors of `v`. */
  function Cell(n: nat, v: nat): seq<seq<nat>>
    requires n >= 1
    decreases n, v + 1
  {
    if v == 0 then [] else if n == 1 then [[v]] else Column(n, v, v)
  }

  ghost predicate Positive(t: seq<nat>) {
    forall i :: 0 <= i < |t| ==> t[i] > 0
  }

  /** `t` is an ordered way of writing `v` as a product of `n` positive numbers. */
  ghost predicate Factorization(t: seq<nat>, n: nat, v: nat) {
    |t| == n && Positive(t) && Product(t) == v
  }

  lemma {:induction false} InSuffixed(ps: seq<seq<nat>>, k: nat, t: seq<nat>)
    ensures t in Suffixed(ps, k) <==> t != [] && t[|t| - 1] == k && t[..|t| - 1] in ps
  {
    if t != [] && t[|t| - 1] == k && t[..|t| - 1] in ps {
      var i :| 0 <= i < |ps| && ps[i] == t[..|t| - 1];
      assert Suffixed(ps, k)[i] == t;
    }
    if t in Suffixed(ps, k) {
      var i :| 0 <= i < |ps| && Suffixed(ps, k)[i] == t;
      assert t[..|t| - 1] == ps[i];
    }
  }

  lemma {:induction false} InColumn(n: nat, v: nat, k: nat, t: seq<nat>)
    requires n >= 2 && k <= v
    ensures t in Column(n, v, k) <==>
            t != [] && 1 <= t[|t| - 1] <= k && v % t[|t| - 1] == 0 && t[..|t| - 1] in Cell(n - 1, v / t[|t| - 1])
    decreases k
  {
    if k > 0 {
      InColumn(n, v, k - 1, t);
      InSuffixed(Cell(n - 1, v / k), k, t);
    }
  }

  /** Dividing out the last factor. */
  lemma {:induction false} LastFactor(p: nat, k: nat, v: nat)
    requires v > 0
    ensures k > 0 && p * k == v <==> 1 <= k <= v && v % k == 0 && p == v / k
    ensures 1 <= k <= v && v % k == 0 ==> v / k > 0
  {
    if k > 0 && p * k == v {
      DivisionUnique(v, k, p, 0);
      assert p >= 1;
      MulAtLeast(p, k);
    }
    if 1 <= k <= v && v % k == 0 {
      assert v == (v / k) * k;
    }
  }

  /** The table entry lists exactly the factorisations. */
  lemma {:induction false} CellMeaning(n: nat, v: nat, t: seq<nat>)
    requires n >= 1 && v >= 1
    ensures t in Cell(n, v) <==> Factorization(t, n, v)
    decreases n
  {
    if n == 1 {
      if |t| == 1 {
        assert t[..0] == [] && t == [t[0]];
        assert Product(t) == t[0];
      }
    } else {
      InColumn(n, v, v, t);
      if t != [] {
        var m := |t| - 1;
        var k, p := t[m], t[..m];
        LastFactor(Product(p), k, v);
        if 1 <= k <= v && v % k == 0 {
          CellMeaning(n - 1, v / k, p);
        }
        assert t == p + [k];
        assert Positive(t) <==> Positive(p) && k > 0;
      }
    }
  }

  lemma {:induction false} SuffixedDistinct(ps: seq<seq<nat>>, k: nat)
    requires NoDuplicates(ps)
    ensures NoDuplicates(Suffixed(ps, k))
  {
    forall i, j | 0 <= i < j < |ps| ensures Suffixed(ps, k)[i] != Suffixed(ps, k)[j] {
      assert Suffixed(ps, k)[i][..|ps[i]|] == ps[i] && Suffixed(ps, k)[j][..|ps[j]|] == ps[j];
    }
  }

  lemma {:induction false} ConcatDistinct<T>(a: seq<T>, b: seq<T>)
    requires NoDuplicates(a) && NoDuplicates(b) && forall x :: !(x in a && x in b)
    ensures NoDuplicates(a + b)
  {
    forall i, j | 0 <= i < j < |a + b| ensures (a + b)[i] != (a + b)[j] {
      if i < |a| <= j {
        assert a[i] in a && b[j - |a|] in b;
      }
    }
  }

  lemma {:induction false} ColumnDistinct(n: nat, v: nat, k: nat)
    requires n >= 2 && k <= v && v >= 1
    ensures NoDuplicates(Column(n, v, k))
    decreases n, k
  {
    if k > 0 {
      ColumnDistinct(n, v, k - 1);
      if v % k == 0 {
        LastFactor(0, k, v);
        CellDistinct(n - 1, v / k);
        var more := Suffixed(Cell(n - 1, v / k), k);
        SuffixedDistinct(Cell(n - 1, v / k), k);
        forall t ensures !(t in Column(n, v, k - 1) && t in more) {
          InColumn(n, v, k - 1, t);
          InSuffixed(Cell(n - 1, v / k), k, t);
        }
        ConcatDistinct(Column(n, v, k - 1), more);
      }
    }
  }

  lemma {:induction false} CellDistinct(n: nat, v: nat)
    requires n >= 1 && v >= 1
    ensures NoDuplicates(Cell(n, v))
    decreases n, v + 1
  {
    if n > 1 {
      ColumnDistinct(n, v, v);
    }
  }

  /** Fills the table row by row. */
  method GetAllCombinations(n: nat, V: nat) returns (r: seq<seq<nat>>, count: nat)
    requires n >= 1
    ensures r == Cell(n, V) && count == |r|
  {
    var dp := new seq<seq<nat>>[n + 1, V + 1]((i, j) => []);
    for v := 1 to V + 1
      invariant forall a, b :: 0 <= a <= n && 0 <= b <= V ==>
                  dp[a, b] == if a == 1 && 1 <= b < v then Cell(1, b) else []
    {
      dp[1, v] := dp[1, v] + [[v]];
    }
    for i := 2 to n + 1
      invariant forall a, b :: 0 <= a <= n && 0 <= b <= V ==> dp[a, b] == if 1 <= a < i then Cell(a, b) else []
    {
      for v := 1 to V + 1
        invariant forall a, b :: 0 <= a <= n && 0 <= b <= V ==>
                    dp[a, b] == if 1 <= a < i || (a == i && b < v) then Cell(a, b) else []
      {
        FillCell(dp, i, v, n, V);
      }
    }
    r, count := dp[n, V], |dp[n, V]|;
  }

  method FillCell(dp: array2<seq<seq<nat>>>, i: nat, v: nat, n: nat, V: nat)
    requires dp.Length0 == n + 1 && dp.Length1 == V + 1 && 2 <= i <= n && 1 <= v <= V
    requires dp[i, v] == []
    requires forall a, b :: a == i - 1 && 0 <= b <= V ==> dp[a, b] == Cell(a, b)
    modifies dp
    ensures dp[i, v] == Cell(i, v)
    ensures forall a, b :: 0 <= a <= n && 0 <= b <= V && !(a == i && b == v) ==> dp[a, b] == old(dp[a, b])
  {
    for pv := 1 to v + 1
      invariant dp[i, v] == Column(i, v, pv - 1)
      invariant forall a, b :: 0 <= a <= n && 0 <= b <= V && !(a == i && b == v) ==> dp[a, b] == old(dp[a, b])
    {
      if v % pv == 0 {
        LastFactor(0, pv, v);
        QuotientAtMost(v, pv);
        var prevs := dp[i - 1, v / pv];
        for h := 0 to |prevs|
          invariant dp[i, v] == Column(i, v, pv - 1) + Suffixed(prevs, pv)[..h]
          invariant forall a, b :: 0 <= a <= n && 0 <= b <= V && !(a == i && b == v) ==> dp[a, b] == old(dp[a, b])
        {
          dp[i, v] := dp[i, v] + [prevs[h] + [pv]];
        }
      }
    }
  }

  lemma {:induction false} QuotientAtMost(v: nat, k: nat)
    requires k > 0
    ensures v / k <= v
  {
    if v / k > 0 {
      assert v == (v / k) * k + v % k;
      MulAtLeast(k, v / k);
    }
  }

  // ----- tile sizes for one dimension -----

  /** The second factor of each pair. */
  function Seconds(pairs: seq<seq<nat>>): seq<nat>
    requires forall i :: 0 <= i < |pairs| ==> |pairs[i]| == 2
  {
    seq(|pairs|, i requires 0 <= i < |pairs| => pairs[i][1])
  }

  /** The divisors of `v` up to `k`, smallest first. */
  function DivisorsUpTo(v: nat, k: nat): seq<nat> {
    if k == 0 then [] else DivisorsUpTo(v, k - 1) + (if v % k == 0 then [k] else [])
  }

  function Divisors(v: nat): seq<nat> {
    DivisorsUpTo(v, v)
  }

  ghost predicate Ascending(s: seq<nat>) {
    forall i, j :: 0 <= i < j < |s| ==> s[i] < s[j]
  }

  lemma {:induction false} DivisorsMeaning(v: nat, k: nat)
    ensures Ascending(DivisorsUpTo(v, k))
    ensures forall d :: d in DivisorsUpTo(v, k) <==> 1 <= d <= k && v % d == 0
  {
    if k > 0 {
      DivisorsMeaning(v, k - 1);
      var s := DivisorsUpTo(v, k - 1);
      forall i | 0 <= i < |s| ensures s[i] < k { assert s[i] in s; }
    }
  }

  lemma {:induction false} ColumnOfPairs(v: nat, k: nat)
    requires k <= v && v >= 1
    ensures forall i :: 0 <= i < |Column(2, v, k)| ==> |Column(2, v, k)[i]| == 2
    ensures Seconds(Column(2, v, k)) == DivisorsUpTo(v, k)
  {
    if k > 0 {
      ColumnOfPairs(v, k - 1);
      if v % k == 0 {
        LastFactor(0, k, v);
        var q := v / k;
        assert Cell(1, q) == [[q]] && [q] + [k] == [q, k];
        assert Suffixed([[q]], k) == [[q, k]];
      }
    }
  }

  /** For pairs, the second factors are all divisors, in ascending order. */
  lemma {:induction false} SecondsAreDivisors(v: nat)
    requires v >= 1
    ensures forall i :: 0 <= i < |Cell(2, v)| ==> |Cell(2, v)[i]| == 2
    ensures Seconds(Cell(2, v)) == Divisors(v) && Ascending(Divisors(v))
    ensures forall d :: d in Divisors(v) <==> d > 0 && v % d == 0
  {
    ColumnOfPairs(v, v);
    DivisorsMeaning(v, v);
    forall d | d > 0 && v % d == 0 ensures d <= v {
      assert v == (v / d) * d;
      MulAtLeast(v / d, d);
    }
  }

  // ----- the design point of a layer -----

  datatype TensorInfo = TensorInfo(name: string, shape: seq<nat>)

  /** An entry of a layer's description: the operator type, or a named operator with its groups of tensors, which
      are everything but its outputs. */
  datatype Entry = TypeOf(opType: string) | Operator(name: string, groups: seq<seq<TensorInfo>>)

  /** A layer's description, in the order in which its entries are visited. */
  type Layer = seq<Entry>

  datatype DesignPoint =
    | Unsupported(opType: string)
    | KeyError
    | Point(opType: string, name: string, genes: seq<seq<nat>>)

  predicate Supported(opType: string) {
    opType in {"Conv", "BatchNormalization", "Relu", "GlobalAveragePool", "MaxPool"}
  }

  predicate NamesBias(name: string) {
    |name| >= 4 && (name[..4] == "bias" || NamesBias(name[1..]))
  }

  /** Five types are supported. */
  lemma {:induction false} SupportedTypes(t: string)
    ensures DesignOf([TypeOf(t)], 1)
            == if t == "Conv" || t == "BatchNormalization" || t == "Relu" || t == "GlobalAveragePool" || t == "MaxPool"
               then Point(t, "", []) else Unsupported(t)
  {
    assert DesignOf([TypeOf(t)], 1) == After(DesignOf([TypeOf(t)], 0), TypeOf(t));
  }

  /** A tensor counts as a bias if "bias" occurs anywhere in its name. */
  lemma {:induction false} BiasMeaning(name: string)
    ensures NamesBias(name) <==> exists a: string, b: string :: name == a + "bias" + b
  {
    if NamesBias(name) {
      var a, b := BiasParts(name);
    }
    forall a: string, b: string | name == a + "bias" + b ensures NamesBias(name) {
      BiasInside(name, a, b);
    }
  }

  lemma {:induction false} BiasParts(name: string) returns (a: string, b: string)
    requires NamesBias(name)
    ensures name == a + "bias" + b
  {
    if name[..4] == "bias" {
      a, b := "", name[4..];
    } else {
      a, b := BiasParts(name[1..]);
      assert name == [name[0]] + name[1..];
      a := [name[0]] + a;
    }
  }

  lemma {:induction false} BiasInside(name: string, a: string, b: string)
    requires name == a + "bias" + b
    ensures NamesBias(name)
    decreases |a|
  {
    if a == "" {
      assert name[..4] == "bias";
    } else {
      assert name[1..] == a[1..] + "bias" + b;
      BiasInside(name[1..], a[1..], b);
    }
  }

  /** One list of tile sizes per dimension. */
  function ShapeGenes(shape: seq<nat>): seq<seq<nat>> {
    seq(|shape|, i requires 0 <= i < |shape| => Divisors(shape[i]))
  }

  /** The tile sizes for the first `n` tensors of a group. */
  function TensorGenes(ts: seq<TensorInfo>, n: nat): seq<seq<nat>>
    requires n <= |ts|
  {
    if n == 0 then [] else
      TensorGenes(ts, n - 1) + (if NamesBias(ts[n - 1].name) then [] else ShapeGenes(ts[n - 1].shape))
  }

  /** The tile sizes for the first `n` groups. */
  function LayerGenes(groups: seq<seq<TensorInfo>>, n: nat): seq<seq<nat>>
    requires n <= |groups|
  {
    if n == 0 then [] else LayerGenes(groups, n - 1) + TensorGenes(groups[n - 1], |groups[n - 1]|)
  }

  /** Only the first four dimensions have names, and only supported types have kernels; there is a key error beyond. */
  function Limit(supported: bool): nat {
    if supported then 4 else 0
  }

  ghost predicate TensorsFit(ts: seq<TensorInfo>, limit: nat) {
    forall i :: 0 <= i < |ts| && !NamesBias(ts[i].name) ==> |ts[i].shape| <= limit
  }

  ghost predicate GroupsFit(groups: seq<seq<TensorInfo>>, limit: nat) {
    forall g {:trigger TensorsFit(groups[g], limit)} :: 0 <= g < |groups| ==> TensorsFit(groups[g], limit)
  }

  /** The design point after one more entry. */
  ghost function After(p: DesignPoint, e: Entry): DesignPoint {
    if !p.Point? then p else
      match e
      case TypeOf(t) => if Supported(t) then p.(opType := t) else Unsupported(t)
      case Operator(name, groups) =>
        if !GroupsFit(groups, Limit(Supported(p.opType))) then KeyError
        else Point(p.opType, name, p.genes + LayerGenes(groups, |groups|))
  }

  /** The design point after the first `n` entries. */
  ghost function DesignOf(l: Layer, n: nat): DesignPoint
    requires n <= |l|
  {
    if n == 0 then Point("", "", []) else After(DesignOf(l, n - 1), l[n - 1])
  }

  /** The type that is known when entry `n` is visited. */
  function TypeBefore(l: Layer, n: nat): string
    requires n <= |l|
  {
    if n == 0 then "" else if l[n - 1].TypeOf? then l[n - 1].opType else TypeBefore(l, n - 1)
  }

  ghost predicate Accepts(l: Layer, k: nat)
    requires k < |l|
  {
    match l[k]
    case TypeOf(t) => Supported(t)
    case Operator(_, groups) => GroupsFit(groups, Limit(Supported(TypeBefore(l, k))))
  }

  /** There is a design point if and only if every type is supported and every operator's tensors have as many
      dimensions as the type known so far allows. */
  lemma {:induction false} PointExactlyWhen(l: Layer, n: nat)
    requires n <= |l|
    ensures DesignOf(l, n).Point? <==> forall k :: 0 <= k < n ==> Accepts(l, k)
    ensures DesignOf(l, n).Point? ==> DesignOf(l, n).opType == TypeBefore(l, n)
  {
    if n > 0 {
      PointExactlyWhen(l, n - 1);
      assert DesignOf(l, n).Point? <==> DesignOf(l, n - 1).Point? && Accepts(l, n - 1);
    }
  }

  /** With the type first, as the layer descriptions have it. */
  lemma {:induction false} TypeFirst(t: string, name: string, groups: seq<seq<TensorInfo>>)
    ensures DesignOf([TypeOf(t), Operator(name, groups)], 2)
            == if !Supported(t) then Unsupported(t)
               else if GroupsFit(groups, 4) then Point(t, name, LayerGenes(groups, |groups|)) else KeyError
  {
    var l := [TypeOf(t), Operator(name, groups)];
    assert DesignOf(l, 1) == After(DesignOf(l, 0), l[0]);
    assert DesignOf(l, 2) == After(DesignOf(l, 1), l[1]);
  }

  lemma {:induction false} TypeLast(t: string, name: string, groups: seq<seq<TensorInfo>>)
    ensures DesignOf([Operator(name, groups), TypeOf(t)], 2)
            == if !GroupsFit(groups, 0) then KeyError
               else if Supported(t) then Point(t, name, LayerGenes(groups, |groups|)) else Unsupported(t)
  {
    var l := [Operator(name, groups), TypeOf(t)];
    assert DesignOf(l, 1) == After(DesignOf(l, 0), l[0]);
    assert DesignOf(l, 2) == After(DesignOf(l, 1), l[1]);
  }

  lemma {:induction false} FitsLarger(groups: seq<seq<TensorInfo>>)
    requires GroupsFit(groups, 0)
    ensures GroupsFit(groups, 4)
  {
    forall g | 0 <= g < |groups| ensures TensorsFit(groups[g], 4) {
      assert TensorsFit(groups[g], 0);
    }
  }

  /** The order of the entries makes no difference if and only if the tensors have no dimension at all, or too many
      for either order. */
  lemma {:induction false} OrderMattersExactlyWhen(t: string, name: string, groups: seq<seq<TensorInfo>>)
    ensures DesignOf([TypeOf(t), Operator(name, groups)], 2) == DesignOf([Operator(name, groups), TypeOf(t)], 2) <==>
            GroupsFit(groups, 0) || (Supported(t) && !GroupsFit(groups, 4))
  {
    TypeFirst(t, name, groups);
    TypeLast(t, name, groups);
    if GroupsFit(groups, 0) {
      FitsLarger(groups);
    }
  }

  // ----- the design point as it is computed -----

  /** The tile sizes offered for one tensor, given whether a supported type is known. */
  method MatchShape(supported: bool, shape: seq<nat>) returns (ok: bool, genes: seq<seq<nat>>)
    ensures ok <==> |shape| <= Limit(supported)
    ensures ok ==> genes == ShapeGenes(shape)
  {
    genes := [];
    for i := 0 to |shape|
      invariant i <= Limit(supported) && genes == ShapeGenes(shape)[..i]
    {
      var factors, _ := GetAllCombinations(2, shape[i]);
      if i > 3 || !supported {
        return false, genes;
      }
      var pruned := KernelMatching(factors, shape[i]);
      genes := genes + [pruned];
    }
    return true, genes;
  }

  /** Collects the second factors. */
  method KernelMatching(factors: seq<seq<nat>>, v: nat) returns (valid: seq<nat>)
    requires factors == Cell(2, v)
    ensures valid == Divisors(v)
  {
    valid := [];
    if v >= 1 {
      SecondsAreDivisors(v);
    }
    for i := 0 to |factors|
      invariant forall j :: 0 <= j < |factors| ==> |factors[j]| == 2
      invariant valid == Seconds(factors)[..i]
    {
      valid := valid + [factors[i][1]];
    }
  }

  method MatchGroup(supported: bool, group: seq<TensorInfo>) returns (ok: bool, genes: seq<seq<nat>>)
    ensures ok <==> TensorsFit(group, Limit(supported))
    ensures ok ==> genes == TensorGenes(group, |group|)
  {
    genes := [];
    for i := 0 to |group|
      invariant genes == TensorGenes(group, i)
      invariant forall j :: 0 <= j < i && !NamesBias(group[j].name) ==> |group[j].shape| <= Limit(supported)
    {
      if NamesBias(group[i].name) {
        continue;
      }
      var matched, more := MatchShape(supported, group[i].shape);
      if !matched {
        return false, genes;
      }
      genes := genes + more;
    }
    return true, genes;
  }

  method MatchGroups(supported: bool, groups: seq<seq<TensorInfo>>) returns (ok: bool, genes: seq<seq<nat>>)
    ensures ok <==> GroupsFit(groups, Limit(supported))
    ensures ok ==> genes == LayerGenes(groups, |groups|)
  {
    genes := [];
    for g := 0 to |groups|
      invariant genes == LayerGenes(groups, g)
      invariant forall h {:trigger TensorsFit(groups[h], Limit(supported))} :: 0 <= h < g ==>
                  TensorsFit(groups[h], Limit(supported))
    {
      var matched, more := MatchGroup(supported, groups[g]);
      if !matched {
        return false, genes;
      }
      genes := genes + more;
    }
    return true, genes;
  }

  lemma {:induction false} StaysSettled(l: Layer, k: nat, n: nat)
    requires k <= n <= |l| && !DesignOf(l, k).Point?
    ensures DesignOf(l, n) == DesignOf(l, k)
  {
    if k < n {
      StaysSettled(l, k, n - 1);
    }
  }

  /** Goes through the entries; an unsupported type ends it at once. */
  method GetDesignPoint(l: Layer) returns (r: DesignPoint)
    ensures r == DesignOf(l, |l|)
  {
    var opType, name, genes := "", "", [];
    for n := 0 to |l|
      invariant DesignOf(l, n) == Point(opType, name, genes)
    {
      match l[n]
      case TypeOf(t) =>
        opType := t;
        if !Supported(opType) {
          StaysSettled(l, n + 1, |l|);
          return Unsupported(opType);
        }
      case Operator(id, groups) =>
        name := id;
        var matched, more := MatchGroups(Supported(opType), groups);
        if !matched {
          StaysSettled(l, n + 1, |l|);
          return KeyError;
        }
        genes := genes + more;
    }
    return Point(opType, name, genes);
  }
}
