/** A condition on the visiting positions alone that says exactly when the pass over the connections is accepted.

Every pair is visited twice, once in each direction.  A connection whose port index is one higher than another's
on the same port can only be made after it.  Along a chain of such connections each one is made at the earlier of
its visits that still comes after its predecessor, if there is one.
*/
module PortChains {
  import opened Collections
  import opened PortBinding

  ghost function Position(order: seq<Connection>, c: Connection): (i: nat)
    requires c in order
    ensures i < |order| && order[i] == c
  {
    var i :| 0 <= i < |order| && order[i] == c;
    i
  }

  /** The first and the second visit of a pair. */
  ghost function First(order: seq<Connection>, c: Connection): nat
    requires c in order && Swap(c) in order
  {
    if Position(order, c) < Position(order, Swap(c)) then Position(order, c) else Position(order, Swap(c))
  }

  ghost function Second(order: seq<Connection>, c: Connection): nat
    requires c in order && Swap(c) in order
  {
    if Position(order, c) < Position(order, Swap(c)) then Position(order, Swap(c)) else Position(order, c)
  }

  ghost predicate Follows(c: Connection, d: Connection, p: Port) {
    p.index > 0 && Joins(d, p) && Joins(c, p.(index := p.index - 1))
  }

  /** Some port of `d` comes right after a port of `c`. */
  ghost predicate Precedes(c: Connection, d: Connection) {
    exists p :: Follows(c, d, p)
  }

  /** Connections of the list each of which has to be made before the next one. */
  ghost predicate Chain(order: seq<Connection>, xs: seq<Connection>) {
    && xs != [] && (forall i :: 0 <= i < |xs| ==> xs[i] in order)
    && forall i, j :: 0 <= i && i + 1 == j < |xs| ==> Precedes(xs[i], xs[j])
  }

  /** The visit at which a pair can be made after time `t`, or the end of the list if both visits are over. */
  ghost function NextVisit(order: seq<Connection>, c: Connection, t: int): nat
    requires c in order && Swap(c) in order
  {
    if t < First(order, c) then First(order, c) else if t < Second(order, c) then Second(order, c) else |order|
  }

  /** The earliest visit at which the last connection of a chain can be made. */
  ghost function Earliest(order: seq<Connection>, xs: seq<Connection>): nat
    requires Symmetric(order) && Chain(order, xs)
    decreases |xs|
  {
    var n := |xs| - 1;
    assert xs[n] in order;
    NextVisit(order, xs[n], if n == 0 then -1 else ChainPrefix(order, xs); Earliest(order, xs[..n]))
  }

  lemma {:induction false} ChainPrefix(order: seq<Connection>, xs: seq<Connection>)
    requires Chain(order, xs) && |xs| > 1
    ensures Chain(order, xs[..|xs| - 1])
  {
  }

  /** No chain runs out of visits. */
  ghost predicate ChainsFit(order: seq<Connection>)
    requires Symmetric(order)
  {
    forall xs :: Chain(order, xs) ==> Earliest(order, xs) < |order|
  }

  /** Below every index of a port that is connected, the other indices are connected, too. */
  ghost predicate NoGaps(order: seq<Connection>) {
    forall d, p {:trigger HasPredecessor(order, d, p)} ::
      d in order && Joins(d, p) && p.index > 0 ==> HasPredecessor(order, d, p)
  }

  ghost predicate HasPredecessor(order: seq<Connection>, d: Connection, p: Port) {
    exists c :: c in order && Follows(c, d, p)
  }

  ghost predicate Matched(order: seq<Connection>) {
    NoDuplicates(order) && OnePeer(order) && NoGaps(order)
  }

  // ----- positions -----

  lemma {:induction false} PositionUnique(order: seq<Connection>, i: nat)
    requires NoDuplicates(order) && i < |order|
    ensures Position(order, order[i]) == i
  {
  }

  lemma {:induction false} TwoVisits(order: seq<Connection>, c: Connection)
    requires Symmetric(order) && DistinctEnds(order) && c in order
    ensures First(order, c) < Second(order, c) < |order|
    ensures First(order, Swap(c)) == First(order, c) && Second(order, Swap(c)) == Second(order, c)
  {
    assert Swap(Swap(c)) == c && c != Swap(c);
  }

  lemma {:induction false} VisitIsOneOfTwo(order: seq<Connection>, i: nat, c: Connection)
    requires Symmetric(order) && NoDuplicates(order) && i < |order| && c in order
    requires order[i] == c || order[i] == Swap(c)
    ensures i == First(order, c) || i == Second(order, c)
  {
    PositionUnique(order, i);
  }

  lemma {:induction false} EarliestLast(order: seq<Connection>, xs: seq<Connection>, d: Connection)
    requires Symmetric(order) && Chain(order, xs) && d in order && Precedes(xs[|xs| - 1], d)
    ensures Chain(order, xs + [d]) && Earliest(order, xs + [d]) == NextVisit(order, d, Earliest(order, xs))
  {
    assert (xs + [d])[..|xs|] == xs;
  }

  lemma {:induction false} EarliestOne(order: seq<Connection>, c: Connection)
    requires Symmetric(order) && c in order
    ensures Chain(order, [c]) && Earliest(order, [c]) == First(order, c)
  {
  }

  // ----- an accepted pass keeps to every chain -----

  /** The position at which the pair of `c` is made by the choice `f`. */
  ghost predicate MadeAt(order: seq<Connection>, f: seq<nat>, c: Connection, j: nat) {
    j < |f| && f[j] < |order| && (order[f[j]] == c || order[f[j]] == Swap(c))
  }

  ghost predicate AllMadeAt(order: seq<Connection>, f: seq<nat>) {
    forall c {:trigger c in order} :: c in order ==> exists i: nat :: MadeAt(order, f, c, i)
  }

  lemma {:induction false} MadeSomewhere(order: seq<Connection>, f: seq<nat>, c: Connection) returns (i: nat)
    requires AllMadeAt(order, f) && c in order
    ensures MadeAt(order, f, c, i)
  {
    i :| MadeAt(order, f, c, i);
  }

  lemma {:induction false} EarlierMade(order: seq<Connection>, f: seq<nat>, c: Connection, d: Connection,
                                       i: nat, j: nat)
    requires DistinctEnds(order) && InOrder(order, f) && Precedes(c, d)
    requires MadeAt(order, f, c, i) && MadeAt(order, f, d, j)
    ensures i < j
  {
    var s := Select(order, f);
    var p :| Follows(c, d, p);
    var q := p.(index := p.index - 1);
    assert DistinctEnds(s);
    assert Joins(s[j], p) && Joins(s[i], q);
    var h := EarlierBound(s, j, p, q);
    PortsBoundOnce(s, h, i, q);
  }

  /** Everything on a chain is made no earlier than the chain allows. */
  lemma {:induction false} ChainKept(order: seq<Connection>, f: seq<nat>, xs: seq<Connection>, j: nat)
    requires Symmetric(order) && DistinctEnds(order) && NoDuplicates(order) && InOrder(order, f)
    requires Chain(order, xs) && MadeAt(order, f, xs[|xs| - 1], j)
    requires AllMadeAt(order, f)
    ensures Earliest(order, xs) <= f[j]
    decreases |xs|
  {
    var n := |xs| - 1;
    var d := xs[n];
    assert d in order;
    TwoVisits(order, d);
    VisitIsOneOfTwo(order, f[j], d);
    if n > 0 {
      ChainPrefix(order, xs);
      var c := xs[n - 1];
      assert c in order && Precedes(c, d);
      var i := MadeSomewhere(order, f, c);
      ChainKept(order, f, xs[..n], i);
      EarlierMade(order, f, c, d, i, j);
      VisitInTime(order, d, Earliest(order, xs[..n]), f[j]);
    } else {
      VisitInTime(order, d, -1, f[j]);
    }
  }

  lemma {:induction false} VisitInTime(order: seq<Connection>, d: Connection, t: int, v: nat)
    requires d in order && Swap(d) in order && t < v && (v == First(order, d) || v == Second(order, d))
    requires First(order, d) < Second(order, d)
    ensures NextVisit(order, d, t) <= v
  {
  }

  // ----- a connection that is not made is at the end of a chain -----

  lemma {:induction false} PassGrows(order: seq<Connection>, i: nat, n: nat, c: Connection)
    requires i <= n <= |order| && c in Pass(order[..i])
    ensures c in Pass(order[..n])
    decreases n
  {
    if i < n {
      PassGrows(order, i, n - 1, c);
      PassPrefix(order, n);
    }
  }

  /** Why a connection is not made at a visit: a connection that has to come before it has not been made. */
  lemma {:induction false} Missing(order: seq<Connection>, t: nat, c: Connection) returns (d: Connection)
    requires DistinctEnds(order) && Matched(order) && t < |order| && c in order
    requires order[t] == c || order[t] == Swap(c)
    requires !Made(Pass(order[..t + 1]), c)
    ensures d in order && Precedes(d, c) && !Made(Pass(order[..t]), d)
  {
    var g := Pass(order[..t]);
    PassPrefix(order, t + 1);
    PassIsReplayable(order[..t]);
    forall e | e in g ensures e in order { assert e in order[..t]; }
    d := MissingFrom(order, g, c, order[t]);
  }

  lemma {:induction false} MissingFrom(order: seq<Connection>, g: seq<Connection>, c: Connection, v: Connection)
    returns (d: Connection)
    requires DistinctEnds(order) && Matched(order) && Replayable(g) && (forall e :: e in g ==> e in order)
    requires c in order && (v == c || v == Swap(c)) && !Bindable(g, v) && !Made(g, c)
    ensures d in order && Precedes(d, c) && !Made(g, d)
  {
    var p := NotNext(order, g, c, v);
    assert HasPredecessor(order, c, p);
    d :| d in order && Follows(d, c, p);
    if Made(g, d) {
      NotBehindYet(g, d, p);
    }
  }

  /** Of a connection that cannot be made some port is not reached yet. */
  lemma {:induction false} NotNext(order: seq<Connection>, g: seq<Connection>, c: Connection, v: Connection)
    returns (p: Port)
    requires DistinctEnds(order) && OnePeer(order) && Replayable(g) && (forall e :: e in g ==> e in order)
    requires c in order && (v == c || v == Swap(c)) && !Bindable(g, v) && !Made(g, c)
    ensures Joins(c, p) && Tally(g, KeyOf(p)) < p.index
  {
    p := if Tally(g, KeyOf(v.0)) != v.0.index then v.0 else v.1;
    if p.index < Tally(g, KeyOf(p)) {
      NotBoundYet(order, g, c, p);
    }
  }

  lemma {:induction false} NotBoundYet(order: seq<Connection>, g: seq<Connection>, c: Connection, p: Port)
    requires DistinctEnds(order) && OnePeer(order) && Replayable(g) && (forall e :: e in g ==> e in order)
    requires c in order && Joins(c, p) && p.index < Tally(g, KeyOf(p))
    ensures Made(g, c)
  {
    var i := BehindIsBound(g, KeyOf(p), p.index);
    assert Joins(g[i], p);
  }

  lemma {:induction false} NotBehindYet(g: seq<Connection>, d: Connection, p: Port)
    requires Replayable(g) && Made(g, d) && p.index > 0 && Joins(d, p.(index := p.index - 1))
    ensures Tally(g, KeyOf(p)) >= p.index
  {
    var q := p.(index := p.index - 1);
    assert Joins(d, q) && Joins(Swap(d), q);
    var i :| 0 <= i < |g| && (g[i] == d || g[i] == Swap(d));
    BoundIsBehind(g, i, |g|, q);
    assert g[..|g|] == g;
  }

  /** What has not been made by a visit is at the end of a chain that does not allow it by then. */
  lemma {:induction false} LateChain(order: seq<Connection>, t: nat, c: Connection) returns (xs: seq<Connection>)
    requires Symmetric(order) && DistinctEnds(order) && Matched(order) && t < |order| && c in order
    requires order[t] == c || order[t] == Swap(c)
    requires !Made(Pass(order[..t + 1]), c)
    ensures Chain(order, xs) && xs[|xs| - 1] == c && Earliest(order, xs) > t
    decreases t, 1
  {
    var d := Missing(order, t, c);
    var ys := LatePredecessor(order, t, d);
    TwoVisits(order, c);
    VisitIsOneOfTwo(order, t, c);
    EarliestLast(order, ys, c);
    xs := ys + [c];
  }

  lemma {:induction false} LatePredecessor(order: seq<Connection>, t: nat, d: Connection) returns (ys: seq<Connection>)
    requires Symmetric(order) && DistinctEnds(order) && Matched(order) && t < |order| && d in order
    requires !Made(Pass(order[..t]), d)
    ensures Chain(order, ys) && ys[|ys| - 1] == d && Earliest(order, ys) >= t
    decreases t, 0
  {
    var a, b := First(order, d), Second(order, d);
    TwoVisits(order, d);
    if t <= a {
      EarliestOne(order, d);
      ys := [d];
    } else {
      NotMadeBefore(order, if t <= b then a else b, t, d);
      ys := LateChain(order, if t <= b then a else b, d);
      EarliestIsVisit(order, ys);
    }
  }

  lemma {:induction false} NotMadeBefore(order: seq<Connection>, i: nat, n: nat, c: Connection)
    requires i < n <= |order| && !Made(Pass(order[..n]), c)
    ensures !Made(Pass(order[..i + 1]), c)
  {
    if c in Pass(order[..i + 1]) {
      PassGrows(order, i + 1, n, c);
    } else if Swap(c) in Pass(order[..i + 1]) {
      PassGrows(order, i + 1, n, Swap(c));
    }
  }

  lemma {:induction false} EarliestIsVisit(order: seq<Connection>, xs: seq<Connection>)
    requires Symmetric(order) && Chain(order, xs)
    ensures var c := xs[|xs| - 1];
            && c in order
            && Earliest(order, xs) in {First(order, c), Second(order, c), |order|}
  {
    assert xs[|xs| - 1] in order;
  }

  // ----- exactly when the pass is accepted -----

  lemma {:induction false} AllMade(order: seq<Connection>)
    requires Symmetric(order) && DistinctEnds(order) && NoDuplicates(order)
    requires forall c :: c in order ==> Made(Pass(order), c)
    ensures 2 * |Pass(order)| == |order|
  {
    var g := Pass(order);
    PassIsReplayable(order);
    BothDirectionsNoDuplicates(g);
    BothDirectionsListed(order, g);
    SetOfBound(g + Swapped(g));
    SetOfBound(order);
    forall c | c in order ensures c in g + Swapped(g) {
      if Swap(c) in g {
        var i :| 0 <= i < |g| && g[i] == Swap(c);
        assert Swapped(g)[i] == c;
      }
    }
    assert SetOf(order) == SetOf(g + Swapped(g));
  }

  lemma {:induction false} UnmadeLeft(order: seq<Connection>) returns (c: Connection)
    requires Symmetric(order) && DistinctEnds(order) && NoDuplicates(order) && 2 * |Pass(order)| != |order|
    ensures c in order && !Made(Pass(order), c)
  {
    if forall c :: c in order ==> Made(Pass(order), c) {
      AllMade(order);
      assert false;
    }
    c :| c in order && !Made(Pass(order), c);
  }

  lemma {:induction false} FittingIsAccepted(order: seq<Connection>)
    requires Symmetric(order) && DistinctEnds(order) && Matched(order) && ChainsFit(order)
    ensures 2 * |Pass(order)| == |order|
  {
    if 2 * |Pass(order)| != |order| {
      var c := UnmadeLeft(order);
      assert order[..|order|] == order;
      TwoVisits(order, c);
      var t := Second(order, c);
      NotMadeBefore(order, t, |order|, c);
      var xs := LateChain(order, t, c);
      EarliestIsVisit(order, xs);
    }
  }

  lemma {:induction false} AcceptedHasNoGaps(order: seq<Connection>)
    requires Symmetric(order) && DistinctEnds(order) && 2 * |Pass(order)| == |order|
    ensures NoGaps(order)
  {
    var g := Pass(order);
    CountCheckSuffices(order, order);
    PassIsReplayable(order);
    forall d, p | d in order && Joins(d, p) && p.index > 0 ensures HasPredecessor(order, d, p) {
      var i := BehindIsBound(g, KeyOf(p), p.index - 1);
      assert g[i] in order && Follows(g[i], d, p);
    }
  }

  lemma {:induction false} AcceptedFits(order: seq<Connection>)
    requires Symmetric(order) && DistinctEnds(order) && 2 * |Pass(order)| == |order|
    ensures ChainsFit(order)
  {
    var f := PassPositions(order);
    PassIsReplayable(order);
    CountCheckSuffices(order, order);
    assert AllMadeAt(order, f) by { AllPositions(order, f); }
    forall xs | Chain(order, xs) ensures Earliest(order, xs) < |order| {
      var c := xs[|xs| - 1];
      assert c in order;
      var j := MadeSomewhere(order, f, c);
      ChainKept(order, f, xs, j);
    }
  }

  lemma {:induction false} AllPositions(order: seq<Connection>, f: seq<nat>)
    requires Increasing(f, |order|) && Select(order, f) == Pass(order)
    requires forall c :: c in order ==> (c in Pass(order)) != (Swap(c) in Pass(order))
    ensures AllMadeAt(order, f)
  {
    var s := Select(order, f);
    forall c | c in order ensures exists i: nat :: MadeAt(order, f, c, i) {
      var i :| 0 <= i < |s| && (s[i] == c || s[i] == Swap(c));
      assert MadeAt(order, f, c, i);
    }
  }

  /** The pass over a list in both directions is accepted if and only if no connection is listed twice, no port has
      two peers, no port index is left out, and no chain runs out of visits. */
  lemma {:induction false} AcceptedExactlyWhenChainsFit(order: seq<Connection>)
    requires Symmetric(order) && DistinctEnds(order)
    ensures 2 * |Pass(order)| == |order| <==> Matched(order) && ChainsFit(order)
  {
    if 2 * |Pass(order)| == |order| {
      CountCheckSuffices(order, order);
      AcceptedHasNoGaps(order);
      AcceptedFits(order);
    }
    if Matched(order) && ChainsFit(order) {
      FittingIsAccepted(order);
    }
  }
}
