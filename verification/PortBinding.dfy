/** Binding of ports from a configuration file.

Every connection is listed in both directions.  One pass over the list makes a
connection when each of its two ends is the next index of its port, and a final
count decides whether the pass is accepted.  The results below say what that
count alone guarantees, whatever order the list is visited in, and exactly when
the pass succeeds.
*/
module PortBinding {
  import opened Collections

  datatype Port = Port(objectName: string, portName: string, index: nat)

  type Key = (string, string)

  type Connection = (Port, Port)

  datatype Result = Bound(made: seq<Connection>) | NotOrderable | UnknownPort(port: Port)

  function KeyOf(p: Port): Key {
    (p.objectName, p.portName)
  }

  function Swap(c: Connection): Connection {
    (c.1, c.0)
  }

  /** Every connection is also listed in the other direction. */
  ghost predicate Symmetric(connections: seq<Connection>) {
    forall c :: c in connections ==> Swap(c) in connections
  }

  /** No connection joins a port to itself. */
  ghost predicate DistinctEnds(connections: seq<Connection>) {
    forall c :: c in connections ==> c.0 != c.1
  }

  /** The port is the origin of a connection. */
  ghost predicate Listed(connections: seq<Connection>, k: Key) {
    exists c :: c in connections && KeyOf(c.0) == k
  }

  /** Every port that is connected to also appears as the origin of a connection. */
  ghost predicate TargetsListed(connections: seq<Connection>) {
    forall c :: c in connections ==> Listed(connections, KeyOf(c.1))
  }

  lemma {:induction false} SymmetricListsTargets(connections: seq<Connection>)
    requires Symmetric(connections)
    ensures TargetsListed(connections)
  {
    forall c | c in connections ensures exists d :: d in connections && KeyOf(d.0) == KeyOf(c.1) {
      assert Swap(c) in connections;
    }
  }

  predicate Joins(c: Connection, p: Port) {
    c.0 == p || c.1 == p
  }

  // ----- the pass, stated on the connections made so far -----

  function Ends(c: Connection, k: Key): nat {
    (if KeyOf(c.0) == k then 1 else 0) + (if KeyOf(c.1) == k then 1 else 0)
  }

  /** How many connections have been made to port `k`. */
  function Tally(made: seq<Connection>, k: Key): nat {
    if made == [] then 0 else Tally(made[..|made| - 1], k) + Ends(made[|made| - 1], k)
  }

  predicate Bindable(made: seq<Connection>, c: Connection) {
    Tally(made, KeyOf(c.0)) == c.0.index && Tally(made, KeyOf(c.1)) == c.1.index
  }

  /** The connections made by one pass over `order`. */
  function Pass(order: seq<Connection>): seq<Connection> {
    if order == [] then [] else
      var made := Pass(order[..|order| - 1]);
      if Bindable(made, order[|order| - 1]) then made + [order[|order| - 1]] else made
  }

  lemma {:induction false} ListedOneMore(connections: seq<Connection>, i: nat)
    requires i < |connections|
    ensures forall k :: Listed(connections[..i + 1], k) <==> Listed(connections[..i], k) || k == KeyOf(connections[i].0)
  {
    assert connections[..i + 1] == connections[..i] + [connections[i]];
  }

  lemma {:induction false} OriginListed(connections: seq<Connection>, order: seq<Connection>, i: nat)
    requires multiset(order) == multiset(connections) && i < |order|
    ensures order[i] in connections && Listed(connections, KeyOf(order[i].0))
  {
    assert order[i] in multiset(order);
  }

  /** The counters say how many connections have been made to each port. */
  ghost predicate Counts(indices: map<Key, nat>, made: seq<Connection>) {
    forall k {:trigger indices[k]} :: k in indices ==> indices[k] == Tally(made, k)
  }

  lemma {:induction false} CountsStep(indices: map<Key, nat>, made: seq<Connection>, c: Connection)
    requires Counts(indices, made) && KeyOf(c.0) in indices && KeyOf(c.1) in indices
    ensures var half := indices[KeyOf(c.0) := indices[KeyOf(c.0)] + 1];
            Counts(half[KeyOf(c.1) := half[KeyOf(c.1)] + 1], made + [c])
  {
    forall k | k in indices ensures Tally(made + [c], k) == indices[k] + Ends(c, k) {
      TallyOneMore(made, c, k);
    }
  }

  lemma {:induction false} PassPrefix(order: seq<Connection>, n: nat)
    requires 0 < n <= |order|
    ensures var g := Pass(order[..n - 1]);
            Pass(order[..n]) == if Bindable(g, order[n - 1]) then g + [order[n - 1]] else g
  {
    assert order[..n][..n - 1] == order[..n - 1];
  }

  /** What becomes of a list that is visited in this order. */
  function Outcome(order: seq<Connection>): Result {
    if 2 * |Pass(order)| == |order| then Bound(Pass(order)) else NotOrderable
  }

  method BindPorts(connections: seq<Connection>, order: seq<Connection>) returns (r: Result)
    requires multiset(order) == multiset(connections)
    ensures TargetsListed(connections) ==> r == Outcome(order)
    ensures r.Bound? ==> r.made == Pass(order) && 2 * |r.made| == |connections|
    ensures r.NotOrderable? ==> 2 * |Pass(order)| != |connections|
    ensures r.UnknownPort? ==> forall c :: c in connections ==> KeyOf(c.0) != KeyOf(r.port)
  {
    var indices := ZeroIndices(connections);
    var unknown, made := MakeConnections(connections, order, indices);
    if unknown.Some? {
      return UnknownPort(unknown.value);
    }
    assert |multiset(order)| == |order| && |multiset(connections)| == |connections|;
    if 2 * |made| != |connections| {
      return NotOrderable;
    }
    return Bound(made);
  }

  /** Counts no connection to any port that is the origin of one. */
  method ZeroIndices(connections: seq<Connection>) returns (indices: map<Key, nat>)
    ensures forall k :: k in indices <==> Listed(connections, k)
    ensures forall k :: k in indices ==> indices[k] == 0
  {
    indices := map[];
    for i := 0 to |connections|
      invariant forall k :: k in indices ==> indices[k] == 0
      invariant forall k :: k in indices <==> Listed(connections[..i], k)
    {
      ListedOneMore(connections, i);
      indices := indices[KeyOf(connections[i].0) := 0];
    }
    assert connections[..|connections|] == connections;
  }

  /** Steps through the connections and makes those whose ends are next; an end that is not listed ends the pass. */
  method MakeConnections(connections: seq<Connection>, order: seq<Connection>, zero: map<Key, nat>)
    returns (unknown: Option<Port>, made: seq<Connection>)
    requires multiset(order) == multiset(connections)
    requires forall k :: k in zero <==> Listed(connections, k)
    requires forall k :: k in zero ==> zero[k] == 0
    ensures unknown == None ==> made == Pass(order)
    ensures unknown.Some? ==> !Listed(connections, KeyOf(unknown.value)) && !TargetsListed(connections)
  {
    var indices := zero;
    made := [];
    for i := 0 to |order|
      invariant made == Pass(order[..i]) && indices.Keys == zero.Keys && Counts(indices, made)
    {
      var c := order[i];
      PassPrefix(order, i + 1);
      OriginListed(connections, order, i);
      if indices[KeyOf(c.0)] == c.0.index {
        if KeyOf(c.1) !in indices {
          return Some(c.1), made;
        }
        if indices[KeyOf(c.1)] == c.1.index {
          CountsStep(indices, made, c);
          indices := indices[KeyOf(c.0) := indices[KeyOf(c.0)] + 1];
          indices := indices[KeyOf(c.1) := indices[KeyOf(c.1)] + 1];
          made := made + [c];
        }
      }
    }
    assert order[..|order|] == order;
    unknown := None;
  }

  // ----- sequences of connections that can be made one after the other -----

  ghost predicate Replayable(s: seq<Connection>) {
    forall i {:trigger s[..i]} :: 0 <= i < |s| ==> Bindable(s[..i], s[i])
  }

  lemma {:induction false} PassIsReplayable(order: seq<Connection>)
    ensures Replayable(Pass(order))
    ensures forall c :: c in Pass(order) ==> c in order
  {
    if order != [] {
      var made := Pass(order[..|order| - 1]);
      PassIsReplayable(order[..|order| - 1]);
      forall i | 0 <= i < |Pass(order)| ensures Bindable(Pass(order)[..i], Pass(order)[i]) {
        if i < |made| {
          assert Pass(order)[..i] == made[..i];
        } else {
          assert Pass(order)[..i] == made;
        }
      }
    }
  }

  lemma {:induction false} ReplayablePrefix(s: seq<Connection>, n: nat)
    requires Replayable(s) && n <= |s|
    ensures Replayable(s[..n])
  {
    forall i | 0 <= i < n ensures Bindable(s[..n][..i], s[..n][i]) {
      assert s[..n][..i] == s[..i];
    }
  }

  lemma {:induction false} TallyGrows(s: seq<Connection>, i: nat, j: nat, k: Key)
    requires i <= j <= |s|
    ensures Tally(s[..i], k) <= Tally(s[..j], k)
    decreases j
  {
    if i < j {
      assert s[..j][..j - 1] == s[..j - 1];
      TallyGrows(s, i, j - 1, k);
    }
  }

  /** A port that has been bound is behind its port's counter from then on. */
  lemma {:induction false} BoundIsBehind(s: seq<Connection>, i: nat, j: nat, p: Port)
    requires Replayable(s) && i < j <= |s| && Joins(s[i], p)
    ensures p.index < Tally(s[..j], KeyOf(p))
  {
    assert s[..i + 1][..i] == s[..i];
    assert Tally(s[..i + 1], KeyOf(p)) > Tally(s[..i], KeyOf(p)) == p.index;
    TallyGrows(s, i + 1, j, KeyOf(p));
  }

  /** Whatever is behind a port's counter has been bound. */
  lemma {:induction false} BehindIsBound(s: seq<Connection>, k: Key, n: nat) returns (i: nat)
    requires Replayable(s) && DistinctEnds(s) && n < Tally(s, k)
    ensures i < |s| && Joins(s[i], Port(k.0, k.1, n))
  {
    var m := |s| - 1;
    ReplayablePrefix(s, m);
    if n < Tally(s[..m], k) {
      i := BehindIsBound(s[..m], k, n);
    } else {
      i := m;
      assert s[m] in s && Bindable(s[..m], s[m]);
    }
  }

  /** No port is bound twice. */
  lemma {:induction false} PortsBoundOnce(s: seq<Connection>, i: nat, j: nat, p: Port)
    requires Replayable(s) && i < |s| && j < |s| && Joins(s[i], p) && Joins(s[j], p)
    ensures i == j
  {
    if i < j {
      BoundIsBehind(s, i, j, p);
    } else if j < i {
      BoundIsBehind(s, j, i, p);
    }
  }

  // ----- indices come in order -----

  /** The indices bound on port `k`, in the order in which they are bound. */
  function BoundIndices(s: seq<Connection>, k: Key): seq<nat> {
    if s == [] then [] else
      var c := s[|s| - 1];
      BoundIndices(s[..|s| - 1], k)
      + (if KeyOf(c.0) == k then [c.0.index] else [])
      + (if KeyOf(c.1) == k then [c.1.index] else [])
  }

  /** `xs` is 0, 1, ..., n - 1. */
  ghost predicate CountsUp(xs: seq<nat>, n: nat) {
    |xs| == n && forall i :: 0 <= i < n ==> xs[i] == i
  }

  lemma {:induction false} IndicesInOrder(s: seq<Connection>, k: Key)
    requires Replayable(s) && DistinctEnds(s)
    ensures CountsUp(BoundIndices(s, k), Tally(s, k))
  {
    if s != [] {
      var m := |s| - 1;
      ReplayablePrefix(s, m);
      assert s[m] in s && Bindable(s[..m], s[m]);
      forall c | c in s[..m] ensures c.0 != c.1 { assert c in s; }
      IndicesInOrder(s[..m], k);
    }
  }

  // ----- counting -----

  ghost function Swapped(s: seq<Connection>): seq<Connection> {
    seq(|s|, i requires 0 <= i < |s| => Swap(s[i]))
  }

  /** The two directions of a pair never both get bound. */
  lemma {:induction false} BothDirectionsNoDuplicates(s: seq<Connection>)
    requires Replayable(s) && DistinctEnds(s)
    ensures NoDuplicates(s + Swapped(s))
  {
    var t := Swapped(s);
    forall i, j | 0 <= i < j < |s + t| ensures (s + t)[i] != (s + t)[j] {
      if (s + t)[i] == (s + t)[j] {
        var i', j' := if i < |s| then i else i - |s|, if j < |s| then j else j - |s|;
        assert s[i'] in s;
        PortsBoundOnce(s, i', j', s[i'].0);
      }
    }
  }

  /** If half of a symmetric list can be made, those connections and their reversals are the whole list,
      without repetition. */
  lemma {:induction false} HalfIsEverything(connections: seq<Connection>, s: seq<Connection>)
    requires Symmetric(connections) && DistinctEnds(connections)
    requires Replayable(s) && (forall c :: c in s ==> c in connections)
    requires 2 * |s| == |connections|
    ensures NoDuplicates(connections)
    ensures forall c :: c in connections ==> (c in s) != (Swap(c) in s)
  {
    var t := Swapped(s);
    BothDirectionsNoDuplicates(s);
    SetOfBound(s + t);
    SetOfBound(connections);
    BothDirectionsListed(connections, s);
    SubsetOfSameSize(SetOf(s + t), SetOf(connections));
    forall c | c in connections ensures (c in s) != (Swap(c) in s) {
      assert c in SetOf(s + t);
      if c in t {
        var i :| 0 <= i < |t| && c == t[i];
        assert Swap(c) == s[i];
      }
      if c in s && Swap(c) in s {
        var i, j :| 0 <= i < |s| && s[i] == c && 0 <= j < |s| && s[j] == Swap(c);
        PortsBoundOnce(s, i, j, c.0);
        assert false;
      }
    }
  }

  /** The final count alone forces a perfect matching.  Of every pair exactly one direction is bound, no
      port has two peers, no connection is listed twice, and each port's indices are bound as 0, 1, 2, ... */
  lemma {:induction false} CountCheckSuffices(connections: seq<Connection>, order: seq<Connection>)
    requires multiset(order) == multiset(connections)
    requires Symmetric(connections) && DistinctEnds(connections)
    requires 2 * |Pass(order)| == |connections|
    ensures NoDuplicates(connections)
    ensures forall c :: c in connections ==> (c in Pass(order)) != (Swap(c) in Pass(order))
    ensures OnePeer(connections)
    ensures forall k :: CountsUp(BoundIndices(Pass(order), k), Tally(Pass(order), k))
    ensures forall c, p :: c in connections && Joins(c, p) ==> p.index < Tally(Pass(order), KeyOf(p))
  {
    var s := Pass(order);
    PassIsReplayable(order);
    forall c | c in s ensures c in connections { assert c in multiset(order); }
    HalfIsEverything(connections, s);
    forall k ensures CountsUp(BoundIndices(s, k), Tally(s, k)) { IndicesInOrder(s, k); }
    HasOnePeer(connections, s);
    forall c, p | c in connections && Joins(c, p) ensures p.index < Tally(s, KeyOf(p)) {
      var i :| 0 <= i < |s| && (s[i] == c || s[i] == Swap(c));
      BoundIsBehind(s, i, |s|, p);
      assert s[..|s|] == s;
    }
  }

  lemma {:induction false} OnlyOnePeer(connections: seq<Connection>, s: seq<Connection>, c: Connection, d: Connection,
                                       p: Port)
    requires Replayable(s) && c in connections && d in connections && Joins(c, p) && Joins(d, p)
    requires forall e :: e in connections ==> (e in s) != (Swap(e) in s)
    ensures d == c || d == Swap(c)
  {
    var i :| 0 <= i < |s| && (s[i] == c || s[i] == Swap(c));
    var j :| 0 <= j < |s| && (s[j] == d || s[j] == Swap(d));
    PortsBoundOnce(s, i, j, p);
  }

  // ----- exactly when the pass succeeds -----

  ghost function Select(order: seq<Connection>, f: seq<nat>): seq<Connection>
    requires forall j :: 0 <= j < |f| ==> f[j] < |order|
  {
    seq(|f|, j requires 0 <= j < |f| => order[f[j]])
  }

  ghost predicate Increasing(f: seq<nat>, bound: nat) {
    && (forall j :: 0 <= j < |f| ==> f[j] < bound)
    && forall i, j :: 0 <= i < j < |f| ==> f[i] < f[j]
  }

  /** No port has two peers. */
  ghost predicate OnePeer(connections: seq<Connection>) {
    forall c, d, p {:trigger Joins(c, p), Joins(d, p)} ::
      c in connections && d in connections && Joins(c, p) && Joins(d, p) ==> d == c || d == Swap(c)
  }

  /** A choice of positions of the visiting order at which connections can be made one after the other. */
  ghost predicate InOrder(order: seq<Connection>, f: seq<nat>) {
    Increasing(f, |order|) && Replayable(Select(order, f))
  }

  /** A choice of half of the positions. */
  ghost predicate Schedule(order: seq<Connection>, f: seq<nat>) {
    InOrder(order, f) && 2 * |f| == |order|
  }

  lemma {:induction false} PassPositions(order: seq<Connection>) returns (f: seq<nat>)
    ensures Increasing(f, |order|) && Select(order, f) == Pass(order)
  {
    if order == [] {
      f := [];
    } else {
      var m := |order| - 1;
      var g := PassPositions(order[..m]);
      SelectPrefix(order, m, g);
      IncreasingMore(g, m);
      f := if Bindable(Pass(order[..m]), order[m]) then g + [m] else g;
    }
  }

  lemma {:induction false} IncreasingMore(f: seq<nat>, m: nat)
    requires Increasing(f, m)
    ensures Increasing(f, m + 1) && Increasing(f + [m], m + 1)
  {
  }

  lemma {:induction false} SelectPrefix(order: seq<Connection>, m: nat, f: seq<nat>)
    requires m < |order| && forall j :: 0 <= j < |f| ==> f[j] < m
    ensures Select(order, f) == Select(order[..m], f)
    ensures Select(order, f + [m]) == Select(order[..m], f) + [order[m]]
  {
  }

  /** The connection has been made, in one direction or the other. */
  predicate Made(g: seq<Connection>, c: Connection) {
    c in g || Swap(c) in g
  }

  /** The greedy pass loses nothing: where no port has two peers, what any choice has made by position `n`, the pass
      has made too, in one direction or the other. */
  lemma {:induction false} PassKeepsUp(order: seq<Connection>, f: seq<nat>, n: nat, j: nat)
    requires OnePeer(order) && DistinctEnds(order) && InOrder(order, f)
    requires n <= |order| && j < |f| && f[j] < n
    ensures Made(Pass(order[..n]), Select(order, f)[j])
    decreases n, 0
  {
    PassPrefix(order, n);
    if f[j] < n - 1 {
      PassKeepsUp(order, f, n - 1, j);
    } else if !Bindable(Pass(order[..n - 1]), order[n - 1]) {
      AllKeptUp(order, f, n - 1, j);
      KeptUp(order, f, n - 1, j);
    }
  }

  lemma {:induction false} AllKeptUp(order: seq<Connection>, f: seq<nat>, n: nat, j: nat)
    requires OnePeer(order) && DistinctEnds(order) && InOrder(order, f) && n < |order| && j < |f| && f[j] == n
    ensures forall i :: 0 <= i < j ==> Made(Pass(order[..n]), Select(order, f)[i])
    decreases n, 1
  {
    forall i | 0 <= i < j ensures Made(Pass(order[..n]), Select(order, f)[i]) {
      PassKeepsUp(order, f, n, i);
    }
  }

  /** Where a choice makes a connection that the pass cannot make, the pass has made it before. */
  lemma {:induction false} KeptUp(order: seq<Connection>, f: seq<nat>, n: nat, j: nat)
    requires OnePeer(order) && DistinctEnds(order) && InOrder(order, f) && n < |order| && j < |f| && f[j] == n
    requires forall i :: 0 <= i < j ==> Made(Pass(order[..n]), Select(order, f)[i])
    requires !Bindable(Pass(order[..n]), order[n])
    ensures Made(Pass(order[..n]), Select(order, f)[j])
  {
    var s, g := Select(order, f), Pass(order[..n]);
    PassIsReplayable(order[..n]);
    forall c | c in g ensures c in order { assert c in order[..n]; }
    forall c | c in s ensures c in order { }
    AlreadyMade(order, s, j, g);
  }

  lemma {:induction false} AlreadyMade(order: seq<Connection>, s: seq<Connection>, j: nat, g: seq<Connection>)
    requires OnePeer(order) && DistinctEnds(order)
    requires Replayable(s) && (forall c :: c in s ==> c in order)
    requires Replayable(g) && (forall c :: c in g ==> c in order)
    requires j < |s| && (forall i :: 0 <= i < j ==> Made(g, s[i])) && !Bindable(g, s[j])
    ensures Made(g, s[j])
  {
    NotBehind(s, j, g, s[j].0);
    NotBehind(s, j, g, s[j].1);
    var p := if Tally(g, KeyOf(s[j].0)) != s[j].0.index then s[j].0 else s[j].1;
    var i := BehindIsBound(g, KeyOf(p), p.index);
    assert Joins(s[j], p) && Joins(g[i], p);
  }

  lemma {:induction false} NotBehind(s: seq<Connection>, j: nat, g: seq<Connection>, p: Port)
    requires Replayable(s) && Replayable(g) && DistinctEnds(s) && j < |s| && Joins(s[j], p)
    requires forall i :: 0 <= i < j ==> Made(g, s[i])
    ensures Tally(g, KeyOf(p)) >= p.index
  {
    if p.index > 0 {
      var q := p.(index := p.index - 1);
      var i := EarlierBound(s, j, p, q);
      var c := if s[i] in g then s[i] else Swap(s[i]);
      assert Joins(c, q);
      var h :| 0 <= h < |g| && g[h] == c;
      BoundIsBehind(g, h, |g|, q);
      assert g[..|g|] == g;
    }
  }

  lemma {:induction false} EarlierBound(s: seq<Connection>, j: nat, p: Port, q: Port) returns (i: nat)
    requires Replayable(s) && DistinctEnds(s) && j < |s| && Joins(s[j], p)
    requires p.index > 0 && q == p.(index := p.index - 1)
    ensures i < j && Joins(s[i], q)
  {
    assert Bindable(s[..j], s[j]);
    ReplayablePrefix(s, j);
    forall c | c in s[..j] ensures c.0 != c.1 { assert c in s; }
    i := BehindIsBound(s[..j], KeyOf(p), q.index);
  }

  /** The pass is accepted if and only if some choice of one visit per pair could be made in order. */
  lemma {:induction false} PassSucceedsExactlyWhen(order: seq<Connection>)
    requires Symmetric(order) && DistinctEnds(order)
    ensures 2 * |Pass(order)| == |order| <==> exists f :: Schedule(order, f)
  {
    PassIsReplayable(order);
    if 2 * |Pass(order)| == |order| {
      var f := PassPositions(order);
      assert Schedule(order, f);
    }
    if f :| Schedule(order, f) {
      HasOnePeer(order, Select(order, f));
      ScheduleForcesPass(order, f);
    }
  }

  lemma {:induction false} ScheduleForcesPass(order: seq<Connection>, f: seq<nat>)
    requires Symmetric(order) && DistinctEnds(order) && OnePeer(order) && Schedule(order, f)
    ensures 2 * |Pass(order)| == |order|
  {
    PassMakesMost(order, f);
    PassMakesHalf(order);
  }

  /** Half of a symmetric list can only be made if no port has two peers. */
  lemma {:induction false} HasOnePeer(order: seq<Connection>, s: seq<Connection>)
    requires Symmetric(order) && DistinctEnds(order)
    requires Replayable(s) && (forall c :: c in s ==> c in order) && 2 * |s| == |order|
    ensures OnePeer(order)
  {
    HalfIsEverything(order, s);
    forall c, d, p | c in order && d in order && Joins(c, p) && Joins(d, p) ensures d == c || d == Swap(c) {
      OnlyOnePeer(order, s, c, d, p);
    }
  }

  /** No choice makes more connections than the pass does. */
  lemma {:induction false} PassMakesMost(order: seq<Connection>, f: seq<nat>)
    requires DistinctEnds(order) && OnePeer(order) && InOrder(order, f)
    ensures |f| <= |Pass(order)|
  {
    var s, g := Select(order, f), Pass(order);
    PassIsReplayable(order);
    assert order[..|order|] == order;
    forall i | 0 <= i < |s| ensures Made(g, s[i]) {
      PassKeepsUp(order, f, |order|, i);
    }
    NoMoreThan(s, g);
  }

  lemma {:induction false} PassMakesHalf(order: seq<Connection>)
    requires Symmetric(order) && DistinctEnds(order)
    ensures 2 * |Pass(order)| <= |order|
  {
    var g := Pass(order);
    PassIsReplayable(order);
    BothDirectionsListed(order, g);
    BothDirectionsNoDuplicates(g);
    SetOfBound(g + Swapped(g));
    SetOfBound(order);
    SubsetSize(SetOf(g + Swapped(g)), SetOf(order));
  }

  lemma {:induction false} BothDirectionsListed(connections: seq<Connection>, s: seq<Connection>)
    requires Symmetric(connections) && forall c :: c in s ==> c in connections
    ensures SetOf(s + Swapped(s)) <= SetOf(connections)
  {
    forall c | c in s + Swapped(s) ensures c in connections {
      if c !in s {
        var i :| 0 <= i < |s| && c == Swapped(s)[i];
        assert s[i] in s;
      }
    }
  }

  /** A run that includes another one, up to direction, is at least as long. */
  lemma {:induction false} NoMoreThan(s: seq<Connection>, g: seq<Connection>)
    requires Replayable(s) && DistinctEnds(s) && Replayable(g) && DistinctEnds(g)
    requires forall i :: 0 <= i < |s| ==> Made(g, s[i])
    ensures |s| <= |g|
  {
    BothDirectionsNoDuplicates(s);
    BothDirectionsNoDuplicates(g);
    SetOfBound(s + Swapped(s));
    SetOfBound(g + Swapped(g));
    forall c | c in s + Swapped(s) ensures c in g + Swapped(g) {
      var i :| 0 <= i < |s| && (c == s[i] || c == Swapped(s)[i]);
      var h :| 0 <= h < |g| && (g[h] == s[i] || g[h] == Swap(s[i]));
      assert (g + Swapped(g))[h] == g[h] && (g + Swapped(g))[|g| + h] == Swap(g[h]);
    }
    assert SetOf(s + Swapped(s)) <= SetOf(g + Swapped(g));
    SubsetSize(SetOf(s + Swapped(s)), SetOf(g + Swapped(g)));
  }

  // ----- the limits of the pass -----

  lemma {:induction false} PassOneMore(order: seq<Connection>, c: Connection)
    ensures Pass(order + [c]) == if Bindable(Pass(order), c) then Pass(order) + [c] else Pass(order)
  {
    assert (order + [c])[..|order|] == order;
  }

  lemma {:induction false} TallyOneMore(made: seq<Connection>, c: Connection, k: Key)
    ensures Tally(made + [c], k) == Tally(made, k) + Ends(c, k)
  {
    assert (made + [c])[..|made|] == made;
  }

  /** How ports and connections compare: by object, then by port, then by index, then by the other end. */
  predicate TextBefore(a: string, b: string) {
    b != "" && (a == "" || a[0] < b[0] || (a[0] == b[0] && TextBefore(a[1..], b[1..])))
  }

  predicate PortBefore(p: Port, q: Port) {
    || TextBefore(p.objectName, q.objectName)
    || (p.objectName == q.objectName && TextBefore(p.portName, q.portName))
    || (p.objectName == q.objectName && p.portName == q.portName && p.index < q.index)
  }

  predicate Before(c: Connection, d: Connection) {
    PortBefore(c.0, d.0) || (c.0 == d.0 && PortBefore(c.1, d.1))
  }

  ghost predicate Sorted(order: seq<Connection>) {
    forall i, j :: 0 <= i && i + 1 == j < |order| ==> Before(order[i], order[j])
  }

  // The chain a[0]-b[1], b[0]-c[1], c[0]-e[0].
  const A: Port := Port("a", "p", 0)
  const B0: Port := Port("b", "p", 0)
  const B1: Port := Port("b", "p", 1)
  const C0: Port := Port("c", "p", 0)
  const C1: Port := Port("c", "p", 1)
  const E: Port := Port("e", "p", 0)

  function SortedVisit(): seq<Connection> {
    [(A, B1), (B0, C1), (B1, A), (C0, E), (C1, B0), (E, C0)]
  }

  ghost function ReverseVisit(): seq<Connection> {
    Reverse(SortedVisit())
  }

  lemma {:induction false} PassSkips(order: seq<Connection>, c: Connection, made: seq<Connection>)
    requires Pass(order) == made && !Bindable(made, c)
    ensures Pass(order + [c]) == made
  {
    PassOneMore(order, c);
  }

  lemma {:induction false} PassTakes(order: seq<Connection>, c: Connection, made: seq<Connection>)
    requires Pass(order) == made && Bindable(made, c)
    ensures Pass(order + [c]) == made + [c]
  {
    PassOneMore(order, c);
  }

  lemma {:induction false} TallyOfOne(c: Connection, k: Key)
    ensures Tally([c], k) == Ends(c, k)
  {
    TallyOneMore([], c, k);
    assert [] + [c] == [c];
  }

  lemma {:induction false} TallyOfTwo(c: Connection, d: Connection, k: Key)
    ensures Tally([c, d], k) == Ends(c, k) + Ends(d, k)
  {
    TallyOfOne(c, k);
    TallyOneMore([c], d, k);
    assert [c] + [d] == [c, d];
  }

  lemma {:induction false} SortedVisitMakes()
    ensures Pass(SortedVisit()) == [(C0, E), (C1, B0)]
  {
    var o := SortedVisit();
    PassSkips([], o[0], []);
    PassSkips([] + [o[0]], o[1], []);
    PassSkips([] + [o[0]] + [o[1]], o[2], []);
    PassTakes([] + [o[0]] + [o[1]] + [o[2]], o[3], []);
    TallyOfOne((C0, E), KeyOf(B0));
    TallyOfOne((C0, E), KeyOf(C1));
    assert [] + [(C0, E)] == [(C0, E)] && [(C0, E)] + [(C1, B0)] == [(C0, E), (C1, B0)];
    PassTakes([] + [o[0]] + [o[1]] + [o[2]] + [o[3]], o[4], [(C0, E)]);
    TallyOfTwo((C0, E), (C1, B0), KeyOf(E));
    PassSkips([] + [o[0]] + [o[1]] + [o[2]] + [o[3]] + [o[4]], o[5], [(C0, E), (C1, B0)]);
    assert [] + [o[0]] + [o[1]] + [o[2]] + [o[3]] + [o[4]] + [o[5]] == o;
  }

  lemma {:induction false} ReverseVisitStarts()
    ensures Pass(ReverseVisit()[..3]) == [(E, C0), (C1, B0)]
  {
    var o := ReverseVisit();
    PassTakes([], o[0], []);
    assert [] + [(E, C0)] == [(E, C0)] && [(E, C0)] + [(C1, B0)] == [(E, C0), (C1, B0)];
    TallyOfOne((E, C0), KeyOf(B0));
    TallyOfOne((E, C0), KeyOf(C1));
    PassTakes([] + [o[0]], o[1], [(E, C0)]);
    TallyOfTwo((E, C0), (C1, B0), KeyOf(C0));
    PassSkips([] + [o[0]] + [o[1]], o[2], [(E, C0), (C1, B0)]);
    assert o[..3] == [] + [o[0]] + [o[1]] + [o[2]];
  }

  lemma {:induction false} ReverseVisitMakes()
    ensures Pass(ReverseVisit()) == [(E, C0), (C1, B0), (B1, A)]
  {
    var o, two := ReverseVisit(), [(E, C0), (C1, B0)];
    var three := two + [(B1, A)];
    ReverseVisitStarts();
    TallyOfTwo((E, C0), (C1, B0), KeyOf(B1));
    TallyOfTwo((E, C0), (C1, B0), KeyOf(A));
    PassTakes(o[..3], o[3], two);
    TallyOneMore(two, (B1, A), KeyOf(B0));
    TallyOneMore(two, (B1, A), KeyOf(A));
    PassSkips(o[..3] + [o[3]], o[4], three);
    PassSkips(o[..3] + [o[3]] + [o[4]], o[5], three);
    assert o[..3] + [o[3]] + [o[4]] + [o[5]] == o;
  }

  /** Three connections and their reversals. */
  lemma {:induction false} BothWays(x: Connection, y: Connection, z: Connection)
    ensures Symmetric([x, y, Swap(x), z, Swap(y), Swap(z)])
  {
    var o := [x, y, Swap(x), z, Swap(y), Swap(z)];
    assert o[0] == x && o[1] == y && o[2] == Swap(x) && o[3] == z && o[4] == Swap(y) && o[5] == Swap(z);
  }

  lemma {:induction false} VisitsListBothDirections()
    ensures Symmetric(SortedVisit()) && DistinctEnds(SortedVisit())
  {
    BothWays((A, B1), (B0, C1), (C0, E));
  }

  lemma {:induction false} VisitIsSorted()
    ensures Sorted(SortedVisit())
  {
    assert TextBefore("a", "b") && TextBefore("b", "c") && TextBefore("c", "e");
  }

  /** Sorting does not make every connectable list bindable: the sorted visit of this chain, listed in both
      directions, is rejected, although another visit of the same list is accepted. */
  lemma {:induction false} SortedVisitCanFail()
    ensures Sorted(SortedVisit()) && Symmetric(SortedVisit()) && DistinctEnds(SortedVisit())
    ensures Outcome(SortedVisit()) == NotOrderable
    ensures multiset(ReverseVisit()) == multiset(SortedVisit())
    ensures Outcome(ReverseVisit()) == Bound([(E, C0), (C1, B0), (B1, A)])
  {
    VisitIsSorted();
    VisitsListBothDirections();
    ReversePermutes(SortedVisit());
    SortedVisitMakes();
    ReverseVisitMakes();
  }
}
