/** The order of the records in a trace: what is read before it is needed, computed before it is written, and how
    often each transfer is used before the next one. */
module TrafficOrder {
  import opened Collections
  import opened TrafficTrace
  import opened TrafficProperties
  import opened TrafficSchedules

  /** What can be counted in a trace: unicast reads of a tensor by a processing element, broadcasts of it, either of
      them, computations and writes of a processing element. */
  datatype Event = Fetched(slot: Slot, pe: nat) | Cast(slot: Slot) | Given(slot: Slot, pe: nat)
                 | Computed(pe: nat) | Stored(pe: nat)

  function Is(x: Event): Traffic -> bool {
    (t: Traffic) =>
      match x
      case Fetched(slot, pe) => t.kind == READ && t.response == UNICAST && t.origin == For(slot) && t.src == (0, pe)
      case Cast(slot) => t.kind == READ && t.response == BROADCAST && t.origin == For(slot)
      case Given(slot, pe) => t.kind == READ && t.origin == For(slot) && (t.response == BROADCAST || t.src == (0, pe))
      case Computed(pe) => t.kind == COMPUTE && t.src == (0, pe)
      case Stored(pe) => t.kind == WRITE && t.src == (0, pe)
  }

  function Count(x: Event, t: seq<Traffic>): nat {
    |Keep(Is(x), t)|
  }

  /** How far `n` times the `x` are ahead of the `y`. */
  function Balance(x: Event, n: nat, y: Event, t: seq<Traffic>): int {
    n * Count(x, t) - Count(y, t)
  }

  ghost predicate Within(t: seq<Traffic>, x: Event, n: nat, y: Event, lo: int, hi: int) {
    forall j {:trigger t[..j]} :: 0 <= j <= |t| ==> lo <= Balance(x, n, y, t[..j]) <= hi
  }

  /** At any time there have been no more `y` than `x`. */
  ghost predicate NeverBefore(t: seq<Traffic>, x: Event, y: Event) {
    forall j {:trigger t[..j]} :: 0 <= j <= |t| ==> Count(y, t[..j]) <= Count(x, t[..j])
  }

  /** Every `x` is followed by at most `n` of the `y`, and by all of them before the next `x`. */
  ghost predicate Leads(t: seq<Traffic>, x: Event, n: nat, y: Event) {
    Within(t, x, n, y, 0, n)
  }

  /** The same, and the last `x` by all of them too. */
  ghost predicate Serves(t: seq<Traffic>, x: Event, n: nat, y: Event) {
    Leads(t, x, n, y) && Count(y, t) == n * Count(x, t)
  }

  // ----- counting in the records of one operation -----

  function CountIn(x: Event, op: Op): nat {
    match x
    case Fetched(slot, pe) => if op.Read? && op.slot == slot && pe < op.n then 1 else 0
    case Cast(slot) => if op.Broadcast? && op.slot == slot then 1 else 0
    case Given(slot, pe) => if (op.Broadcast? || (op.Read? && pe < op.n)) && op.slot == slot then 1 else 0
    case Computed(pe) => if op.Compute? && pe < op.n then 1 else 0
    case Stored(pe) => if op.Write? && pe < op.n then 1 else 0
  }

  lemma {:induction false} ReadsCount(x: Event, slot: Slot, base: int, size: nat, n: nat)
    ensures Count(x, Burst(READ, slot, base, size, n)) == CountIn(x, Read(slot, size, n))
  {
    if n > 0 {
      ReadsCount(x, slot, base, size, n - 1);
      OneMore(x, Burst(READ, slot, base, size, n - 1), Unicast(READ, slot, n - 1, base + (n - 1) * size, size));
    }
  }

  lemma {:induction false} WritesCount(x: Event, slot: Slot, base: int, size: nat, n: nat)
    ensures Count(x, Burst(WRITE, slot, base, size, n)) == CountIn(x, Write(slot, size, n))
  {
    if n > 0 {
      WritesCount(x, slot, base, size, n - 1);
      OneMore(x, Burst(WRITE, slot, base, size, n - 1), Unicast(WRITE, slot, n - 1, base + (n - 1) * size, size));
    }
  }

  lemma {:induction false} WorksCount(x: Event, addr: int, n: nat)
    ensures Count(x, Works(addr, n)) == CountIn(x, Compute(n))
  {
    if n > 0 {
      WorksCount(x, addr, n - 1);
      OneMore(x, Works(addr, n - 1), Traffic(COMPUTE, (0, n - 1), (1, 0), addr, 0, UNICAST, UNICAST, Origin.Work));
    }
  }

  lemma {:induction false} OneMore(x: Event, t: seq<Traffic>, last: Traffic)
    ensures Count(x, t + [last]) == Count(x, t) + if Is(x)(last) then 1 else 0
  {
    KeepAppend(Is(x), t, last);
  }

  lemma {:induction false} BroadcastCount(x: Event, m: Machine, slot: Slot, size: nat, base: int)
    ensures Count(x, Emit(m, Broadcast(slot, size), base)) == CountIn(x, Broadcast(slot, size))
  {
    var first := Unicast(READ, slot, 0, base, size).(response := BROADCAST);
    SyncsShape(slot, m.numPE);
    KeepConcat(Is(x), [first], Syncs(slot, m.numPE));
    KeepNone(Is(x), Syncs(slot, m.numPE));
    OneMore(x, [], first);
    assert [] + [first] == [first];
  }

  lemma {:induction false} EmitCount(x: Event, m: Machine, op: Op, base: int)
    ensures Count(x, Emit(m, op, base)) == CountIn(x, op)
  {
    match op
    case Read(slot, size, n) => ReadsCount(x, slot, base, size, n);
    case Write(slot, size, n) => WritesCount(x, slot, base, size, n);
    case Broadcast(slot, size) => BroadcastCount(x, m, slot, size, base);
    case Compute(n) => WorksCount(x, m.addr, n);
  }

  // ----- from operations to records -----

  /** No operation does both. */
  ghost predicate Unlike(x: Event, y: Event) {
    forall op {:trigger CountIn(x, op)} :: CountIn(x, op) == 0 || CountIn(y, op) == 0
  }

  function Weigh(x: Event, n: nat, y: Event): Op -> int {
    (op: Op) => (if CountIn(x, op) > 0 then n else 0) - CountIn(y, op)
  }

  lemma {:induction false} CountConcat(x: Event, a: seq<Traffic>, b: seq<Traffic>)
    ensures Count(x, a + b) == Count(x, a) + Count(x, b)
  {
    KeepConcat(Is(x), a, b);
  }

  lemma {:induction false} BalanceConcat(x: Event, n: nat, y: Event, a: seq<Traffic>, b: seq<Traffic>)
    ensures Balance(x, n, y, a + b) == Balance(x, n, y, a) + Balance(x, n, y, b)
  {
    CountConcat(x, a, b);
    CountConcat(y, a, b);
    Distributes(n, Count(x, a), Count(x, b));
  }

  lemma {:induction false} Distributes(n: int, a: int, b: int)
    ensures n * (a + b) == n * a + n * b
  {
  }

  lemma {:induction false} CountPrefix(x: Event, t: seq<Traffic>, j: nat)
    requires j <= |t|
    ensures Count(x, t[..j]) <= Count(x, t)
  {
    assert t == t[..j] + t[j..];
    CountConcat(x, t[..j], t[j..]);
  }

  lemma {:induction false} EmitBalance(x: Event, n: nat, y: Event, m: Machine, op: Op, base: int)
    ensures Balance(x, n, y, Emit(m, op, base)) == Weigh(x, n, y)(op)
  {
    EmitCount(x, m, op, base);
    EmitCount(y, m, op, base);
    assert CountIn(x, op) == 0 || CountIn(x, op) == 1;
  }

  lemma {:induction false} MulMonotone(n: nat, a: nat, b: nat)
    requires a <= b
    ensures n * a <= n * b
  {
  }

  /** Within the records of one operation the balance stays between what it was and what it becomes. */
  lemma {:induction false} PartBalance(x: Event, n: nat, y: Event, m: Machine, op: Op, base: int, j: nat)
    requires Unlike(x, y) && j <= |Emit(m, op, base)|
    ensures var b, w := Balance(x, n, y, Emit(m, op, base)[..j]), Weigh(x, n, y)(op);
            0 <= b <= w || w <= b <= 0
  {
    var e := Emit(m, op, base);
    EmitCount(x, m, op, base);
    EmitCount(y, m, op, base);
    EmitBalance(x, n, y, m, op, base);
    CountPrefix(x, e, j);
    CountPrefix(y, e, j);
    assert CountIn(x, op) == 0 || CountIn(y, op) == 0;
    MulMonotone(n, 0, Count(x, e[..j]));
    MulMonotone(n, Count(x, e[..j]), Count(x, e));
  }

  /** The running totals stay between `lo` and `hi`. */
  ghost predicate Ranges(w: Op -> int, ops: seq<Op>, lo: int, hi: int) {
    forall j {:trigger ops[..j]} :: 0 <= j <= |ops| ==> lo <= Total(w, ops[..j]) <= hi
  }

  lemma {:induction false} RangesWhole(w: Op -> int, ops: seq<Op>, lo: int, hi: int)
    requires Ranges(w, ops, lo, hi)
    ensures lo <= Total(w, ops) <= hi && lo <= 0 <= hi
  {
    assert ops[..|ops|] == ops && ops[..0] == [];
  }

  lemma {:induction false} RangesPrefix(w: Op -> int, ops: seq<Op>, k: nat, lo: int, hi: int)
    requires Ranges(w, ops, lo, hi) && k <= |ops|
    ensures Ranges(w, ops[..k], lo, hi)
  {
    forall j | 0 <= j <= |ops[..k]| ensures lo <= Total(w, ops[..k][..j]) <= hi {
      assert ops[..k][..j] == ops[..j];
    }
  }

  lemma {:induction false} WithinConcat(a: seq<Traffic>, b: seq<Traffic>, x: Event, n: nat, y: Event, lo: int, hi: int)
    requires Within(a, x, n, y, lo, hi)
    requires Within(b, x, n, y, lo - Balance(x, n, y, a), hi - Balance(x, n, y, a))
    ensures Within(a + b, x, n, y, lo, hi)
  {
    forall j | 0 <= j <= |a + b| ensures lo <= Balance(x, n, y, (a + b)[..j]) <= hi {
      if j <= |a| {
        assert (a + b)[..j] == a[..j];
      } else {
        assert (a + b)[..j] == a + b[..j - |a|];
        BalanceConcat(x, n, y, a, b[..j - |a|]);
      }
    }
  }

  lemma {:induction false} EmitWithin(x: Event, n: nat, y: Event, m: Machine, op: Op, base: int, lo: int, hi: int)
    requires Unlike(x, y) && lo <= 0 <= hi && lo <= Weigh(x, n, y)(op) <= hi
    ensures Within(Emit(m, op, base), x, n, y, lo, hi)
  {
    var e := Emit(m, op, base);
    forall j | 0 <= j <= |e| ensures lo <= Balance(x, n, y, e[..j]) <= hi {
      PartBalance(x, n, y, m, op, base, j);
    }
  }

  lemma {:induction false} TraceWithinStep(m: Machine, t: seq<Traffic>, op: Op, base: int,
                                           x: Event, n: nat, y: Event, lo: int, hi: int)
    requires Unlike(x, y) && Within(t, x, n, y, lo, hi) && lo <= Balance(x, n, y, t) <= hi
    requires lo <= Balance(x, n, y, t) + Weigh(x, n, y)(op) <= hi
    ensures Within(t + Emit(m, op, base), x, n, y, lo, hi)
    ensures Balance(x, n, y, t + Emit(m, op, base)) == Balance(x, n, y, t) + Weigh(x, n, y)(op)
  {
    var b := Balance(x, n, y, t);
    EmitWithin(x, n, y, m, op, base, lo - b, hi - b);
    WithinConcat(t, Emit(m, op, base), x, n, y, lo, hi);
    EmitBalance(x, n, y, m, op, base);
    BalanceConcat(x, n, y, t, Emit(m, op, base));
  }

  /** The records keep to the bounds, and end where the totals end.  The trigger keeps the trace folded. */
  ghost predicate Follows(m: Machine, ops: seq<Op>, start: Start, x: Event, n: nat, y: Event, lo: int, hi: int) {
    forall s {:trigger Trace(m, ops, s)} :: s == start ==>
      && Within(Trace(m, ops, s), x, n, y, lo, hi)
      && Balance(x, n, y, Trace(m, ops, s)) == Total(Weigh(x, n, y), ops)
  }

  lemma {:induction false} NothingWithin(x: Event, n: nat, y: Event, lo: int, hi: int)
    requires lo <= 0 <= hi
    ensures Within([], x, n, y, lo, hi) && Balance(x, n, y, []) == 0
  {
    NothingCounted(x, n, y);
  }

  lemma {:induction false} NothingCounted(x: Event, n: nat, y: Event)
    ensures Balance(x, n, y, []) == 0
  {
    assert Count(x, []) == 0 && Count(y, []) == 0;
  }

  lemma {:induction false} NothingFollows(m: Machine, start: Start, x: Event, n: nat, y: Event, lo: int, hi: int)
    requires lo <= 0 <= hi
    ensures Follows(m, [], start, x, n, y, lo, hi)
  {
    NothingWithin(x, n, y, lo, hi);
    assert Trace(m, [], start) == [];
  }

  lemma {:induction false} OneMoreFollows(m: Machine, init: seq<Op>, op: Op, start: Start,
                                          x: Event, n: nat, y: Event, lo: int, hi: int)
    requires Unlike(x, y) && Follows(m, init, start, x, n, y, lo, hi)
    requires lo <= Total(Weigh(x, n, y), init) <= hi
    requires lo <= Total(Weigh(x, n, y), init) + Weigh(x, n, y)(op) <= hi
    ensures Follows(m, init + [op], start, x, n, y, lo, hi)
  {
    TraceAppend(m, init, op, start);
    TotalMore(Weigh(x, n, y), init, op);
    TraceWithinStep(m, Trace(m, init, start), op, Base(op, init, start), x, n, y, lo, hi);
  }

  lemma {:induction false} TotalMore(w: Op -> int, init: seq<Op>, op: Op)
    ensures Total(w, init + [op]) == Total(w, init) + w(op)
  {
    assert (init + [op])[..|init|] == init;
  }

  /** What holds of the running totals over the operations holds at every single record. */
  lemma {:induction false} TraceFollows(m: Machine, ops: seq<Op>, start: Start,
                                        x: Event, n: nat, y: Event, lo: int, hi: int)
    requires Unlike(x, y) && Ranges(Weigh(x, n, y), ops, lo, hi)
    ensures Follows(m, ops, start, x, n, y, lo, hi)
  {
    RangesWhole(Weigh(x, n, y), ops, lo, hi);
    if ops == [] {
      NothingFollows(m, start, x, n, y, lo, hi);
    } else {
      var init, op := ops[..|ops| - 1], ops[|ops| - 1];
      SplitLast(ops);
      RangesPrefix(Weigh(x, n, y), ops, |ops| - 1, lo, hi);
      RangesWhole(Weigh(x, n, y), init, lo, hi);
      TraceFollows(m, init, start, x, n, y, lo, hi);
      TotalMore(Weigh(x, n, y), init, op);
      OneMoreFollows(m, init, op, start, x, n, y, lo, hi);
    }
  }

  lemma {:induction false} TraceWithin(m: Machine, ops: seq<Op>, start: Start,
                                       x: Event, n: nat, y: Event, lo: int, hi: int)
    requires Unlike(x, y) && Ranges(Weigh(x, n, y), ops, lo, hi)
    ensures Within(Trace(m, ops, start), x, n, y, lo, hi)
    ensures Balance(x, n, y, Trace(m, ops, start)) == Total(Weigh(x, n, y), ops)
  {
    TraceFollows(m, ops, start, x, n, y, lo, hi);
  }

  /** `Serves` of the trace of `ops`.  The trigger keeps the trace folded, here and below. */
  ghost predicate ServesIn(m: Machine, ops: seq<Op>, start: Start, x: Event, n: nat, y: Event) {
    forall s {:trigger Trace(m, ops, s)} :: s == start ==> Serves(Trace(m, ops, s), x, n, y)
  }

  ghost predicate LeadsIn(m: Machine, ops: seq<Op>, start: Start, x: Event, n: nat, y: Event) {
    forall s {:trigger Trace(m, ops, s)} :: s == start ==> Leads(Trace(m, ops, s), x, n, y)
  }

  ghost predicate NeverBeforeIn(m: Machine, ops: seq<Op>, start: Start, x: Event, y: Event) {
    forall s {:trigger Trace(m, ops, s)} :: s == start ==> NeverBefore(Trace(m, ops, s), x, y)
  }

  lemma {:induction false} TraceServes(m: Machine, ops: seq<Op>, start: Start, x: Event, n: nat, y: Event)
    requires Unlike(x, y) && Ranges(Weigh(x, n, y), ops, 0, n) && Total(Weigh(x, n, y), ops) == 0
    ensures ServesIn(m, ops, start, x, n, y)
  {
    TraceWithin(m, ops, start, x, n, y, 0, n);
  }

  /** Whether the last `x` has got its `y`. */
  lemma {:induction false} TraceLeads(m: Machine, ops: seq<Op>, start: Start, x: Event, n: nat, y: Event)
    requires Unlike(x, y) && Ranges(Weigh(x, n, y), ops, 0, n)
    ensures LeadsIn(m, ops, start, x, n, y)
    ensures ServesIn(m, ops, start, x, n, y) <==> Total(Weigh(x, n, y), ops) == 0
  {
    TraceWithin(m, ops, start, x, n, y, 0, n);
    if Total(Weigh(x, n, y), ops) == 0 {
      TraceServes(m, ops, start, x, n, y);
    }
  }

  lemma {:induction false} TraceNeverBefore(m: Machine, ops: seq<Op>, start: Start, x: Event, y: Event, hi: int)
    requires Unlike(x, y) && Ranges(Weigh(x, 1, y), ops, 0, hi)
    ensures NeverBeforeIn(m, ops, start, x, y)
  {
    TraceWithin(m, ops, start, x, 1, y, 0, hi);
    NotBefore(Trace(m, ops, start), x, y, hi);
  }

  lemma {:induction false} NotBefore(t: seq<Traffic>, x: Event, y: Event, hi: int)
    requires Within(t, x, 1, y, 0, hi)
    ensures NeverBefore(t, x, y)
  {
    forall j | 0 <= j <= |t| ensures Count(y, t[..j]) <= Count(x, t[..j]) {
      assert Balance(x, 1, y, t[..j]) >= 0;
    }
  }

  // ----- running totals of repetitions -----

  lemma {:induction false} RangesOne(w: Op -> int, op: Op, lo: int, hi: int)
    requires lo <= 0 <= hi && lo <= w(op) <= hi
    ensures Ranges(w, [op], lo, hi) && Total(w, [op]) == w(op)
  {
    TotalOne(w, op);
    assert [op][..0] == [] && [op][..1] == [op];
  }

  lemma {:induction false} RangesConcat(w: Op -> int, a: seq<Op>, b: seq<Op>, lo: int, hi: int)
    requires Ranges(w, a, lo, hi) && Ranges(w, b, lo - Total(w, a), hi - Total(w, a))
    ensures Ranges(w, a + b, lo, hi) && Total(w, a + b) == Total(w, a) + Total(w, b)
  {
    TotalConcat(w, a, b);
    forall j | 0 <= j <= |a + b| ensures lo <= Total(w, (a + b)[..j]) <= hi {
      if j <= |a| {
        assert (a + b)[..j] == a[..j];
      } else {
        assert (a + b)[..j] == a + b[..j - |a|];
        TotalConcat(w, a, b[..j - |a|]);
      }
    }
  }

  lemma {:induction false} RangesWiden(w: Op -> int, ops: seq<Op>, lo: int, hi: int, lo': int, hi': int)
    requires Ranges(w, ops, lo, hi) && lo' <= lo && hi <= hi'
    ensures Ranges(w, ops, lo', hi')
  {
  }

  lemma {:induction false} RangesNothing(w: Op -> int, ops: seq<Op>)
    requires forall i :: 0 <= i < |ops| ==> w(ops[i]) == 0
    ensures Ranges(w, ops, 0, 0) && Total(w, ops) == 0
  {
    if ops == [] {
      assert ops[..0] == [];
    } else {
      var k := |ops| - 1;
      RangesNothing(w, ops[..k]);
      RangesOne(w, ops[k], 0, 0);
      RangesConcat(w, ops[..k], [ops[k]], 0, 0);
      SplitLast(ops);
    }
  }

  lemma {:induction false} NextMultiple(k: nat, d: int)
    requires k > 0
    ensures (k - 1) * d + d == k * d && (d >= 0 ==> (k - 1) * d >= 0)
  {
  }

  lemma {:induction false} RangesUp(w: Op -> int, a: seq<Op>, b: seq<Op>, u: nat, h: int, d: nat)
    requires Ranges(w, a, 0, u + h) && Total(w, a) == u && Ranges(w, b, 0, h) && Total(w, b) == d
    ensures Ranges(w, a + b, 0, u + d + h) && Total(w, a + b) == u + d
  {
    RangesWhole(w, b, 0, h);
    RangesWiden(w, a, 0, u + h, 0, u + d + h);
    RangesWiden(w, b, 0, h, 0 - u, d + h);
    RangesConcat(w, a, b, 0, u + d + h);
  }

  /** A body that gains `d` and stays between 0 and `h`, repeated. */
  lemma {:induction false} RangesRepUp(w: Op -> int, k: nat, body: seq<Op>, h: int, d: nat)
    requires Ranges(w, body, 0, h) && Total(w, body) == d
    ensures Ranges(w, Rep(k, body), 0, k * d + h) && Total(w, Rep(k, body)) == k * d
  {
    if k == 0 {
      RangesWhole(w, body, 0, h);
      RangesNothing(w, []);
      RangesWiden(w, [], 0, 0, 0, h);
    } else {
      NextMultiple(k, d);
      RangesRepUp(w, k - 1, body, h, d);
      RangesUp(w, Rep(k - 1, body), body, (k - 1) * d, h, d);
    }
  }

  lemma {:induction false} RangesRepZero(w: Op -> int, k: nat, body: seq<Op>, h: int)
    requires Ranges(w, body, 0, h) && Total(w, body) == 0
    ensures Ranges(w, Rep(k, body), 0, h) && Total(w, Rep(k, body)) == 0
  {
    RangesRepUp(w, k, body, h, 0);
  }

  lemma {:induction false} RangesDown(w: Op -> int, a: seq<Op>, b: seq<Op>, u: int, d: int)
    requires Ranges(w, a, -u, 0) && Total(w, a) == -u && Ranges(w, b, -d, 0) && Total(w, b) == -d
    ensures Ranges(w, a + b, -(u + d), 0) && Total(w, a + b) == -(u + d)
  {
    RangesWhole(w, a, -u, 0);
    RangesWhole(w, b, -d, 0);
    RangesWiden(w, a, -u, 0, -(u + d), 0);
    RangesWiden(w, b, -d, 0, -d, u);
    RangesConcat(w, a, b, -(u + d), 0);
  }

  /** A body that uses up `d` step by step, repeated. */
  lemma {:induction false} RangesRepDown(w: Op -> int, k: nat, body: seq<Op>, d: int)
    requires Ranges(w, body, -d, 0) && Total(w, body) == -d
    ensures Ranges(w, Rep(k, body), -(k * d), 0) && Total(w, Rep(k, body)) == -(k * d)
  {
    if k == 0 {
      RangesNothing(w, []);
    } else {
      NextMultiple(k, d);
      RangesRepDown(w, k - 1, body, d);
      RangesDown(w, Rep(k - 1, body), body, (k - 1) * d, d);
    }
  }

  /** What adds `h` first and is used up afterwards. */
  lemma {:induction false} RangesSpent(w: Op -> int, a: seq<Op>, b: seq<Op>, h: int)
    requires Ranges(w, a, 0, h) && Total(w, a) == h && Ranges(w, b, -h, 0) && Total(w, b) == -h
    ensures Ranges(w, a + b, 0, h) && Total(w, a + b) == 0
  {
    RangesConcat(w, a, b, 0, h);
  }

  lemma {:induction false} RangesThree(w: Op -> int, a: Op, b: Op, c: Op, lo: int, hi: int)
    requires lo <= 0 <= hi && lo <= w(a) <= hi && lo <= w(a) + w(b) <= hi && lo <= w(a) + w(b) + w(c) <= hi
    ensures Ranges(w, [a, b, c], lo, hi) && Total(w, [a, b, c]) == w(a) + w(b) + w(c)
  {
    RangesOne(w, a, lo, hi);
    RangesOne(w, b, lo - w(a), hi - w(a));
    RangesConcat(w, [a], [b], lo, hi);
    RangesOne(w, c, lo - w(a) - w(b), hi - w(a) - w(b));
    RangesConcat(w, [a] + [b], [c], lo, hi);
    assert [a] + [b] + [c] == [a, b, c];
  }

  // ----- operations that bring something, use it up, or both -----

  ghost predicate Ignores(w: Op -> int, ops: seq<Op>) {
    forall i :: 0 <= i < |ops| ==> w(ops[i]) == 0
  }

  /** The operations add `v` in all, step by step. */
  ghost predicate Brings(w: Op -> int, ops: seq<Op>, v: int) {
    Ranges(w, ops, 0, v) && Total(w, ops) == v
  }

  lemma {:induction false} BringsBoth(w: Op -> int, a: seq<Op>, b: seq<Op>, u: int, v: int)
    requires Brings(w, a, u) && Brings(w, b, v)
    ensures Brings(w, a + b, u + v)
  {
    RangesWhole(w, a, 0, u);
    RangesWhole(w, b, 0, v);
    RangesWiden(w, a, 0, u, 0, u + v);
    RangesWiden(w, b, 0, v, 0 - u, v);
    RangesConcat(w, a, b, 0, u + v);
  }

  lemma {:induction false} BringsNothing(w: Op -> int, ops: seq<Op>)
    requires Ignores(w, ops)
    ensures Brings(w, ops, 0)
  {
    RangesNothing(w, ops);
  }

  lemma {:induction false} BringsOne(w: Op -> int, op: Op)
    requires w(op) >= 0
    ensures Brings(w, [op], w(op))
  {
    RangesOne(w, op, 0, w(op));
  }

  /** The operations use up `v` in all, step by step. */
  ghost predicate Spends(w: Op -> int, ops: seq<Op>, v: int) {
    Ranges(w, ops, -v, 0) && Total(w, ops) == -v
  }

  lemma {:induction false} SpendsBoth(w: Op -> int, a: seq<Op>, b: seq<Op>, u: int, v: int)
    requires Spends(w, a, u) && Spends(w, b, v)
    ensures Spends(w, a + b, u + v)
  {
    RangesDown(w, a, b, u, v);
  }

  lemma {:induction false} SpendsNothing(w: Op -> int, ops: seq<Op>)
    requires Ignores(w, ops)
    ensures Spends(w, ops, 0)
  {
    RangesNothing(w, ops);
  }

  lemma {:induction false} SpendsOne(w: Op -> int, op: Op)
    requires w(op) <= 0
    ensures Spends(w, [op], -w(op))
  {
    RangesOne(w, op, w(op), 0);
  }

  lemma {:induction false} SpendsRep(w: Op -> int, k: nat, body: seq<Op>, v: int)
    requires Spends(w, body, v)
    ensures Spends(w, Rep(k, body), k * v)
  {
    RangesRepDown(w, k, body, v);
  }

  /** The operations never use more than they have brought, never have more than `h` left, and nothing at the end. */
  ghost predicate Settles(w: Op -> int, ops: seq<Op>, h: int) {
    Ranges(w, ops, 0, h) && Total(w, ops) == 0
  }

  lemma {:induction false} SettlesBoth(w: Op -> int, a: seq<Op>, b: seq<Op>, h: int)
    requires Settles(w, a, h) && Settles(w, b, h)
    ensures Settles(w, a + b, h)
  {
    RangesConcat(w, a, b, 0, h);
  }

  lemma {:induction false} SettlesNothing(w: Op -> int, ops: seq<Op>, h: int)
    requires Ignores(w, ops) && h >= 0
    ensures Settles(w, ops, h)
  {
    RangesNothing(w, ops);
    RangesWiden(w, ops, 0, 0, 0, h);
  }

  lemma {:induction false} SettlesRep(w: Op -> int, k: nat, body: seq<Op>, h: int)
    requires Settles(w, body, h)
    ensures Settles(w, Rep(k, body), h)
  {
    RangesRepZero(w, k, body, h);
  }

  /** How often a processing element takes part when `total` parts are dealt out in rounds. */
  function Share(total: nat, p: nat, pe: nat): nat
    requires p > 0
  {
    total / p + if pe < total % p then 1 else 0
  }

  lemma {:induction false} SharesAdd(q: nat, more: bool, k: nat)
    ensures q * k + (if more then k else 0) == (q + if more then 1 else 0) * k
  {
  }

  lemma {:induction false} RoundsAndLast(w: Op -> int, q: nat, more: bool, round: seq<Op>, last: seq<Op>, k: nat)
    requires Spends(w, round, k) && Spends(w, last, if more then k else 0)
    ensures Spends(w, Rep(q, round) + last, (q + if more then 1 else 0) * k)
  {
    SpendsRep(w, q, round, k);
    SpendsBoth(w, Rep(q, round), last, q * k, if more then k else 0);
    SharesAdd(q, more, k);
  }

  /** Full rounds of `k` each, and a last round for some of the processing elements. */
  lemma {:induction false} DealtOut(w: Op -> int, total: nat, p: nat, pe: nat, round: seq<Op>, last: seq<Op>, k: nat)
    requires p > 0 && Spends(w, round, k) && Spends(w, last, if pe < total % p then k else 0)
    ensures Spends(w, Rep(total / p, round) + last, Share(total, p, pe) * k)
  {
    RoundsAndLast(w, total / p, pe < total % p, round, last, k);
  }

  /** What is brought is used up. */
  lemma {:induction false} Settled(w: Op -> int, a: seq<Op>, b: seq<Op>, h: int)
    requires Brings(w, a, h) && Spends(w, b, h)
    ensures Settles(w, a + b, h)
  {
    RangesSpent(w, a, b, h);
  }

  /** A last part that may leave something. */
  lemma {:induction false} SettlesThen(w: Op -> int, a: seq<Op>, b: seq<Op>, h: int)
    requires Settles(w, a, h) && Ranges(w, b, 0, h)
    ensures Ranges(w, a + b, 0, h) && Total(w, a + b) == Total(w, b)
  {
    RangesConcat(w, a, b, 0, h);
  }

  /** The operations never use more than they have brought. */
  ghost predicate Covered(w: Op -> int, ops: seq<Op>) {
    exists h :: Ranges(w, ops, 0, h)
  }

  lemma {:induction false} CoveredBoth(w: Op -> int, a: seq<Op>, b: seq<Op>)
    requires Covered(w, a) && Covered(w, b)
    ensures Covered(w, a + b)
  {
    var u :| Ranges(w, a, 0, u);
    var v :| Ranges(w, b, 0, v);
    RangesWhole(w, a, 0, u);
    RangesWhole(w, b, 0, v);
    RangesWiden(w, a, 0, u, 0, u + v);
    RangesWiden(w, b, 0, v, 0 - Total(w, a), u + v - Total(w, a));
    RangesConcat(w, a, b, 0, u + v);
  }

  lemma {:induction false} CoveredNothing(w: Op -> int, ops: seq<Op>)
    requires Ignores(w, ops)
    ensures Covered(w, ops)
  {
    RangesNothing(w, ops);
  }

  lemma {:induction false} CoveredRep(w: Op -> int, k: nat, body: seq<Op>)
    requires Covered(w, body)
    ensures Covered(w, Rep(k, body))
  {
    if k == 0 {
      CoveredNothing(w, []);
    } else {
      CoveredRep(w, k - 1, body);
      CoveredBoth(w, Rep(k - 1, body), body);
    }
  }

  lemma {:induction false} CoveredSpent(w: Op -> int, a: seq<Op>, op: Op, v: int)
    requires Brings(w, a, v) && 0 <= -w(op) <= v
    ensures Covered(w, a + [op])
  {
    RangesOne(w, op, -v, 0);
    RangesConcat(w, a, [op], 0, v);
  }

  lemma {:induction false} CoveredNeverBefore(m: Machine, ops: seq<Op>, start: Start, x: Event, y: Event)
    requires Unlike(x, y) && Covered(Weigh(x, 1, y), ops)
    ensures NeverBeforeIn(m, ops, start, x, y)
  {
    var h :| Ranges(Weigh(x, 1, y), ops, 0, h);
    TraceNeverBefore(m, ops, start, x, y, h);
  }

  // ----- parameters -----

  /** Reads and broadcasts of inputs behind the first two. */
  function ParameterOp(): Op -> bool {
    (op: Op) => (op.Read? || op.Broadcast?) && op.slot.In? && op.slot.j >= 2
  }

  /** Unicast reads of any input, and broadcasts of those. */
  function ExtraRead(): Op -> bool {
    (op: Op) => op.Read? || (op.Broadcast? && op.slot.In? && op.slot.j >= 2)
  }

  lemma {:induction false} LastAreReads(l: Layer, n: nat, i: nat)
    requires i <= |l.sizes|
    ensures All(ExtraRead(), LastInputs(l, n, i))
  {
    if i > 0 {
      LastAreReads(l, n, i - 1);
    }
  }

  lemma {:induction false} LastAreParameters(l: Layer, n: nat, i: nat)
    requires i + 2 <= |l.sizes|
    ensures All(ParameterOp(), LastInputs(l, n, i))
  {
    if i > 0 {
      LastAreParameters(l, n, i - 1);
    }
  }

  /** Events that no parameter brings about. */
  predicate NoParameter(x: Event) {
    match x
    case Fetched(slot, _) => slot.Out? || slot.j < 2
    case Cast(slot) => slot.Out? || slot.j < 2
    case Given(slot, _) => slot.Out? || slot.j < 2
    case _ => true
  }

  lemma {:induction false} ParametersIgnored(x: Event, n: nat, y: Event, ops: seq<Op>)
    requires All(ParameterOp(), ops) && NoParameter(x) && NoParameter(y)
    ensures Ignores(Weigh(x, n, y), ops)
  {
    forall i | 0 <= i < |ops| ensures Weigh(x, n, y)(ops[i]) == 0 {
      assert ParameterOp()(ops[i]);
    }
  }

  /** Events that no such read brings about. */
  predicate NoRead(x: Event) {
    x.Computed? || x.Stored? || (x.Cast? && NoParameter(x))
  }

  lemma {:induction false} ReadsIgnored(x: Event, n: nat, y: Event, ops: seq<Op>)
    requires All(ExtraRead(), ops) && NoRead(x) && NoRead(y)
    ensures Ignores(Weigh(x, n, y), ops)
  {
    forall i | 0 <= i < |ops| ensures Weigh(x, n, y)(ops[i]) == 0 {
      assert ExtraRead()(ops[i]);
    }
  }

  /** Only reads of input `j` count, and they count `n`. */
  ghost predicate OnlyReads(w: Op -> int, p: nat, j: nat, n: int) {
    forall a: nat, z: nat {:trigger w(Read(In(a), z, p))} :: w(Read(In(a), z, p)) == if a == j then n else 0
  }

  lemma {:induction false} ReadBrings(w: Op -> int, p: nat, a: nat, z: nat, j: nat, n: nat)
    requires OnlyReads(w, p, j, n)
    ensures Brings(w, [Read(In(a), z, p)], Only(a, a + 1, j, n))
  {
    BringsOne(w, Read(In(a), z, p));
  }

  /** What the inputs from `lo` up to `hi` bring if only input `j` brings anything. */
  function Only(lo: int, hi: int, j: int, n: nat): nat {
    if lo <= j < hi then n else 0
  }

  lemma {:induction false} LastInputsBring(w: Op -> int, l: Layer, p: nat, i: nat, j: nat, n: nat)
    requires i <= |l.sizes| && OnlyReads(w, p, j, n)
    ensures Brings(w, LastInputs(l, p, i), Only(|l.sizes| - i, |l.sizes|, j, n))
  {
    if i == 0 {
      BringsNothing(w, []);
    } else {
      var a := |l.sizes| - i;
      LastInputsBring(w, l, p, i - 1, j, n);
      ReadBrings(w, p, a, l.sizes[a], j, n);
      BringsBoth(w, LastInputs(l, p, i - 1), [Read(In(a), l.sizes[a], p)], Only(a + 1, |l.sizes|, j, n),
                 Only(a, a + 1, j, n));
    }
  }

  lemma {:induction false} BiasBrings(w: Op -> int, l: Layer, p: nat, j: nat, n: nat)
    requires OnlyReads(w, p, j, n)
    ensures Brings(w, Bias(l, p), if j == 2 && |l.sizes| > 2 then n else 0)
    ensures Brings(w, FusedBias(l, p), if j == 2 && |l.sizes| == 7 then n else 0)
  {
    BringsNothing(w, []);
    if |l.sizes| > 2 {
      BringsOne(w, Read(In(2), l.sizes[2], p));
    }
  }

  /** The parameters of a fused operator: its last four inputs, and the third one if there are seven. */
  predicate FusedParameter(l: Layer, j: nat) {
    |l.sizes| - 4 <= j < |l.sizes| || (|l.sizes| == 7 && j == 2)
  }

  lemma {:induction false} FusedBrings(w: Op -> int, l: Layer, p: nat, j: nat, n: nat)
    requires |l.sizes| >= 6 && FusedParameter(l, j) && OnlyReads(w, p, j, n)
    ensures Brings(w, FusedBias(l, p) + LastInputs(l, p, 4), n)
  {
    BiasBrings(w, l, p, j, n);
    LastInputsBring(w, l, p, 4, j, n);
    BringsBoth(w, FusedBias(l, p), LastInputs(l, p, 4), if j == 2 && |l.sizes| == 7 then n else 0,
               if |l.sizes| - 4 <= j < |l.sizes| then n else 0);
  }

  lemma {:induction false} OnlyReadsOf(p: nat, j: nat, n: nat, pe: nat, y: Event)
    requires pe < p && (y.Computed? || y.Stored?)
    ensures OnlyReads(Weigh(Fetched(In(j), pe), n, y), p, j, n)
  {
  }

  /** Records of one kind come last. */
  ghost predicate ComeLast(t: seq<Traffic>, kind: RequestType) {
    forall i, j :: 0 <= i < j < |t| && t[i].kind == kind ==> t[j].kind == kind
  }
}
