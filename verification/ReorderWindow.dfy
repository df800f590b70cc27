/** The re-order window of the pipeline viewer.

Instructions arrive out of order.  They are queued until the queue exceeds one
threshold, then sorted by sequence number and printed until the queue is down to
another threshold.  The results below say exactly which arrival orders come out
sorted as a whole, across all flushes.
*/
module ReorderWindow {
  import opened Arithmetic
  import opened Collections

  /** What is known of an instruction: its number, when it was fetched and retired, its text, and the ticks of its
      other stages. */
  datatype Inst = Inst(sn: int, fetch: int, retire: int, pc: string, upc: string, disasm: string,
                       stages: map<string, int>)

  datatype Limits = Limits(snStart: int, snStop: int, tickStart: int, tickStop: int, onlyCommitted: bool)

  datatype Thresholds = Thresholds(max: nat, min: nat)

  predicate Shown(l: Limits, i: Inst) {
    && !(l.snStart > 0 && i.sn < l.snStart)
    && !(l.snStop > 0 && i.sn > l.snStop)
    && !(l.tickStart > 0 && i.fetch < l.tickStart)
    && !(l.tickStop > 0 && i.fetch > l.tickStop)
    && !(l.onlyCommitted && i.retire == 0)
  }

  function Visible(l: Limits): Inst -> bool {
    (i: Inst) => Shown(l, i)
  }

  function Numbered(sn: int): Inst -> bool {
    (i: Inst) => i.sn == sn
  }

  function Larger(sn: int): Inst -> bool {
    (i: Inst) => i.sn > sn
  }

  lemma {:induction false} KeepCount(p: Inst -> bool, s: seq<Inst>, x: Inst)
    ensures multiset(Keep(p, s))[x] == if p(x) then multiset(s)[x] else 0
  {
    if s != [] {
      KeepCount(p, s[..|s| - 1], x);
      assert s == s[..|s| - 1] + [s[|s| - 1]];
    }
  }

  lemma {:induction false} KeepPermutation(p: Inst -> bool, a: seq<Inst>, b: seq<Inst>)
    requires multiset(a) == multiset(b)
    ensures multiset(Keep(p, a)) == multiset(Keep(p, b)) && |Keep(p, a)| == |Keep(p, b)|
  {
    forall x ensures multiset(Keep(p, a))[x] == multiset(Keep(p, b))[x] {
      KeepCount(p, a, x);
      KeepCount(p, b, x);
    }
    assert multiset(Keep(p, a)) == multiset(Keep(p, b));
    assert |multiset(Keep(p, a))| == |Keep(p, a)| && |multiset(Keep(p, b))| == |Keep(p, b)|;
  }

  // ----- stable sorting -----

  ghost predicate Ordered(s: seq<Inst>) {
    forall i, j :: 0 <= i < j < |s| ==> s[i].sn <= s[j].sn
  }

  /** Puts `x` behind everything that is not larger. */
  function Insert(s: seq<Inst>, x: Inst): seq<Inst> {
    if s == [] || s[|s| - 1].sn <= x.sn then s + [x] else Insert(s[..|s| - 1], x) + [s[|s| - 1]]
  }

  /** The first `n` elements, inserted one after the other. */
  function SortFirst(s: seq<Inst>, n: nat): seq<Inst>
    requires n <= |s|
  {
    if n == 0 then [] else Insert(SortFirst(s, n - 1), s[n - 1])
  }

  function Sort(s: seq<Inst>): seq<Inst> {
    SortFirst(s, |s|)
  }

  lemma {:induction false} SortFirstPrefix(s: seq<Inst>, r: seq<Inst>, n: nat)
    requires n <= |s| && n <= |r| && s[..n] == r[..n]
    ensures SortFirst(s, n) == SortFirst(r, n)
  {
    if n > 0 {
      assert s[n - 1] == s[..n][n - 1] == r[n - 1];
      assert s[..n - 1] == s[..n][..n - 1] == r[..n - 1];
      SortFirstPrefix(s, r, n - 1);
    }
  }

  lemma {:induction false} SortAppend(s: seq<Inst>, x: Inst)
    ensures Sort(s + [x]) == Insert(Sort(s), x)
  {
    SortFirstPrefix(s + [x], s, |s|);
  }

  lemma {:induction false} InsertAdds(s: seq<Inst>, x: Inst)
    ensures multiset(Insert(s, x)) == multiset(s) + multiset{x}
  {
    if !(s == [] || s[|s| - 1].sn <= x.sn) {
      InsertAdds(s[..|s| - 1], x);
      assert s == s[..|s| - 1] + [s[|s| - 1]];
    }
  }

  ghost predicate AtMost(s: seq<Inst>, sn: int) {
    forall i :: 0 <= i < |s| ==> s[i].sn <= sn
  }

  lemma {:induction false} InsertBounded(s: seq<Inst>, x: Inst, sn: int)
    requires AtMost(s, sn) && x.sn <= sn
    ensures AtMost(Insert(s, x), sn)
  {
    if !(s == [] || s[|s| - 1].sn <= x.sn) {
      InsertBounded(s[..|s| - 1], x, sn);
    }
  }

  lemma {:induction false} InsertOrdered(s: seq<Inst>, x: Inst)
    requires Ordered(s)
    ensures Ordered(Insert(s, x))
  {
    if !(s == [] || s[|s| - 1].sn <= x.sn) {
      var m := |s| - 1;
      InsertOrdered(s[..m], x);
      InsertBounded(s[..m], x, s[m].sn);
    }
  }

  ghost function Occurrences(s: seq<Inst>, x: Inst): nat {
    multiset(s)[x]
  }

  ghost predicate Permuted(a: seq<Inst>, b: seq<Inst>) {
    forall x {:trigger Occurrences(a, x)} :: Occurrences(a, x) == Occurrences(b, x)
  }

  lemma {:induction false} PermutedIsSame(a: seq<Inst>, b: seq<Inst>)
    requires Permuted(a, b)
    ensures multiset(a) == multiset(b)
  {
    forall x ensures multiset(a)[x] == multiset(b)[x] {
      assert Occurrences(a, x) == Occurrences(b, x);
    }
  }

  lemma {:induction false} InsertPermutes(r: seq<Inst>, a: seq<Inst>, x: Inst)
    requires Permuted(r, a)
    ensures Permuted(Insert(r, x), a + [x])
  {
    PermutedIsSame(r, a);
    InsertAdds(r, x);
  }

  lemma {:induction false} SortFirstPermutes(s: seq<Inst>, n: nat)
    requires n <= |s|
    ensures Permuted(SortFirst(s, n), s[..n])
  {
    if n > 0 {
      SortFirstPermutes(s, n - 1);
      TakeOneMore(s, n);
      InsertPermutes(SortFirst(s, n - 1), s[..n - 1], s[n - 1]);
    }
  }

  lemma {:induction false} SortFirstOrdered(s: seq<Inst>, n: nat)
    requires n <= |s|
    ensures Ordered(SortFirst(s, n))
  {
    if n > 0 {
      SortFirstOrdered(s, n - 1);
      InsertOrdered(SortFirst(s, n - 1), s[n - 1]);
    }
  }

  lemma {:induction false} SortSorts(s: seq<Inst>)
    ensures multiset(Sort(s)) == multiset(s) && Ordered(Sort(s)) && |Sort(s)| == |s|
  {
    SortFirstPermutes(s, |s|);
    PermutedIsSame(SortFirst(s, |s|), s[..|s|]);
    SortFirstOrdered(s, |s|);
    assert s[..|s|] == s;
    assert |multiset(Sort(s))| == |multiset(s)|;
  }

  /** Sorting an ordered sequence changes nothing. */
  lemma {:induction false} SortOrdered(s: seq<Inst>)
    requires Ordered(s)
    ensures Sort(s) == s
  {
    if s != [] {
      var m := |s| - 1;
      assert s == s[..m] + [s[m]];
      SortOrdered(s[..m]);
      SortAppend(s[..m], s[m]);
    }
  }

  /** Instructions with the same number keep their order. */
  lemma {:induction false} SortIsStable(s: seq<Inst>, sn: int)
    ensures Keep(Numbered(sn), Sort(s)) == Keep(Numbered(sn), s)
  {
    if s != [] {
      var m := |s| - 1;
      assert s == s[..m] + [s[m]];
      SortIsStable(s[..m], sn);
      SortAppend(s[..m], s[m]);
      InsertIsStable(Sort(s[..m]), s[m], sn);
      KeepConcat(Numbered(sn), s[..m], [s[m]]);
    }
  }

  lemma {:induction false} InsertIsStable(s: seq<Inst>, x: Inst, sn: int)
    ensures Keep(Numbered(sn), Insert(s, x)) == Keep(Numbered(sn), s) + Keep(Numbered(sn), [x])
  {
    var p := Numbered(sn);
    if s == [] || s[|s| - 1].sn <= x.sn {
      KeepConcat(p, s, [x]);
    } else {
      var m := |s| - 1;
      InsertIsStable(s[..m], x, sn);
      KeepConcat(p, Insert(s[..m], x), [s[m]]);
      KeepConcat(p, s[..m], [s[m]]);
      assert s == s[..m] + [s[m]];
      SwapEmpty(Keep(p, s[..m]), Keep(p, [x]), Keep(p, [s[m]]));
    }
  }

  lemma {:induction false} SwapEmpty(a: seq<Inst>, b: seq<Inst>, c: seq<Inst>)
    requires b == [] || c == []
    ensures a + b + c == a + c + b
  {
  }

  /** Inserting behind a prefix of smaller numbers leaves the prefix alone. */
  lemma {:induction false} InsertBehind(a: seq<Inst>, b: seq<Inst>, x: Inst)
    requires forall i :: 0 <= i < |a| ==> a[i].sn <= x.sn
    ensures Insert(a + b, x) == a + Insert(b, x)
  {
    if b == [] {
      assert a + b == a;
    } else {
      var m := |b| - 1;
      assert (a + b)[..|a| + m] == a + b[..m];
      if b[m].sn > x.sn {
        InsertBehind(a, b[..m], x);
      }
    }
  }

  // ----- the window -----

  /** What has left the queue so far, and the queue. */
  datatype Window = Window(emitted: seq<Inst>, queue: seq<Inst>)

  /** Lets out of a sorted queue whatever is above `lower`. */
  function Release(emitted: seq<Inst>, s: seq<Inst>, lower: nat): Window {
    if |s| <= lower then Window(emitted, s)
    else Window(emitted + s[..|s| - lower], s[|s| - lower..])
  }

  /** Sorts the queue and drains it down to `lower`. */
  function Drain(w: Window, lower: nat): Window {
    Release(w.emitted, Sort(w.queue), lower)
  }

  function Arrive(t: Thresholds, w: Window, x: Inst): Window {
    var w' := Window(w.emitted, w.queue + [x]);
    if |w'.queue| > t.max then Drain(w', t.min) else w'
  }

  function Feed(t: Thresholds, xs: seq<Inst>): Window {
    if xs == [] then Window([], []) else Arrive(t, Feed(t, xs[..|xs| - 1]), xs[|xs| - 1])
  }

  /** Everything that leaves the queue when the trace ends after `xs`. */
  function Output(t: Thresholds, xs: seq<Inst>): seq<Inst> {
    Drain(Feed(t, xs), 0).emitted
  }

  // ----- the trace -----

  /** A line of the trace: an instruction's fetch, its retirement with the completion of a store, another stage, or
      something else. */
  datatype Event = Fetch(tick: int, pc: string, upc: string, sn: int, disasm: string)
                 | Retire(tick: int, key: string, value: int)
                 | Stage(name: string, tick: int)
                 | Noise

  /** The trace is abandoned at a fetch well behind the region of interest. */
  predicate Stops(l: Limits, t: Thresholds, drift: int, e: Event)
    requires e.Fetch?
  {
    || (l.tickStop > 0 && e.tick > l.tickStop + drift)
    || (l.snStop > 0 && e.sn > l.snStop + t.max)
  }

  function Observe(stores: bool, current: Inst, e: Event): Inst {
    match e
    case Fetch(tick, pc, upc, sn, disasm) =>
      current.(fetch := tick, pc := pc, upc := upc, sn := sn, disasm := disasm)
    case Retire(tick, key, value) =>
      current.(retire := tick, disasm := (if tick == 0 then "-----" else "") + current.disasm,
               stages := if stores then current.stages[key := value] else current.stages)
    case Stage(name, tick) => current.(stages := current.stages[name := tick])
    case Noise => current
  }

  /** What is read of a trace. */
  datatype Settings = Settings(limits: Limits, thresholds: Thresholds, drift: int, stores: bool)

  /** The instructions queued by a trace, given what is known of the current instruction. */
  function Arrivals(c: Settings, events: seq<Event>, current: Inst): seq<Inst> {
    if events == [] then [] else
      var e := events[0];
      if e.Fetch? && Stops(c.limits, c.thresholds, c.drift, e) then [] else
        var next := Observe(c.stores, current, e);
        (if e.Retire? then [next] else []) + Arrivals(c, events[1..], next)
  }

  /** The line from which on the trace is looked at. */
  predicate AtStart(l: Limits, e: Event) {
    if l.tickStart != 0 then !e.Noise? && e.tick >= l.tickStart
    else l.snStart != 0 ==> e.Fetch? && e.sn >= l.snStart
  }

  function SkipToStart(l: Limits, events: seq<Event>): seq<Event> {
    if events == [] || AtStart(l, events[0]) then events else SkipToStart(l, events[1..])
  }

  function SkipToFetch(events: seq<Event>): seq<Event> {
    if events == [] || events[0].Fetch? then events else SkipToFetch(events[1..])
  }

  function Skip(l: Limits, events: seq<Event>): seq<Event> {
    SkipToFetch(SkipToStart(l, events))
  }

  /** The window is what the arrivals `xs` make of it. */
  ghost predicate Fed(t: Thresholds, w: Window, xs: seq<Inst>) {
    forall ys {:trigger Feed(t, ys)} :: ys == xs ==> w == Feed(t, ys)
  }

  /** What has been seen and what the rest of the trace adds are all arrivals. */
  ghost predicate Ahead(c: Settings, events: seq<Event>, i: nat, current: Inst, seen: seq<Inst>, all: seq<Inst>)
    requires i <= |events|
  {
    forall rest {:trigger Arrivals(c, rest, current)} :: rest == events[i..] ==>
      seen + Arrivals(c, rest, current) == all
  }

  const BLANK: Inst := Inst(0, 0, 0, "", "", "", map[])

  // ----- the viewer -----

  class Viewer {
    const settings: Settings
    var queue: seq<Inst>
    var printed: seq<Inst>
    ghost var emitted: seq<Inst>

    ghost predicate Valid()
      reads this
    {
      printed == Keep(Visible(settings.limits), emitted)
    }

    constructor (settings: Settings)
      ensures Valid() && emitted == [] && queue == [] && printed == [] && this.settings == settings
    {
      this.settings := settings;
      queue, printed, emitted := [], [], [];
    }

    /** Prints an instruction unless it lies outside the region of interest. */
    method PrintItem(item: Inst)
      modifies this`printed
      ensures printed == old(printed) + if Shown(settings.limits, item) then [item] else []
    {
      var limits := settings.limits;
      if limits.snStart > 0 && item.sn < limits.snStart {
        return;
      }
      if limits.snStop > 0 && item.sn > limits.snStop {
        return;
      }
      if limits.tickStart > 0 && item.fetch < limits.tickStart {
        return;
      }
      if limits.tickStop > 0 && item.fetch > limits.tickStop {
        return;
      }
      if limits.onlyCommitted && item.retire == 0 {
        return;
      }
      printed := printed + [item];
    }

    method PrintInsts(lower: nat)
      requires Valid()
      modifies this
      ensures Valid()
      ensures Window(emitted, queue) == Drain(Window(old(emitted), old(queue)), lower)
    {
      queue := Sort(queue);
      ghost var s, k := queue, 0;
      while |queue| > lower
        invariant Valid() && k <= |s| && queue == s[k..] && emitted == old(emitted) + s[..k]
        invariant k == 0 || |queue| >= lower
        decreases |queue|
      {
        var item := queue[0];
        queue := queue[1..];
        PrintItem(item);
        KeepAppend(Visible(settings.limits), emitted, item);
        TakeOneMore(s, k + 1);
        Reassociate(old(emitted), s[..k], [item]);
        emitted := emitted + [item];
        k := k + 1;
      }
    }

    method QueueInst(inst: Inst)
      requires Valid()
      modifies this
      ensures Valid()
      ensures Window(emitted, queue) == Arrive(settings.thresholds, Window(old(emitted), old(queue)), inst)
    {
      queue := queue + [inst];
      if |queue| > settings.thresholds.max {
        PrintInsts(settings.thresholds.min);
      }
    }

    /** Takes one line into account, and queues the instruction that it retires. */
    method ProcessEvent(e: Event, current: Inst, ghost seen: seq<Inst>) returns (next: Inst, ghost seen': seq<Inst>)
      requires Valid() && Fed(settings.thresholds, Window(emitted, queue), seen)
      modifies this
      ensures next == Observe(settings.stores, current, e)
      ensures seen' == seen + if e.Retire? then [next] else []
      ensures Valid() && Fed(settings.thresholds, Window(emitted, queue), seen')
    {
      next, seen' := Observe(settings.stores, current, e), seen;
      if e.Retire? {
        FedNext(settings.thresholds, Window(emitted, queue), seen, next);
        seen' := seen + [next];
        QueueInst(next);
      }
    }

    /** Prints the region of interest of a trace. */
    method ProcessTrace(events: seq<Event>)
      requires Valid() && queue == [] && emitted == []
      modifies this
      ensures var arrivals := Arrivals(settings, Skip(settings.limits, events), BLANK);
              printed == Keep(Visible(settings.limits), Output(settings.thresholds, arrivals))
    {
      var i := SkipLines(events);
      var current := BLANK;
      ghost var all, seen: seq<Inst> := Arrivals(settings, events[i..], BLANK), [];
      FedNothing(settings.thresholds);
      ArrivalsStart(settings, events, i, all);
      while i < |events|
        invariant i <= |events| && Valid() && Fed(settings.thresholds, Window(emitted, queue), seen)
        invariant Ahead(settings, events, i, current, seen, all)
      {
        ArrivalsStep(settings, events, i, current, seen, all);
        if events[i].Fetch? && Stops(settings.limits, settings.thresholds, settings.drift, events[i]) {
          break;
        }
        current, seen := ProcessEvent(events[i], current, seen);
        i := i + 1;
      }
      if i == |events| {
        ArrivalsEnd(settings, events, current, seen, all);
      }
      FedMeaning(settings.thresholds, Window(emitted, queue), seen);
      PrintInsts(0);
    }

    /** Finds the first fetch of the region of interest. */
    method SkipLines(events: seq<Event>) returns (i: nat)
      ensures i <= |events| && events[i..] == Skip(settings.limits, events)
    {
      i := 0;
      while i < |events| && !AtStart(settings.limits, events[i])
        invariant i <= |events| && SkipToStart(settings.limits, events[i..]) == SkipToStart(settings.limits, events)
      {
        assert events[i..][1..] == events[i + 1..];
        i := i + 1;
      }
      while i < |events| && !events[i].Fetch?
        invariant i <= |events| && SkipToFetch(events[i..]) == Skip(settings.limits, events)
      {
        assert events[i..][1..] == events[i + 1..];
        i := i + 1;
      }
    }
  }

  lemma {:induction false} FeedAppend(t: Thresholds, xs: seq<Inst>, x: Inst)
    ensures Feed(t, xs + [x]) == Arrive(t, Feed(t, xs), x)
  {
    assert (xs + [x])[..|xs|] == xs;
  }

  lemma {:induction false} FedNothing(t: Thresholds)
    ensures Fed(t, Window([], []), [])
  {
  }

  lemma {:induction false} FedNext(t: Thresholds, w: Window, seen: seq<Inst>, x: Inst)
    requires Fed(t, w, seen)
    ensures Fed(t, Arrive(t, w, x), seen + [x])
  {
    FeedAppend(t, seen, x);
  }

  lemma {:induction false} FedMeaning(t: Thresholds, w: Window, seen: seq<Inst>)
    requires Fed(t, w, seen)
    ensures w == Feed(t, seen)
  {
  }

  lemma {:induction false} ArrivalsStart(c: Settings, events: seq<Event>, i: nat, all: seq<Inst>)
    requires i <= |events| && all == Arrivals(c, events[i..], BLANK)
    ensures Ahead(c, events, i, BLANK, [], all)
  {
    assert [] + all == all;
  }

  lemma {:induction false} ArrivalsStep(c: Settings, events: seq<Event>, i: nat, current: Inst,
                                        seen: seq<Inst>, all: seq<Inst>)
    requires i < |events| && Ahead(c, events, i, current, seen, all)
    ensures var e, next := events[i], Observe(c.stores, current, events[i]);
            if e.Fetch? && Stops(c.limits, c.thresholds, c.drift, e) then seen == all
            else Ahead(c, events, i + 1, next, seen + if e.Retire? then [next] else [], all)
  {
    var e, next := events[i], Observe(c.stores, current, events[i]);
    assert events[i..][0] == e && events[i..][1..] == events[i + 1..];
    assert seen + Arrivals(c, events[i..], current) == all;
    Reassociate(seen, if e.Retire? then [next] else [], Arrivals(c, events[i + 1..], next));
  }

  lemma {:induction false} ArrivalsEnd(c: Settings, events: seq<Event>, current: Inst, seen: seq<Inst>, all: seq<Inst>)
    requires Ahead(c, events, |events|, current, seen, all)
    ensures seen == all
  {
    assert events[|events|..] == [];
    assert seen + Arrivals(c, events[|events|..], current) == all;
  }

  // ----- nothing of interest is skipped -----

  /** The instructions retired in a stretch of the trace. */
  function Retired(stores: bool, events: seq<Event>, current: Inst): seq<Inst> {
    if events == [] then [] else
      var next := Observe(stores, current, events[0]);
      (if events[0].Retire? then [next] else []) + Retired(stores, events[1..], next)
  }

  /** Nothing is known of an instruction before it is fetched. */
  predicate StartsWithFetch(events: seq<Event>) {
    events == [] || events[0].Fetch? || (events[0].Noise? && StartsWithFetch(events[1..]))
  }

  /** Fetched before the region of interest starts. */
  predicate Early(l: Limits, tick: int, sn: int) {
    if l.tickStart != 0 then tick < l.tickStart else l.snStart != 0 && sn < l.snStart
  }

  ghost predicate AllEarly(l: Limits, events: seq<Event>) {
    forall e :: e in events && e.Fetch? ==> Early(l, e.tick, e.sn)
  }

  lemma {:induction false} RetiredEarly(l: Limits, stores: bool, events: seq<Event>, current: Inst, x: Inst)
    requires AllEarly(l, events) && (Early(l, current.fetch, current.sn) || StartsWithFetch(events))
    requires x in Retired(stores, events, current)
    ensures Early(l, x.fetch, x.sn)
  {
    var e, next := events[0], Observe(stores, current, events[0]);
    assert e in events;
    if !(e.Retire? && x == next) {
      assert x in Retired(stores, events[1..], next);
      RetiredEarly(l, stores, events[1..], next, x);
    }
  }

  lemma {:induction false} SkippedToStart(l: Limits, events: seq<Event>) returns (i: nat)
    ensures i <= |events| && events[i..] == SkipToStart(l, events) && AllEarly(l, events[..i])
    ensures l.tickStart == 0 && l.snStart == 0 ==> i == 0
  {
    if events == [] || AtStart(l, events[0]) {
      i := 0;
    } else {
      var j := SkippedToStart(l, events[1..]);
      i := j + 1;
      assert events[1..][j..] == events[i..] && events[..i] == [events[0]] + events[1..][..j];
    }
  }

  lemma {:induction false} SkippedToFetch(events: seq<Event>) returns (i: nat)
    ensures i <= |events| && events[i..] == SkipToFetch(events)
    ensures forall e :: e in events[..i] ==> !e.Fetch?
  {
    if events == [] || events[0].Fetch? {
      i := 0;
    } else {
      var j := SkippedToFetch(events[1..]);
      i := j + 1;
      assert events[1..][j..] == events[i..] && events[..i] == [events[0]] + events[1..][..j];
    }
  }

  lemma {:induction false} StartsPrefix(events: seq<Event>, i: nat)
    requires StartsWithFetch(events) && i <= |events|
    ensures StartsWithFetch(events[..i])
  {
    if i > 0 && !events[0].Fetch? {
      StartsPrefix(events[1..], i - 1);
      assert events[..i][1..] == events[1..][..i - 1];
    }
  }

  lemma {:induction false} NoiseRetiresNothing(stores: bool, events: seq<Event>, current: Inst)
    requires StartsWithFetch(events) && forall e :: e in events ==> !e.Fetch?
    ensures Retired(stores, events, current) == []
  {
    if events != [] {
      assert events[0] in events;
      NoiseRetiresNothing(stores, events[1..], current);
    }
  }

  /** Every instruction whose retirement is skipped lies outside the region of interest. */
  lemma {:induction false} SkippedIsNotShown(l: Limits, stores: bool, events: seq<Event>)
    requires l.tickStart >= 0 && l.snStart >= 0 && StartsWithFetch(events)
    ensures |Skip(l, events)| <= |events|
    ensures forall x :: x in Retired(stores, events[..|events| - |Skip(l, events)|], BLANK) ==> !Shown(l, x)
  {
    var i := SkippedToStart(l, events);
    var j := SkippedToFetch(events[i..]);
    var skipped := events[..i + j];
    assert skipped == events[..i] + events[i..][..j] && events[i..][j..] == events[i + j..];
    StartsPrefix(events, i + j);
    if l.tickStart == 0 && l.snStart == 0 {
      NoiseRetiresNothing(stores, skipped, BLANK);
    } else {
      forall x | x in Retired(stores, skipped, BLANK) ensures !Shown(l, x) {
        RetiredEarly(l, stores, skipped, BLANK, x);
      }
    }
  }

  // ----- nothing is lost -----

  lemma {:induction false} FeedKeepsAll(t: Thresholds, xs: seq<Inst>)
    ensures multiset(Feed(t, xs).emitted) + multiset(Feed(t, xs).queue) == multiset(xs)
  {
    if xs != [] {
      var m := |xs| - 1;
      FeedKeepsAll(t, xs[..m]);
      assert xs == xs[..m] + [xs[m]];
      var w := Feed(t, xs[..m]);
      DrainKeepsAll(Window(w.emitted, w.queue + [xs[m]]), t.min);
    }
  }

  lemma {:induction false} DrainKeepsAll(w: Window, lower: nat)
    ensures multiset(Drain(w, lower).emitted) + multiset(Drain(w, lower).queue)
            == multiset(w.emitted) + multiset(w.queue)
  {
    SortSorts(w.queue);
    ReleaseKeepsAll(w.emitted, w.queue, Sort(w.queue), lower);
  }

  lemma {:induction false} ReleaseKeepsAll(e: seq<Inst>, q: seq<Inst>, s: seq<Inst>, lower: nat)
    requires multiset(s) == multiset(q)
    ensures multiset(Release(e, s, lower).emitted) + multiset(Release(e, s, lower).queue)
            == multiset(e) + multiset(q)
  {
    if |s| > lower {
      MovedOver(e, q, s, |s| - lower);
    }
  }

  lemma {:induction false} MovedOver(e: seq<Inst>, q: seq<Inst>, s: seq<Inst>, k: nat)
    requires k <= |s| && multiset(s) == multiset(q)
    ensures multiset(e + s[..k]) + multiset(s[k..]) == multiset(e) + multiset(q)
  {
    assert s == s[..k] + s[k..];
  }

  /** Every arrival leaves the queue exactly once, whatever the order of arrival. */
  lemma {:induction false} OutputIsPermutation(t: Thresholds, xs: seq<Inst>)
    ensures multiset(Output(t, xs)) == multiset(xs)
  {
    FeedKeepsAll(t, xs);
    DrainKeepsAll(Feed(t, xs), 0);
    SortSorts(Feed(t, xs).queue);
  }

  // ----- when flushes happen -----

  function Capacity(t: Thresholds): nat {
    if t.max < t.min then t.min else t.max
  }

  /** How many instructions had arrived at the last flush that printed anything, once `n` have arrived. */
  function LastFlush(t: Thresholds, n: nat): nat {
    var cap := Capacity(t);
    if n <= cap then 0 else n - (n - cap - 1) % (cap + 1 - t.min)
  }

  /** `next` is the last flush after the arrival that follows `n` arrivals with last flush `f`. */
  ghost predicate NextFlush(t: Thresholds, n: nat, f: nat, next: nat) {
    && f <= n && (f == 0 || f > Capacity(t))
    && next == if n >= Capacity(t) && (f == 0 || n + 1 - (f - t.min) > Capacity(t)) then n + 1 else f
  }

  lemma {:induction false} FlushStep(t: Thresholds, n: nat)
    ensures NextFlush(t, n, LastFlush(t, n), LastFlush(t, n + 1))
  {
    var cap := Capacity(t);
    var p := cap + 1 - t.min;
    if n == cap {
      DivisionUnique(0, p, 0, 0);
    } else if n > cap {
      var a := n - cap - 1;
      RemainderBound(a, p);
      NextRemainder(a, p);
      assert n + 1 - cap - 1 == a + 1;
    }
  }

  /** How many instructions are in the queue, for every order of arrival. */
  lemma {:induction false} QueueLength(t: Thresholds, xs: seq<Inst>)
    ensures var f := LastFlush(t, |xs|);
            && |Feed(t, xs).queue| == (if f == 0 then |xs| else |xs| - (f - t.min))
            && |Feed(t, xs).emitted| == (if f == 0 then 0 else f - t.min)
  {
    if xs != [] {
      var m := |xs| - 1;
      QueueLength(t, xs[..m]);
      FlushStep(t, m);
      ArrivalLength(t, Feed(t, xs[..m]), xs[m]);
    }
  }

  lemma {:induction false} ArrivalLength(t: Thresholds, w: Window, x: Inst)
    ensures var n := |w.queue| + 1;
            && |Arrive(t, w, x).queue| == (if n > t.max && n > t.min then t.min else n)
            && |Arrive(t, w, x).emitted| + |Arrive(t, w, x).queue| == |w.emitted| + n
  {
    SortSorts(w.queue + [x]);
  }

  // ----- exactly which arrivals come out sorted -----

  function CountLarger(s: seq<Inst>, sn: int): nat {
    |Keep(Larger(sn), s)|
  }

  /** When instruction `i` arrives, no more than `min` of the instructions seen at the last flush are larger. */
  ghost predicate InTime(t: Thresholds, xs: seq<Inst>, i: nat)
    requires i < |xs|
  {
    FlushStep(t, i);
    CountLarger(xs[..LastFlush(t, i)], xs[i].sn) <= t.min
  }

  ghost predicate AllInTime(t: Thresholds, xs: seq<Inst>) {
    forall i :: 0 <= i < |xs| ==> InTime(t, xs, i)
  }

  /** The stated assumption: no instruction is overtaken by more than `min` larger ones. */
  ghost predicate BoundedDisorder(t: Thresholds, xs: seq<Inst>) {
    forall i :: 0 <= i < |xs| ==> CountLarger(xs[..i], xs[i].sn) <= t.min
  }

  /** In an ordered sequence the larger ones are at the end. */
  lemma {:induction false} OrderedCount(s: seq<Inst>, sn: int, k: nat)
    requires Ordered(s) && k <= |s|
    ensures AtMost(s[..|s| - k], sn) <==> CountLarger(s, sn) <= k
  {
    if s != [] && k > 0 {
      var m := |s| - 1;
      assert s[..m][..m - (k - 1)] == s[..|s| - k];
      OrderedCount(s[..m], sn, k - 1);
      if s[m].sn <= sn {
        AllAtMost(s, sn);
        AllAtMost(s[..m], sn);
      }
    } else if s != [] {
      assert s[..|s|] == s;
      AllAtMost(s, sn);
    }
  }

  lemma {:induction false} AllAtMost(s: seq<Inst>, sn: int)
    ensures CountLarger(s, sn) == 0 <==> AtMost(s, sn)
  {
    if s != [] {
      AllAtMost(s[..|s| - 1], sn);
    }
  }

  /** What a flush after `f` arrivals lets out in total, if they are cut as one sorted sequence. */
  ghost function CutAt(t: Thresholds, xs: seq<Inst>, f: nat): seq<Inst>
    requires f <= |xs|
  {
    SortSorts(xs[..f]);
    if f <= t.min then [] else Sort(xs[..f])[..f - t.min]
  }

  ghost function Cut(t: Thresholds, xs: seq<Inst>): seq<Inst> {
    FlushStep(t, |xs|);
    CutAt(t, xs, LastFlush(t, |xs|))
  }

  lemma {:induction false} CutMeaning(p: seq<Inst>, s: seq<Inst>, sn: int, k: nat)
    requires multiset(s) == multiset(p) && Ordered(s) && k <= |s|
    ensures AtMost(s[..|s| - k], sn) <==> CountLarger(p, sn) <= k
  {
    KeepPermutation(Larger(sn), p, s);
    OrderedCount(s, sn, k);
  }

  lemma {:induction false} KeepShorter(p: Inst -> bool, s: seq<Inst>)
    ensures |Keep(p, s)| <= |s|
  {
    if s != [] {
      KeepShorter(p, s[..|s| - 1]);
    }
  }

  lemma {:induction false} CutAtMeaning(t: Thresholds, xs: seq<Inst>, f: nat, sn: int)
    requires f <= |xs|
    ensures CountLarger(xs[..f], sn) <= t.min <==> AtMost(CutAt(t, xs, f), sn)
  {
    SortSorts(xs[..f]);
    if f > t.min {
      CutMeaning(xs[..f], Sort(xs[..f]), sn, t.min);
    } else {
      KeepShorter(Larger(sn), xs[..f]);
    }
  }

  /** An instruction is in time exactly if nothing larger has been let out. */
  lemma {:induction false} InTimeMeaning(t: Thresholds, xs: seq<Inst>, x: Inst)
    ensures InTime(t, xs + [x], |xs|) <==> AtMost(Cut(t, xs), x.sn)
  {
    FlushStep(t, |xs|);
    var f := LastFlush(t, |xs|);
    assert (xs + [x])[..f] == xs[..f];
    CutAtMeaning(t, xs, f, x.sn);
  }

  lemma {:induction false} AllInTimePrefix(t: Thresholds, xs: seq<Inst>, n: nat)
    requires AllInTime(t, xs) && n <= |xs|
    ensures AllInTime(t, xs[..n])
  {
    forall i | 0 <= i < n ensures InTime(t, xs[..n], i) {
      FlushStep(t, i);
      assert InTime(t, xs, i);
      assert xs[..n][..LastFlush(t, i)] == xs[..LastFlush(t, i)];
    }
  }

  /** As long as everything arrives in time, the window holds the sorted arrivals, cut where the last flush cut. */
  lemma {:induction false} WindowSorted(t: Thresholds, xs: seq<Inst>)
    requires AllInTime(t, xs)
    ensures Feed(t, xs).emitted == Cut(t, xs)
    ensures Feed(t, xs).emitted + Sort(Feed(t, xs).queue) == Sort(xs)
  {
    if xs != [] {
      var m := |xs| - 1;
      var ys, x := xs[..m], xs[m];
      AllInTimePrefix(t, xs, m);
      WindowSorted(t, ys);
      assert xs == ys + [x];
      InTimeMeaning(t, ys, x);
      assert InTime(t, xs, m);
      FlushStep(t, m);
      ArriveSorted(t, ys, x, Feed(t, ys), LastFlush(t, m), LastFlush(t, m + 1));
    }
  }

  lemma {:induction false} ArriveSorted(t: Thresholds, ys: seq<Inst>, x: Inst, w: Window, f: nat, next: nat)
    requires NextFlush(t, |ys|, f, next)
    requires w.emitted == CutAt(t, ys, f) && w.emitted + Sort(w.queue) == Sort(ys) && AtMost(w.emitted, x.sn)
    ensures Arrive(t, w, x).emitted == CutAt(t, ys + [x], next)
    ensures Arrive(t, w, x).emitted + Sort(Arrive(t, w, x).queue) == Sort(ys + [x])
  {
    var xs, q := ys + [x], w.queue + [x];
    SortAppend(ys, x);
    SortAppend(w.queue, x);
    InsertBehind(w.emitted, Sort(w.queue), x);
    DrainSorted(Window(w.emitted, q), t.min);
    ArriveLength(t, ys, w, f);
    ArriveCut(t, ys, x, w, f, next);
  }

  lemma {:induction false} ReleaseMeaning(e: seq<Inst>, s: seq<Inst>, lower: nat)
    ensures Release(e, s, lower).emitted + Release(e, s, lower).queue == e + s
    ensures Release(e, s, lower).emitted == if |s| <= lower then e else (e + s)[..|e| + |s| - lower]
    ensures Ordered(s) ==> Ordered(Release(e, s, lower).queue)
  {
  }

  lemma {:induction false} DrainSorted(w: Window, lower: nat)
    ensures Drain(w, lower).emitted + Sort(Drain(w, lower).queue) == w.emitted + Sort(w.queue)
  {
    var s := Sort(w.queue);
    SortSorts(w.queue);
    ReleaseMeaning(w.emitted, s, lower);
    SortOrdered(Release(w.emitted, s, lower).queue);
  }

  /** The queue's length follows from the number of arrivals. */
  lemma {:induction false} ArriveLength(t: Thresholds, ys: seq<Inst>, w: Window, f: nat)
    requires f <= |ys| && (f == 0 || f > Capacity(t))
    requires w.emitted == CutAt(t, ys, f) && w.emitted + Sort(w.queue) == Sort(ys)
    ensures |w.queue| == if f == 0 then |ys| else |ys| - (f - t.min)
  {
    SortSorts(ys);
    SortSorts(w.queue);
    SortSorts(ys[..f]);
    assert |w.emitted| + |Sort(w.queue)| == |Sort(ys)|;
  }

  lemma {:induction false} ArriveCut(t: Thresholds, ys: seq<Inst>, x: Inst, w: Window, f: nat, next: nat)
    requires NextFlush(t, |ys|, f, next)
    requires w.emitted == CutAt(t, ys, f) && w.emitted + Sort(w.queue + [x]) == Sort(ys + [x])
    requires |w.queue| == if f == 0 then |ys| else |ys| - (f - t.min)
    ensures Arrive(t, w, x).emitted == CutAt(t, ys + [x], next)
  {
    var xs := ys + [x];
    if next == |xs| {
      ArriveFlushes(t, w, x, Sort(xs));
      CutAtAll(t, xs);
    } else {
      ArriveWaits(t, w, x);
      assert xs[..f] == ys[..f];
    }
  }

  lemma {:induction false} ArriveFlushes(t: Thresholds, w: Window, x: Inst, all: seq<Inst>)
    requires |w.queue| + 1 > t.max && |w.queue| + 1 > t.min && w.emitted + Sort(w.queue + [x]) == all
    ensures |all| > t.min && Arrive(t, w, x).emitted == all[..|all| - t.min]
  {
    SortSorts(w.queue + [x]);
    ReleaseMeaning(w.emitted, Sort(w.queue + [x]), t.min);
  }

  lemma {:induction false} ArriveWaits(t: Thresholds, w: Window, x: Inst)
    requires |w.queue| + 1 <= t.max || |w.queue| + 1 <= t.min
    ensures Arrive(t, w, x).emitted == w.emitted
  {
    SortSorts(w.queue + [x]);
  }

  lemma {:induction false} CutAtAll(t: Thresholds, xs: seq<Inst>)
    requires |xs| > t.min
    ensures |Sort(xs)| == |xs| && CutAt(t, xs, |xs|) == Sort(xs)[..|Sort(xs)| - t.min]
  {
    SortSorts(xs);
    assert xs[..|xs|] == xs;
  }

  /** If every instruction is in time, the whole output is the stable sort of the arrivals. */
  lemma {:induction false} InTimeGivesSort(t: Thresholds, xs: seq<Inst>)
    requires AllInTime(t, xs)
    ensures Output(t, xs) == Sort(xs)
  {
    WindowSorted(t, xs);
    assert Sort(Feed(t, xs).queue)[..|Sort(Feed(t, xs).queue)|] == Sort(Feed(t, xs).queue);
  }

  // ----- what is late shows -----

  lemma {:induction false} EmittedStays(t: Thresholds, xs: seq<Inst>, n: nat)
    requires n <= |xs|
    ensures Feed(t, xs[..n]).emitted <= Feed(t, xs).emitted
    decreases |xs| - n
  {
    if n < |xs| {
      EmittedStays(t, xs, n + 1);
      assert xs[..n + 1][..n] == xs[..n];
    } else {
      assert xs[..n] == xs;
    }
  }

  /** What arrives at position `n` comes out behind everything let out before. */
  lemma {:induction false} ComesOutLater(t: Thresholds, xs: seq<Inst>, n: nat) returns (j: nat)
    requires n < |xs|
    ensures Feed(t, xs[..n]).emitted <= Output(t, xs)
    ensures |Feed(t, xs[..n]).emitted| <= j < |Output(t, xs)| && Output(t, xs)[j] == xs[n]
  {
    EmittedStays(t, xs, n);
    OutputIsPermutation(t, xs);
    FeedKeepsAll(t, xs[..n]);
    j := FoundLater(xs, n, Feed(t, xs[..n]).emitted, Feed(t, xs[..n]).queue, Output(t, xs));
  }

  lemma {:induction false} FoundLater(xs: seq<Inst>, n: nat, e: seq<Inst>, q: seq<Inst>, out: seq<Inst>)
    returns (j: nat)
    requires n < |xs| && e <= out && multiset(out) == multiset(xs)
    requires multiset(e) + multiset(q) == multiset(xs[..n])
    ensures |e| <= j < |out| && out[j] == xs[n]
  {
    var tail := out[|e|..];
    assert out == e + tail && multiset(out) == multiset(e) + multiset(tail);
    assert xs == xs[..n] + xs[n..] && multiset(xs) == multiset(xs[..n]) + multiset(xs[n..]);
    assert xs[n..][0] == xs[n];
    assert multiset(out)[xs[n]] == multiset(xs)[xs[n]];
    assert xs[n] in multiset(tail);
    var i :| 0 <= i < |tail| && tail[i] == xs[n];
    j := |e| + i;
  }

  lemma {:induction false} LateShows(t: Thresholds, xs: seq<Inst>, n: nat)
    requires n < |xs| && AllInTime(t, xs[..n]) && !InTime(t, xs, n)
    ensures !Ordered(Output(t, xs))
  {
    var ys := xs[..n];
    var e := Feed(t, ys).emitted;
    WindowSorted(t, ys);
    InTimeMeaning(t, ys, xs[n]);
    FlushStep(t, n);
    assert (ys + [xs[n]])[..LastFlush(t, n)] == xs[..LastFlush(t, n)];
    var i :| 0 <= i < |e| && e[i].sn > xs[n].sn;
    var j := ComesOutLater(t, xs, n);
    assert Output(t, xs)[i] == e[i];
  }

  lemma {:induction false} FirstLate(t: Thresholds, xs: seq<Inst>) returns (n: nat)
    requires !AllInTime(t, xs)
    ensures n < |xs| && AllInTime(t, xs[..n]) && !InTime(t, xs, n)
  {
    var m := |xs| - 1;
    if AllInTime(t, xs[..m]) {
      n := m;
      forall i | 0 <= i < m ensures InTime(t, xs, i) {
        FlushStep(t, i);
        assert InTime(t, xs[..m], i);
        assert xs[..m][..LastFlush(t, i)] == xs[..LastFlush(t, i)];
      }
    } else {
      n := FirstLate(t, xs[..m]);
      FlushStep(t, n);
      assert xs[..m][..n] == xs[..n] && xs[..m][..LastFlush(t, n)] == xs[..LastFlush(t, n)];
    }
  }

  /** The output comes out sorted if and only if every instruction is in time; it is then the stable sort of
      the arrivals. */
  lemma {:induction false} SortedExactlyWhenInTime(t: Thresholds, xs: seq<Inst>)
    ensures Ordered(Output(t, xs)) <==> AllInTime(t, xs)
    ensures AllInTime(t, xs) ==> Output(t, xs) == Sort(xs)
  {
    if AllInTime(t, xs) {
      InTimeGivesSort(t, xs);
      SortSorts(xs);
    } else {
      var n := FirstLate(t, xs);
      LateShows(t, xs, n);
    }
  }

  /** The documented assumption is enough: under it, what is printed over all flushes is the stable sort of
      the arrivals, restricted to the region of interest. */
  lemma {:induction false} BoundedDisorderSuffices(t: Thresholds, l: Limits, xs: seq<Inst>)
    requires BoundedDisorder(t, xs)
    ensures Output(t, xs) == Sort(xs) && Ordered(Output(t, xs))
    ensures Ordered(Keep(Visible(l), Output(t, xs)))
    ensures multiset(Keep(Visible(l), Output(t, xs))) == multiset(Keep(Visible(l), xs))
  {
    BoundedIsInTime(t, xs);
    SortedExactlyWhenInTime(t, xs);
    SortSorts(xs);
    KeepOrdered(Visible(l), Sort(xs));
    KeepPermutation(Visible(l), Sort(xs), xs);
  }

  lemma {:induction false} BoundedIsInTime(t: Thresholds, xs: seq<Inst>)
    requires BoundedDisorder(t, xs)
    ensures AllInTime(t, xs)
  {
    forall i | 0 <= i < |xs| ensures InTime(t, xs, i) {
      FlushStep(t, i);
      var f := LastFlush(t, i);
      assert xs[..i] == xs[..f] + xs[f..i];
      KeepConcat(Larger(xs[i].sn), xs[..f], xs[f..i]);
    }
  }

  lemma {:induction false} KeepOrdered(p: Inst -> bool, s: seq<Inst>)
    requires Ordered(s)
    ensures Ordered(Keep(p, s)) && forall i :: 0 <= i < |Keep(p, s)| ==> Keep(p, s)[i] in s
  {
    if s != [] {
      KeepOrdered(p, s[..|s| - 1]);
    }
  }
}
