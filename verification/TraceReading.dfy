/** What is read off a trace: which instructions arrive in the window, what is known of each of them, and which of
    them are printed.  Everything is said in terms of the lines of the trace. */
module TraceReading {
  import opened Collections
  import opened ReorderWindow

  // ----- what is known after some lines -----

  function Current(stores: bool, events: seq<Event>, n: nat): Inst
    requires n <= |events|
  {
    if n == 0 then BLANK else Observe(stores, Current(stores, events, n - 1), events[n - 1])
  }

  /** Line `f` is the last fetch among the first `n` lines. */
  ghost predicate LastFetch(events: seq<Event>, f: nat, n: nat) {
    f < n <= |events| && events[f].Fetch? && forall i :: f < i < n ==> !events[i].Fetch?
  }

  lemma {:induction false} HasLastFetch(events: seq<Event>, n: nat) returns (f: nat)
    requires 0 < n <= |events| && events[0].Fetch?
    ensures LastFetch(events, f, n)
  {
    if events[n - 1].Fetch? {
      f := n - 1;
    } else {
      f := HasLastFetch(events, n - 1);
    }
  }

  lemma {:induction false} LastFetchBefore(events: seq<Event>, f: nat, n: nat)
    requires LastFetch(events, f, n) && f < n - 1
    ensures LastFetch(events, f, n - 1) && !events[n - 1].Fetch?
  {
  }

  /** One mark for every retirement at tick 0 among the lines from `lo` to `hi`. */
  function Marks(events: seq<Event>, lo: nat, hi: nat): string
    requires hi <= |events|
  {
    if hi <= lo then "" else
      (if events[hi - 1].Retire? && events[hi - 1].tick == 0 then "-----" else "") + Marks(events, lo, hi - 1)
  }

  /** Number, fetch tick, counters and text are those of the last fetch, the text marked once for every retirement
      that did not happen. */
  lemma {:induction false} CurrentIsFetched(stores: bool, events: seq<Event>, n: nat, f: nat)
    requires LastFetch(events, f, n)
    ensures var x, e := Current(stores, events, n), events[f];
            && x.sn == e.sn && x.fetch == e.tick && x.pc == e.pc && x.upc == e.upc
            && x.disasm == Marks(events, f + 1, n) + e.disasm
  {
    if f < n - 1 {
      LastFetchBefore(events, f, n);
      CurrentIsFetched(stores, events, n - 1, f);
      var mark := if events[n - 1].Retire? && events[n - 1].tick == 0 then "-----" else "";
      Reassociate(mark, Marks(events, f + 1, n - 1), events[f].disasm);
      assert "" + Current(stores, events, n - 1).disasm == Current(stores, events, n - 1).disasm;
    } else {
      assert "" + events[f].disasm == events[f].disasm;
    }
  }

  /** The line gives a tick to the stage. */
  predicate Dates(stores: bool, e: Event, stage: string) {
    (e.Stage? && e.name == stage) || (stores && e.Retire? && e.key == stage)
  }

  /** Line `g` is the last of the first `n` that dates the stage. */
  ghost predicate LastDate(stores: bool, events: seq<Event>, stage: string, g: nat, n: nat) {
    g < n <= |events| && Dates(stores, events[g], stage) && forall i :: g < i < n ==> !Dates(stores, events[i], stage)
  }

  /** Each stage has its last tick. */
  lemma {:induction false} CurrentIsDated(stores: bool, events: seq<Event>, n: nat, stage: string, g: nat)
    requires LastDate(stores, events, stage, g, n)
    ensures stage in Current(stores, events, n).stages
    ensures Current(stores, events, n).stages[stage] == if events[g].Stage? then events[g].tick else events[g].value
  {
    if g < n - 1 {
      assert !Dates(stores, events[n - 1], stage);
      CurrentIsDated(stores, events, n - 1, stage, g);
    }
  }

  /** And no stage is there without one. */
  lemma {:induction false} CurrentHasDate(stores: bool, events: seq<Event>, n: nat, stage: string) returns (g: nat)
    requires n <= |events| && stage in Current(stores, events, n).stages
    ensures LastDate(stores, events, stage, g, n)
  {
    if Dates(stores, events[n - 1], stage) {
      g := n - 1;
    } else {
      g := CurrentHasDate(stores, events, n - 1, stage);
    }
  }

  // ----- arrivals -----

  function Retires(): Event -> bool {
    (e: Event) => e.Retire?
  }

  /** A fetch behind the stops by more than the drift or the upper threshold. */
  predicate Beyond(c: Settings, e: Event) {
    && e.Fetch?
    && ((c.limits.tickStop > 0 && e.tick - c.limits.tickStop > c.drift)
        || (c.limits.snStop > 0 && e.sn - c.limits.snStop > c.thresholds.max))
  }

  /** The first `n` lines are read. */
  ghost predicate Reads(c: Settings, events: seq<Event>, n: nat) {
    && n <= |events|
    && (forall i :: 0 <= i < n ==> !Beyond(c, events[i]))
    && (n < |events| ==> Beyond(c, events[n]))
  }

  function Arrived(stores: bool, events: seq<Event>, n: nat): seq<Inst>
    requires n <= |events|
  {
    if n == 0 then [] else
      Arrived(stores, events, n - 1) + if events[n - 1].Retire? then [Current(stores, events, n)] else []
  }

  lemma {:induction false} ArrivedCount(stores: bool, events: seq<Event>, n: nat)
    requires n <= |events|
    ensures |Arrived(stores, events, n)| == |Keep(Retires(), events[..n])|
  {
    if n > 0 {
      ArrivedCount(stores, events, n - 1);
      TakeOneMore(events, n);
      KeepAppend(Retires(), events[..n - 1], events[n - 1]);
    }
  }

  lemma {:induction false} ArrivedGrows(stores: bool, events: seq<Event>, i: nat, n: nat)
    requires i <= n <= |events|
    ensures Arrived(stores, events, i) <= Arrived(stores, events, n)
    decreases n
  {
    if i < n {
      ArrivedGrows(stores, events, i, n - 1);
    }
  }

  lemma {:induction false} ReadLine(c: Settings, events: seq<Event>, i: nat, current: Inst)
    requires i < |events| && !Beyond(c, events[i])
    ensures var next := Observe(c.stores, current, events[i]);
            Arrivals(c, events[i..], current)
            == (if events[i].Retire? then [next] else []) + Arrivals(c, events[i + 1..], next)
  {
    assert events[i..][0] == events[i] && events[i..][1..] == events[i + 1..];
  }

  lemma {:induction false} NothingRead(c: Settings, events: seq<Event>, n: nat, current: Inst)
    requires Reads(c, events, n)
    ensures Arrivals(c, events[n..], current) == []
  {
    if n < |events| {
      assert events[n..][0] == events[n] && Beyond(c, events[n]);
    }
  }

  lemma {:induction false} ArrivalsAre(c: Settings, events: seq<Event>, n: nat, i: nat)
    requires Reads(c, events, n) && i <= n
    ensures Arrived(c.stores, events, i) + Arrivals(c, events[i..], Current(c.stores, events, i))
            == Arrived(c.stores, events, n)
    decreases n - i
  {
    var seen, current := Arrived(c.stores, events, i), Current(c.stores, events, i);
    if i < n {
      var next := Current(c.stores, events, i + 1);
      ReadLine(c, events, i, current);
      Reassociate(seen, if events[i].Retire? then [next] else [], Arrivals(c, events[i + 1..], next));
      ArrivalsAre(c, events, n, i + 1);
    } else {
      NothingRead(c, events, n, current);
      assert seen + [] == seen;
    }
  }

  lemma {:induction false} AllArrivals(c: Settings, events: seq<Event>, n: nat)
    requires Reads(c, events, n)
    ensures Arrivals(c, events, BLANK) == Arrived(c.stores, events, n)
  {
    ArrivalsAre(c, events, n, 0);
    assert events[0..] == events;
    assert [] + Arrivals(c, events, BLANK) == Arrivals(c, events, BLANK);
  }

  lemma {:induction false} ArrivedAt(stores: bool, events: seq<Event>, n: nat, i: nat)
    requires i < n <= |events| && events[i].Retire?
    ensures var arrived, k := Arrived(stores, events, n), |Keep(Retires(), events[..i])|;
            k < |arrived| && arrived[k] == Current(stores, events, i + 1)
  {
    ArrivedCount(stores, events, i);
    ArrivedGrows(stores, events, i + 1, n);
    var before := Arrived(stores, events, i);
    assert Arrived(stores, events, i + 1) == before + [Current(stores, events, i + 1)];
    assert Arrived(stores, events, i + 1)[|before|] == Current(stores, events, i + 1);
  }

  /** The instruction is the one fetched at line `f`, its text marked once for every retirement among the lines up to
      `n` that did not happen. */
  ghost predicate FetchedAt(x: Inst, events: seq<Event>, f: nat, n: nat)
    requires f < n <= |events| && events[f].Fetch?
  {
    var e := events[f];
    && x.sn == e.sn && x.fetch == e.tick && x.pc == e.pc && x.upc == e.upc
    && x.disasm == Marks(events, f + 1, n) + e.disasm
  }

  /** Its stages are those dated in the first `n` lines, each with its last tick. */
  ghost predicate DatedIn(x: Inst, stores: bool, events: seq<Event>, n: nat) {
    && (forall stage: string, g: nat {:trigger LastDate(stores, events, stage, g, n)} ::
          LastDate(stores, events, stage, g, n) ==>
            && stage in x.stages
            && x.stages[stage] == if events[g].Stage? then events[g].tick else events[g].value)
    && (forall stage: string :: stage in x.stages ==> exists g: nat :: LastDate(stores, events, stage, g, n))
  }

  lemma {:induction false} CurrentDated(stores: bool, events: seq<Event>, n: nat)
    requires n <= |events|
    ensures DatedIn(Current(stores, events, n), stores, events, n)
  {
    var x := Current(stores, events, n);
    forall stage: string, g: nat | LastDate(stores, events, stage, g, n)
      ensures stage in x.stages && x.stages[stage] == if events[g].Stage? then events[g].tick else events[g].value
    {
      CurrentIsDated(stores, events, n, stage, g);
    }
    forall stage: string | stage in x.stages ensures exists g: nat :: LastDate(stores, events, stage, g, n) {
      var g := CurrentHasDate(stores, events, n, stage);
    }
  }

  /** As many instructions arrive as are retired in the lines that are read.  The one retired at line `i` is at the
      place that says how many were retired before; it holds the tick of its retirement, what the last fetch said, and
      the last tick of every stage. */
  lemma {:induction false} ArrivalMeaning(c: Settings, events: seq<Event>, n: nat, i: nat, f: nat)
    requires Reads(c, events, n) && i < n && events[i].Retire? && LastFetch(events, f, i)
    ensures var arrivals, k := Arrivals(c, events, BLANK), |Keep(Retires(), events[..i])|;
            && |arrivals| == |Keep(Retires(), events[..n])| && k < |arrivals|
            && arrivals[k].retire == events[i].tick
            && FetchedAt(arrivals[k], events, f, i + 1) && DatedIn(arrivals[k], c.stores, events, i + 1)
  {
    AllArrivals(c, events, n);
    ArrivedCount(c.stores, events, n);
    ArrivedAt(c.stores, events, n, i);
    assert LastFetch(events, f, i + 1);
    CurrentIsFetched(c.stores, events, i + 1, f);
    CurrentDated(c.stores, events, i + 1);
  }

  // ----- the lines that are read -----

  lemma {:induction false} SomeAreRead(c: Settings, events: seq<Event>, i: nat) returns (n: nat)
    requires i <= |events| && forall j :: 0 <= j < i ==> !Beyond(c, events[j])
    ensures Reads(c, events, n)
    decreases |events| - i
  {
    if i == |events| || Beyond(c, events[i]) {
      n := i;
    } else {
      n := SomeAreRead(c, events, i + 1);
    }
  }

  /** The first line of the region of interest: the first that is no earlier than the starting tick, or the first fetch
      that is no earlier than the starting number, or simply the first. */
  predicate Begins(l: Limits, e: Event) {
    if l.tickStart != 0 then !e.Noise? && l.tickStart <= e.tick
    else if l.snStart != 0 then e.Fetch? && l.snStart <= e.sn
    else true
  }

  lemma {:induction false} StartMeaning(l: Limits, events: seq<Event>) returns (s: nat)
    ensures s <= |events| && SkipToStart(l, events) == events[s..]
    ensures (forall i :: 0 <= i < s ==> !Begins(l, events[i])) && (s < |events| ==> Begins(l, events[s]))
  {
    if events == [] || AtStart(l, events[0]) {
      s := 0;
    } else {
      var r := StartMeaning(l, events[1..]);
      s := r + 1;
      assert events[1..][r..] == events[s..];
      forall i | 0 <= i < s ensures !Begins(l, events[i]) {
        assert i > 0 ==> events[i] == events[1..][i - 1];
      }
      assert s < |events| ==> events[s] == events[1..][r];
    }
  }

  lemma {:induction false} FetchMeaning(events: seq<Event>) returns (s: nat)
    ensures s <= |events| && SkipToFetch(events) == events[s..]
    ensures (forall i :: 0 <= i < s ==> !events[i].Fetch?) && (s < |events| ==> events[s].Fetch?)
  {
    if events == [] || events[0].Fetch? {
      s := 0;
    } else {
      var r := FetchMeaning(events[1..]);
      s := r + 1;
      assert events[1..][r..] == events[s..];
      forall i | 0 <= i < s ensures !events[i].Fetch? {
        assert i > 0 ==> events[i] == events[1..][i - 1];
      }
      assert s < |events| ==> events[s] == events[1..][r];
    }
  }

  /** Reading starts with the first fetch at or after the first line of the region of interest. */
  lemma {:induction false} SkipMeaning(l: Limits, events: seq<Event>) returns (s: nat, t: nat)
    ensures s <= t <= |events| && Skip(l, events) == events[t..]
    ensures (forall i :: 0 <= i < s ==> !Begins(l, events[i])) && (s < |events| ==> Begins(l, events[s]))
    ensures (forall i :: s <= i < t ==> !events[i].Fetch?) && (t < |events| ==> events[t].Fetch?)
  {
    s := StartMeaning(l, events);
    var r := FetchMeaning(events[s..]);
    t := s + r;
    assert events[s..][r..] == events[t..];
    forall i | s <= i < t ensures !events[i].Fetch? {
      assert events[i] == events[s..][i - s];
    }
    assert t < |events| ==> events[t] == events[s..][r];
  }

  // ----- what is printed -----

  /** Not outside of any bound that is set. */
  predicate InRegion(l: Limits, x: Inst) {
    && (l.snStart <= 0 || l.snStart <= x.sn) && (l.snStop <= 0 || x.sn <= l.snStop)
    && (l.tickStart <= 0 || l.tickStart <= x.fetch) && (l.tickStop <= 0 || x.fetch <= l.tickStop)
    && (l.onlyCommitted ==> x.retire != 0)
  }

  lemma {:induction false} KeepMember<T>(p: T -> bool, s: seq<T>, x: T)
    ensures x in Keep(p, s) <==> x in s && p(x)
  {
    if s != [] {
      KeepMember(p, s[..|s| - 1], x);
      SplitLast(s);
    }
  }

  /** What is printed of a trace is exactly the arrivals in the region of interest, each as often as it arrived. */
  lemma {:induction false} PrintedExactlyWhen(c: Settings, events: seq<Event>, x: Inst)
    ensures var arrivals := Arrivals(c, Skip(c.limits, events), BLANK);
            var printed := Keep(Visible(c.limits), Output(c.thresholds, arrivals));
            && (x in printed <==> x in arrivals && InRegion(c.limits, x))
            && multiset(printed) == multiset(Keep(Visible(c.limits), arrivals))
  {
    var arrivals := Arrivals(c, Skip(c.limits, events), BLANK);
    var out := Output(c.thresholds, arrivals);
    OutputIsPermutation(c.thresholds, arrivals);
    KeepMember(Visible(c.limits), out, x);
    assert x in out <==> x in multiset(out);
    assert x in arrivals <==> x in multiset(arrivals);
    KeepPermutation(Visible(c.limits), out, arrivals);
  }
}
