/** Migration of old checkpoints.

Each upgrader or downgrader owns one tag and names the tags it depends on.  A
checkpoint is brought up to date in rounds: in each round everything whose
dependencies are present is applied, in whatever order the set of ready tags is
enumerated, and the migration gives up when nothing is ready.
*/
module CheckpointMigration {
  import opened Collections

  type Tag = string

  datatype Upgrader = Upgrader(upgrades: bool, depends: seq<Tag>, fwdDepends: seq<Tag>)

  type Table = map<Tag, Upgrader>

  datatype Outcome = Completed(tags: set<Tag>) | Aborted(tags: set<Tag>, stuck: set<Tag>)

  function TagSet(byTag: Table): set<Tag> {
    set t | t in byTag && byTag[t].upgrades
  }

  function UntagSet(byTag: Table): set<Tag> {
    set t | t in byTag && !byTag[t].upgrades
  }

  /** Every dependency names a known tag. */
  ghost predicate Audited(byTag: Table) {
    forall t :: t in byTag ==> forall d :: d in byTag[t].depends ==> d in byTag
  }

  // ----- one migration, without any enumeration order -----

  predicate Ready(byTag: Table, t: Tag, tags: set<Tag>)
    requires t in byTag
  {
    forall d :: d in byTag[t].depends ==> d in tags
  }

  function ReadySet(byTag: Table, tags: set<Tag>, todo: set<Tag>): set<Tag>
    requires todo <= byTag.Keys
  {
    set t | t in todo && Ready(byTag, t, tags)
  }

  /** The tags of the checkpoint once everything in `ready` has been applied. */
  function Apply(byTag: Table, tags: set<Tag>, ready: set<Tag>): set<Tag> {
    (tags + ready * TagSet(byTag)) - ready * UntagSet(byTag)
  }

  function ToApply(byTag: Table, tags: set<Tag>): (todo: set<Tag>)
    ensures todo <= byTag.Keys
  {
    (TagSet(byTag) - tags) + UntagSet(byTag) * tags
  }

  function Run(byTag: Table, tags: set<Tag>, todo: set<Tag>): Outcome
    requires todo <= byTag.Keys
    decreases |todo|
  {
    if todo == {} then Completed(tags) else
      var ready := ReadySet(byTag, tags, todo);
      if ready == {} then Aborted(tags, todo) else
        RemoveShrinks(todo, ready);
        Run(byTag, Apply(byTag, tags, ready), todo - ready)
  }

  /** `applied` applies each round's ready tags, once each and in some order, round after round. */
  ghost predicate Linearization(byTag: Table, tags: set<Tag>, todo: set<Tag>, applied: seq<Tag>)
    requires todo <= byTag.Keys
    decreases |todo|
  {
    var ready := ReadySet(byTag, tags, todo);
    if ready == {} then applied == [] else
      && |ready| <= |applied|
      && NoDuplicates(applied[..|ready|]) && SetOf(applied[..|ready|]) == ready
      && (RemoveShrinks(todo, ready);
          Linearization(byTag, Apply(byTag, tags, ready), todo - ready, applied[|ready|..]))
  }

  // ----- the table of upgraders, and the migration as it is carried out -----

  class UpgraderTable {
    var tagSet: set<Tag>
    var untagSet: set<Tag>
    var byTag: Table
    var loaded: seq<Tag>

    ghost predicate Valid()
      reads this
    {
      && tagSet == TagSet(byTag) && untagSet == UntagSet(byTag)
      && NoDuplicates(loaded) && SetOf(loaded) == byTag.Keys
    }

    constructor ()
      ensures Valid() && byTag == map[] && loaded == []
    {
      tagSet, untagSet, byTag, loaded := {}, {}, map[], [];
    }

    /** A tag can only be used once; a second upgrader of the same kind replaces the first in its place. */
    method Register(tag: Tag, upgrader: Upgrader)
      requires Valid() && (tag in byTag ==> byTag[tag].upgrades == upgrader.upgrades)
      modifies this
      ensures Valid() && byTag == old(byTag)[tag := upgrader]
      ensures loaded == if tag in old(byTag) then old(loaded) else old(loaded) + [tag]
    {
      if upgrader.upgrades {
        tagSet := tagSet + {tag};
      } else {
        untagSet := untagSet + {tag};
      }
      if tag !in byTag {
        assert forall t :: t in loaded ==> t in SetOf(loaded);
        AppendNew(loaded, tag);
        loaded := loaded + [tag];
      }
      byTag := byTag[tag := upgrader];
    }

    /** Makes every forward dependency of `tag` depend on `tag`. */
    method Forward(tag: Tag, ghost start: Table, ghost order: seq<Tag>) returns (ok: bool)
      requires SetOf(order) <= start.Keys && tag in start && byTag == Resolved(start, order)
      modifies this`byTag
      ensures ok <==> ForwardKnown(start, tag)
      ensures ok ==> byTag == Resolved(start, order + [tag])
    {
      var forward := byTag[tag].fwdDepends;
      ResolvedPartNothing(start, order, tag);
      for j := 0 to |forward|
        invariant byTag == ResolvedPart(start, order, tag, forward[..j])
        invariant forall k :: 0 <= k < j ==> forward[k] in start
      {
        var fd := forward[j];
        if fd !in byTag {
          return false;
        }
        ResolvedPartNext(start, order, tag, forward, j);
        byTag := byTag[fd := byTag[fd].(depends := byTag[fd].depends + [tag])];
      }
      assert forward[..|forward|] == forward;
      ResolvedPartWhole(start, order, tag);
      return true;
    }

    /** Checks that `tag` depends on known tags only. */
    method Audit(tag: Tag, ghost start: Table, ghost order: seq<Tag>) returns (ok: bool)
      requires SetOf(order) <= start.Keys && tag in start && byTag == Resolved(start, order)
      ensures ok <==> DependsKnown(start, tag)
    {
      var depends := byTag[tag].depends;
      for j := 0 to |depends|
        invariant forall k :: 0 <= k < j ==> depends[k] in start
      {
        if depends[j] !in byTag {
          ForwardersMeaning(start, order, tag, depends[j]);
          assert depends[j] in start[tag].depends;
          return false;
        }
      }
      assert start[tag].depends <= depends;
      assert forall d :: d in start[tag].depends ==> d in depends;
      return true;
    }

    /** Resolves and audits one tag, those of `order` being resolved already. */
    method ResolveOne(tag: Tag, ghost start: Table, ghost order: seq<Tag>) returns (ok: bool)
      requires SetOf(order) <= start.Keys && tag in start && byTag == Resolved(start, order)
      modifies this`byTag
      ensures ok <==> ForwardKnown(start, tag) && DependsKnown(start, tag)
      ensures SetOf(order + [tag]) <= start.Keys && (ok ==> byTag == Resolved(start, order + [tag]))
    {
      AppendNew(order, tag);
      ok := Forward(tag, start, order);
      if ok {
        ok := Audit(tag, start, order + [tag]);
      }
    }

    /** Turns forward dependencies around and audits all dependencies. */
    method ResolveDependencies() returns (ok: bool)
      requires Valid()
      modifies this`byTag
      ensures ok <==> Audited(old(byTag)) && ForwardAudited(old(byTag))
      ensures ok ==> Valid() && byTag == Resolved(old(byTag), loaded)
    {
      ghost var start := byTag;
      ResolvedNothing(start);
      for i := 0 to |loaded|
        invariant SetOf(loaded[..i]) <= start.Keys && byTag == Resolved(start, loaded[..i])
        invariant AllKnown(start, loaded[..i])
      {
        LoadedTag(start, loaded, i);
        var known := ResolveOne(loaded[i], start, loaded[..i]);
        if !known {
          return false;
        }
        AllKnownMore(start, loaded[..i], loaded[i]);
      }
      assert loaded[..|loaded|] == loaded;
      AllAudited(start, loaded);
      ResolvedKeepsTags(start, loaded);
      return true;
    }

    /** Applies one round's ready set, enumerated in any order. */
    method ApplyRound(tags: set<Tag>, ready: set<Tag>) returns (after: set<Tag>, round: seq<Tag>)
      requires Valid() && ready <= ToApply(byTag, tags)
      ensures after == Apply(byTag, tags, ready)
      ensures NoDuplicates(round) && SetOf(round) == ready
    {
      after, round := tags, [];
      var left := ready;
      while left != {}
        invariant left <= ready && SetOf(round) == ready - left && NoDuplicates(round)
        invariant after == Apply(byTag, tags, ready - left)
      {
        var tag :| tag in left;
        if byTag[tag].upgrades {
          after := after + {tag};
        } else {
          assert tag in after;
          after := after - {tag};
        }
        assert tag !in SetOf(round);
        AppendNew(round, tag);
        left := left - {tag};
        round := round + [tag];
      }
      assert ready - left == ready;
    }

    /** The upgrades and downgrades run on a checkpoint, whichever way each round's ready set is enumerated. */
    method Migrate(checkpointTags: set<Tag>) returns (r: Outcome, applied: seq<Tag>)
      requires Valid()
      ensures r == Run(byTag, checkpointTags, ToApply(byTag, checkpointTags))
      ensures Linearization(byTag, checkpointTags, ToApply(byTag, checkpointTags), applied)
    {
      var tags := checkpointTags;
      var todo := (tagSet - tags) + untagSet * tags;
      applied := [];
      ghost var todo0 := todo;
      ExtendsStart(byTag, tags, todo);
      while todo != {}
        invariant todo <= byTag.Keys && todo0 <= byTag.Keys && todo == ToApply(byTag, tags)
        invariant Run(byTag, tags, todo) == Run(byTag, checkpointTags, todo0)
        invariant Extends(byTag, checkpointTags, todo0, applied, tags, todo)
        decreases |todo|
      {
        var ready := ReadySet(byTag, tags, todo);
        if ready == {} {
          NothingReady(byTag, checkpointTags, todo0, applied, tags, todo);
          return Aborted(tags, todo), applied;
        }
        var after, round := ApplyRound(tags, ready);
        RoundExtends(byTag, checkpointTags, todo0, applied, tags, todo, round);
        OneRound(byTag, tags, todo);
        tags, todo, applied := after, todo - ready, applied + round;
      }
      NothingReady(byTag, checkpointTags, todo0, applied, tags, todo);
      return Completed(tags), applied;
    }
  }

  lemma {:induction false} RemoveShrinks(todo: set<Tag>, ready: set<Tag>)
    requires ready <= todo && ready != {}
    ensures |todo - ready| < |todo|
  {
    var t :| t in ready;
    SubsetSize(todo - ready, todo - {t});
  }

  lemma {:induction false} OneRound(byTag: Table, tags: set<Tag>, todo: set<Tag>)
    requires todo <= byTag.Keys && todo == ToApply(byTag, tags) && ReadySet(byTag, tags, todo) != {}
    ensures var ready := ReadySet(byTag, tags, todo);
            && |todo - ready| < |todo|
            && todo - ready == ToApply(byTag, Apply(byTag, tags, ready))
            && Run(byTag, tags, todo) == Run(byTag, Apply(byTag, tags, ready), todo - ready)
            && (Apply(byTag, tags, ready) + TagSet(byTag)) - UntagSet(byTag) == (tags + TagSet(byTag)) - UntagSet(byTag)
  {
    RemoveShrinks(todo, ReadySet(byTag, tags, todo));
    TagAlgebra(tags, TagSet(byTag), UntagSet(byTag), ReadySet(byTag, tags, todo));
  }

  lemma {:induction false} TagAlgebra(tags: set<Tag>, up: set<Tag>, down: set<Tag>, ready: set<Tag>)
    requires up !! down && ready <= (up - tags) + down * tags
    ensures var after := (tags + ready * up) - ready * down;
            && (up - tags) + down * tags - ready == (up - after) + down * after
            && (after + up) - down == (tags + up) - down
  {
  }

  /** Whatever completes the migration from here completes, after `applied`, the migration from the start. */
  ghost predicate Extends(byTag: Table, tags0: set<Tag>, todo0: set<Tag>, applied: seq<Tag>,
                          tags: set<Tag>, todo: set<Tag>)
    requires todo0 <= byTag.Keys && todo <= byTag.Keys
  {
    forall rest {:trigger applied + rest} ::
      Linearization(byTag, tags, todo, rest) ==> Linearization(byTag, tags0, todo0, applied + rest)
  }

  lemma {:induction false} ExtendsStart(byTag: Table, tags: set<Tag>, todo: set<Tag>)
    requires todo <= byTag.Keys
    ensures Extends(byTag, tags, todo, [], tags, todo)
  {
    forall rest | Linearization(byTag, tags, todo, rest) ensures Linearization(byTag, tags, todo, [] + rest) {
      assert [] + rest == rest;
    }
  }

  lemma {:induction false} RoundExtends(byTag: Table, tags0: set<Tag>, todo0: set<Tag>, applied: seq<Tag>,
                     tags: set<Tag>, todo: set<Tag>, round: seq<Tag>)
    requires todo0 <= byTag.Keys && todo <= byTag.Keys
    requires Extends(byTag, tags0, todo0, applied, tags, todo)
    requires ReadySet(byTag, tags, todo) != {}
    requires NoDuplicates(round) && SetOf(round) == ReadySet(byTag, tags, todo)
    ensures var ready := ReadySet(byTag, tags, todo);
            Extends(byTag, tags0, todo0, applied + round, Apply(byTag, tags, ready), todo - ready)
  {
    var ready := ReadySet(byTag, tags, todo);
    SetOfBound(round);
    forall rest | Linearization(byTag, Apply(byTag, tags, ready), todo - ready, rest)
      ensures Linearization(byTag, tags0, todo0, applied + round + rest)
    {
      RoundFirst(byTag, tags, todo, round, rest);
      Reassociate(applied, round, rest);
    }
  }

  lemma {:induction false} RoundFirst(byTag: Table, tags: set<Tag>, todo: set<Tag>, round: seq<Tag>, rest: seq<Tag>)
    requires todo <= byTag.Keys && ReadySet(byTag, tags, todo) != {}
    requires NoDuplicates(round) && SetOf(round) == ReadySet(byTag, tags, todo)
    requires var ready := ReadySet(byTag, tags, todo);
             Linearization(byTag, Apply(byTag, tags, ready), todo - ready, rest)
    ensures Linearization(byTag, tags, todo, round + rest)
  {
    SetOfBound(round);
    assert (round + rest)[..|round|] == round && (round + rest)[|round|..] == rest;
  }

  /** Where nothing is ready, what has been applied is all. */
  lemma {:induction false} NothingReady(byTag: Table, tags0: set<Tag>, todo0: set<Tag>, applied: seq<Tag>,
                                        tags: set<Tag>, todo: set<Tag>)
    requires todo0 <= byTag.Keys && todo <= byTag.Keys
    requires Extends(byTag, tags0, todo0, applied, tags, todo) && ReadySet(byTag, tags, todo) == {}
    ensures Linearization(byTag, tags0, todo0, applied)
  {
    assert applied + [] == applied;
  }

  // ----- dependency resolution -----

  ghost predicate ForwardKnown(byTag: Table, t: Tag)
    requires t in byTag
  {
    forall d :: d in byTag[t].fwdDepends ==> d in byTag
  }

  ghost predicate DependsKnown(byTag: Table, t: Tag)
    requires t in byTag
  {
    forall d :: d in byTag[t].depends ==> d in byTag
  }

  /** The tags and all that they name as dependencies are known. */
  ghost predicate AllKnown(byTag: Table, tags: seq<Tag>) {
    forall t {:trigger t in tags} :: t in tags ==> t in byTag && ForwardKnown(byTag, t) && DependsKnown(byTag, t)
  }

  lemma {:induction false} AllKnownMore(byTag: Table, tags: seq<Tag>, t: Tag)
    requires AllKnown(byTag, tags) && t in byTag && ForwardKnown(byTag, t) && DependsKnown(byTag, t)
    ensures AllKnown(byTag, tags + [t])
  {
  }

  lemma {:induction false} LoadedTag(byTag: Table, loaded: seq<Tag>, i: nat)
    requires i < |loaded| && SetOf(loaded) == byTag.Keys
    ensures loaded[i] in byTag && loaded[..i + 1] == loaded[..i] + [loaded[i]]
  {
    assert loaded[i] in SetOf(loaded);
  }

  lemma {:induction false} AllAudited(byTag: Table, loaded: seq<Tag>)
    requires SetOf(loaded) == byTag.Keys && AllKnown(byTag, loaded)
    ensures Audited(byTag) && ForwardAudited(byTag)
  {
    forall t | t in byTag ensures ForwardKnown(byTag, t) && DependsKnown(byTag, t) {
      assert t in SetOf(loaded);
    }
  }

  ghost predicate ForwardAudited(byTag: Table) {
    forall t :: t in byTag ==> ForwardKnown(byTag, t)
  }

  /** One copy of `u` for every time its forward dependencies name `t`. */
  ghost function Copies(u: Tag, forward: seq<Tag>, t: Tag): seq<Tag> {
    if forward == [] then [] else
      Copies(u, forward[..|forward| - 1], t) + (if forward[|forward| - 1] == t then [u] else [])
  }

  /** The tags among `order` that name `t` as a forward dependency. */
  ghost function Forwarders(byTag: Table, order: seq<Tag>, t: Tag): seq<Tag>
    requires SetOf(order) <= byTag.Keys
  {
    if order == [] then [] else
      var m := |order| - 1;
      assert order[m] in SetOf(order);
      Forwarders(byTag, order[..m], t) + Copies(order[m], byTag[order[m]].fwdDepends, t)
  }

  ghost function Resolved(byTag: Table, order: seq<Tag>): Table
    requires SetOf(order) <= byTag.Keys
  {
    map t | t in byTag :: byTag[t].(depends := byTag[t].depends + Forwarders(byTag, order, t))
  }

  ghost function ResolvedPart(byTag: Table, order: seq<Tag>, u: Tag, forward: seq<Tag>): Table
    requires SetOf(order) <= byTag.Keys
  {
    map t | t in byTag ::
      byTag[t].(depends := byTag[t].depends + Forwarders(byTag, order, t) + Copies(u, forward, t))
  }

  lemma {:induction false} ResolvedNothing(byTag: Table)
    ensures Resolved(byTag, []) == byTag
  {
    assert forall t :: t in byTag ==> byTag[t].depends + [] == byTag[t].depends;
  }

  lemma {:induction false} ResolvedKeepsTags(byTag: Table, order: seq<Tag>)
    requires SetOf(order) <= byTag.Keys
    ensures var table := Resolved(byTag, order);
            table.Keys == byTag.Keys && TagSet(table) == TagSet(byTag) && UntagSet(table) == UntagSet(byTag)
  {
  }

  lemma {:induction false} ResolvedPartNothing(byTag: Table, order: seq<Tag>, u: Tag)
    requires SetOf(order) <= byTag.Keys
    ensures ResolvedPart(byTag, order, u, []) == Resolved(byTag, order)
  {
    forall t | t in byTag ensures ResolvedPart(byTag, order, u, [])[t] == Resolved(byTag, order)[t] {
      var d := byTag[t].depends + Forwarders(byTag, order, t);
      assert d + [] == d;
    }
  }

  lemma {:induction false} ResolvedPartNext(byTag: Table, order: seq<Tag>, u: Tag, forward: seq<Tag>, j: nat)
    requires SetOf(order) <= byTag.Keys && j < |forward| && forward[j] in byTag
    ensures var part, fd := ResolvedPart(byTag, order, u, forward[..j]), forward[j];
            && ResolvedPart(byTag, order, u, forward[..j + 1])
               == part[fd := part[fd].(depends := part[fd].depends + [u])]
  {
    var fd := forward[j];
    var part := ResolvedPart(byTag, order, u, forward[..j]);
    var next := ResolvedPart(byTag, order, u, forward[..j + 1]);
    forall t | t in byTag ensures next[t] == if t == fd then part[t].(depends := part[t].depends + [u]) else part[t] {
      CopiesNext(u, forward, j, t, byTag[t].depends + Forwarders(byTag, order, t));
    }
  }

  lemma {:induction false} CopiesNext(u: Tag, forward: seq<Tag>, j: nat, t: Tag, d: seq<Tag>)
    requires j < |forward|
    ensures d + Copies(u, forward[..j + 1], t)
            == if t == forward[j] then d + Copies(u, forward[..j], t) + [u] else d + Copies(u, forward[..j], t)
  {
    assert forward[..j + 1][..j] == forward[..j];
  }

  lemma {:induction false} ResolvedPartWhole(byTag: Table, order: seq<Tag>, u: Tag)
    requires SetOf(order) <= byTag.Keys && u in byTag
    ensures SetOf(order + [u]) <= byTag.Keys
    ensures ResolvedPart(byTag, order, u, byTag[u].fwdDepends) == Resolved(byTag, order + [u])
  {
    AppendNew(order, u);
    var part, next := ResolvedPart(byTag, order, u, byTag[u].fwdDepends), Resolved(byTag, order + [u]);
    forall t | t in byTag ensures part[t] == next[t] {
      ForwardersNext(byTag, order, u, t);
      Reassociate(byTag[t].depends, Forwarders(byTag, order, t), Copies(u, byTag[u].fwdDepends, t));
    }
  }

  lemma {:induction false} ForwardersNext(byTag: Table, order: seq<Tag>, u: Tag, t: Tag)
    requires SetOf(order) <= byTag.Keys && u in byTag && SetOf(order + [u]) <= byTag.Keys
    ensures Forwarders(byTag, order + [u], t) == Forwarders(byTag, order, t) + Copies(u, byTag[u].fwdDepends, t)
  {
    assert (order + [u])[..|order|] == order;
  }

  lemma {:induction false} CopiesMeaning(u: Tag, forward: seq<Tag>, t: Tag, v: Tag)
    ensures v in Copies(u, forward, t) <==> v == u && t in forward
  {
    if forward != [] {
      CopiesMeaning(u, forward[..|forward| - 1], t, v);
    }
  }

  lemma {:induction false} ForwardersMeaning(byTag: Table, order: seq<Tag>, t: Tag, u: Tag)
    requires SetOf(order) <= byTag.Keys
    ensures u in Forwarders(byTag, order, t) <==> u in order && u in byTag && t in byTag[u].fwdDepends
  {
    if order != [] {
      var m := |order| - 1;
      assert order[m] in SetOf(order);
      assert SetOf(order[..m]) <= SetOf(order);
      ForwardersMeaning(byTag, order[..m], t, u);
      CopiesMeaning(order[m], byTag[order[m]].fwdDepends, t, u);
    }
  }

  /** After resolution `t` depends on `u` exactly if it said so itself or `u` named it as a forward dependency,
      and the audited table stays audited. */
  lemma {:induction false} ResolvedMeaning(byTag: Table, order: seq<Tag>, t: Tag, u: Tag)
    requires SetOf(order) == byTag.Keys && t in byTag
    ensures u in Resolved(byTag, order)[t].depends <==>
            u in byTag[t].depends || (u in byTag && t in byTag[u].fwdDepends)
    ensures Audited(byTag) ==> Audited(Resolved(byTag, order))
  {
    ForwardersMeaning(byTag, order, t, u);
    assert u in byTag ==> u in SetOf(order);
    if Audited(byTag) {
      var next := Resolved(byTag, order);
      forall v, d | v in next && d in next[v].depends ensures d in next {
        ForwardersMeaning(byTag, order, v, d);
      }
    }
  }

  // ----- what a migration achieves -----

  /** Every migration that completes, with downgraders or without, leaves the same tags, whatever the
      dependencies are. */
  lemma {:induction false} CompletedTags(byTag: Table, tags: set<Tag>)
    requires Run(byTag, tags, ToApply(byTag, tags)).Completed?
    ensures Run(byTag, tags, ToApply(byTag, tags)).tags == (tags + TagSet(byTag)) - UntagSet(byTag)
    decreases |ToApply(byTag, tags)|
  {
    var todo := ToApply(byTag, tags);
    if todo != {} {
      OneRound(byTag, tags, todo);
      var after := Apply(byTag, tags, ReadySet(byTag, tags, todo));
      CompletedTags(byTag, after);
    } else {
      assert tags == (tags + TagSet(byTag)) - UntagSet(byTag);
    }
  }

  /** In other words: after a completed migration a checkpoint has every tag of an upgrader, no tag of a downgrader, and
      of all others those it had. */
  lemma {:induction false} CompletedMeaning(byTag: Table, tags: set<Tag>, t: Tag)
    requires Run(byTag, tags, ToApply(byTag, tags)).Completed?
    ensures t in Run(byTag, tags, ToApply(byTag, tags)).tags <==> if t in byTag then byTag[t].upgrades else t in tags
  {
    CompletedTags(byTag, tags);
  }

  /** Migrating a second time applies nothing. */
  lemma {:induction false} MigrationIsIdempotent(byTag: Table, tags: set<Tag>)
    requires Run(byTag, tags, ToApply(byTag, tags)).Completed?
    ensures ToApply(byTag, Run(byTag, tags, ToApply(byTag, tags)).tags) == {}
  {
    CompletedTags(byTag, tags);
  }

  /** Nothing is applied before the tags it depends on are there. */
  ghost predicate DependenciesFirst(byTag: Table, tags: set<Tag>, applied: seq<Tag>) {
    forall i :: 0 <= i < |applied| ==> applied[i] in byTag && Ready(byTag, applied[i], tags + SetOf(applied[..i]))
  }

  /** Nothing is applied twice, and everything after the tags it depends on, unless the checkpoint had them. */
  lemma {:induction false} AppliedInOrder(byTag: Table, tags: set<Tag>, todo: set<Tag>, applied: seq<Tag>)
    requires todo <= byTag.Keys
    requires Linearization(byTag, tags, todo, applied)
    ensures NoDuplicates(applied) && SetOf(applied) <= todo
    ensures DependenciesFirst(byTag, tags, applied)
    decreases |todo|
  {
    var ready := ReadySet(byTag, tags, todo);
    if ready != {} {
      RemoveShrinks(todo, ready);
      AppliedInOrder(byTag, Apply(byTag, tags, ready), todo - ready, applied[|ready|..]);
      RoundThenRest(applied, |ready|);
      FirstRoundThenRest(byTag, tags, ready, applied);
    }
  }

  lemma {:induction false} FirstRoundThenRest(byTag: Table, tags: set<Tag>, ready: set<Tag>, applied: seq<Tag>)
    requires |ready| <= |applied| && SetOf(applied[..|ready|]) == ready
    requires forall t :: t in ready ==> t in byTag && Ready(byTag, t, tags)
    requires DependenciesFirst(byTag, Apply(byTag, tags, ready), applied[|ready|..])
    ensures DependenciesFirst(byTag, tags, applied)
  {
    var n := |ready|;
    forall i | 0 <= i < |applied|
      ensures applied[i] in byTag && Ready(byTag, applied[i], tags + SetOf(applied[..i]))
    {
      if i < n {
        assert applied[..n][i] in SetOf(applied[..n]);
      } else {
        AppliedBy(applied, n, i);
        assert Ready(byTag, applied[n..][i - n], Apply(byTag, tags, ready) + SetOf(applied[n..][..i - n]));
      }
    }
  }

  lemma {:induction false} AppliedBy(applied: seq<Tag>, n: nat, i: nat)
    requires n <= i < |applied|
    ensures applied[n..][i - n] == applied[i]
    ensures SetOf(applied[..i]) == SetOf(applied[..n]) + SetOf(applied[n..][..i - n])
  {
    RoundThenRest(applied[..i], n);
    assert applied[..i][..n] == applied[..n] && applied[..i][n..] == applied[n..][..i - n];
  }

  function Unapplied(r: Outcome): set<Tag> {
    if r.Aborted? then r.stuck else {}
  }

  /** Of a migration that completes or aborts, the tags are those the checkpoint had, changed by all that was to
      be applied except what is reported. */
  lemma {:induction false} MigratedTags(byTag: Table, tags: set<Tag>, todo: set<Tag>)
    requires todo <= byTag.Keys
    ensures Unapplied(Run(byTag, tags, todo)) <= todo
    ensures Run(byTag, tags, todo).tags == Apply(byTag, tags, todo - Unapplied(Run(byTag, tags, todo)))
    decreases |todo|
  {
    var ready := ReadySet(byTag, tags, todo);
    if ready != {} {
      RemoveShrinks(todo, ready);
      var after, left := Apply(byTag, tags, ready), Unapplied(Run(byTag, tags, todo));
      assert left == Unapplied(Run(byTag, after, todo - ready));
      MigratedTags(byTag, after, todo - ready);
      TakenOut(todo, ready, left);
      ApplyTwice(byTag, tags, ready, todo - ready - left);
    }
  }

  lemma {:induction false} ApplyTwice(byTag: Table, tags: set<Tag>, a: set<Tag>, b: set<Tag>)
    ensures Apply(byTag, Apply(byTag, tags, a), b) == Apply(byTag, tags, a + b)
  {
  }

  /** What gets applied is all that was missing, except what is reported. */
  lemma {:induction false} AppliedTags(byTag: Table, tags: set<Tag>, todo: set<Tag>, applied: seq<Tag>)
    requires todo <= byTag.Keys && Linearization(byTag, tags, todo, applied)
    ensures SetOf(applied) == todo - Unapplied(Run(byTag, tags, todo))
    decreases |todo|
  {
    var ready := ReadySet(byTag, tags, todo);
    if ready != {} {
      RemoveShrinks(todo, ready);
      var after, rest := Apply(byTag, tags, ready), applied[|ready|..];
      var left := Unapplied(Run(byTag, after, todo - ready));
      assert left == Unapplied(Run(byTag, tags, todo));
      AppliedTags(byTag, after, todo - ready, rest);
      UnappliedSubset(byTag, after, todo - ready);
      assert SetOf(applied) == ready + SetOf(rest) by { RoundThenRest(applied, |ready|); }
      TakenOut(todo, ready, left);
    }
  }

  lemma {:induction false} TakenOut(todo: set<Tag>, ready: set<Tag>, left: set<Tag>)
    requires ready <= todo && left <= todo - ready
    ensures ready + (todo - ready - left) == todo - left
  {
  }

  lemma {:induction false} UnappliedSubset(byTag: Table, tags: set<Tag>, todo: set<Tag>)
    requires todo <= byTag.Keys
    ensures Unapplied(Run(byTag, tags, todo)) <= todo
    decreases |todo|
  {
    var ready := ReadySet(byTag, tags, todo);
    if ready != {} {
      RemoveShrinks(todo, ready);
      UnappliedSubset(byTag, Apply(byTag, tags, ready), todo - ready);
    }
  }

  lemma {:induction false} RoundThenRest(applied: seq<Tag>, n: nat)
    requires n <= |applied|
    ensures SetOf(applied) == SetOf(applied[..n]) + SetOf(applied[n..])
    ensures NoDuplicates(applied[..n]) && NoDuplicates(applied[n..]) && SetOf(applied[..n]) !! SetOf(applied[n..])
            ==> NoDuplicates(applied)
  {
    var round, rest := applied[..n], applied[n..];
    assert applied == round + rest;
    if NoDuplicates(round) && NoDuplicates(rest) && SetOf(round) !! SetOf(rest) {
      forall i, j | 0 <= i < j < |applied| ensures applied[i] != applied[j] {
        if i < n <= j {
          assert round[i] in SetOf(round) && rest[j - n] in SetOf(rest);
        } else if n <= i {
          assert rest[i - n] != rest[j - n];
        } else {
          assert round[i] != round[j];
        }
      }
    }
  }

  // ----- exactly when a migration aborts -----

  /** Every tag of the set depends on a tag of the set. */
  ghost predicate Blocked(byTag: Table, s: set<Tag>) {
    forall t {:trigger NeedsOne(byTag, t, s)} :: t in s ==> NeedsOne(byTag, t, s)
  }

  ghost predicate NeedsOne(byTag: Table, t: Tag, s: set<Tag>) {
    t in byTag && exists d :: d in byTag[t].depends && d in s
  }

  /** No tag of the set depends on a downgrader. */
  ghost predicate OnUpgrades(byTag: Table, s: set<Tag>) {
    forall t, d :: t in s && t in byTag && d in byTag[t].depends ==> d !in UntagSet(byTag)
  }

  /** A blocked set of missing upgrades is never applied, whatever else there is to apply. */
  lemma {:induction false} BlockedStays(byTag: Table, tags: set<Tag>, s: set<Tag>)
    requires s <= TagSet(byTag) - tags && s != {} && Blocked(byTag, s)
    ensures var r := Run(byTag, tags, ToApply(byTag, tags)); r.Aborted? && s <= r.stuck
    decreases |ToApply(byTag, tags)|
  {
    var todo := ToApply(byTag, tags);
    var ready := ReadySet(byTag, tags, todo);
    forall t | t in s ensures t !in ready {
      assert NeedsOne(byTag, t, s);
    }
    if ready != {} {
      OneRound(byTag, tags, todo);
      BlockedStays(byTag, Apply(byTag, tags, ready), s);
    }
  }

  /** What is reported as impossible is blocked, if it depends on no downgrader. */
  lemma {:induction false} StuckIsBlocked(byTag: Table, tags: set<Tag>)
    requires Audited(byTag) && OnUpgrades(byTag, ToApply(byTag, tags))
    ensures var r := Run(byTag, tags, ToApply(byTag, tags));
            r.Aborted? ==> r.stuck != {} && r.stuck <= ToApply(byTag, tags) && Blocked(byTag, r.stuck)
    decreases |ToApply(byTag, tags)|
  {
    var todo := ToApply(byTag, tags);
    var ready := ReadySet(byTag, tags, todo);
    if ready != {} {
      OneRound(byTag, tags, todo);
      StuckIsBlocked(byTag, Apply(byTag, tags, ready));
    } else {
      forall t | t in todo ensures NeedsOne(byTag, t, todo) {
        assert t !in ready && !Ready(byTag, t, tags);
        var d :| d in byTag[t].depends && d !in tags;
        assert d in byTag && d !in UntagSet(byTag);
      }
    }
  }

  /** Where nothing to be applied depends on a downgrader, what is reported as impossible is the largest blocked
      set: exactly the tags that depend, directly or not, on a cycle. */
  lemma {:induction false} StuckIsLargestBlocked(byTag: Table, tags: set<Tag>, s: set<Tag>)
    requires Audited(byTag) && OnUpgrades(byTag, ToApply(byTag, tags))
    requires s <= ToApply(byTag, tags) && Blocked(byTag, s)
    ensures var r := Run(byTag, tags, ToApply(byTag, tags));
            && (s != {} ==> r.Aborted?)
            && (r.Aborted? ==> s <= r.stuck && r.stuck != {} && Blocked(byTag, r.stuck))
    decreases |ToApply(byTag, tags)|
  {
    var todo := ToApply(byTag, tags);
    var ready := ReadySet(byTag, tags, todo);
    StuckIsBlocked(byTag, tags);
    forall t | t in s ensures t !in ready {
      assert NeedsOne(byTag, t, s);
    }
    if ready != {} {
      OneRound(byTag, tags, todo);
      StuckIsLargestBlocked(byTag, Apply(byTag, tags, ready), s);
    }
  }

  /** A closed walk along dependencies inside `nodes`. */
  ghost predicate IsCycle(byTag: Table, nodes: set<Tag>, walk: seq<Tag>) {
    && |walk| >= 2 && walk[0] == walk[|walk| - 1]
    && IsWalk(byTag, nodes, walk)
  }

  ghost predicate IsWalk(byTag: Table, nodes: set<Tag>, walk: seq<Tag>) {
    && (forall i :: 0 <= i < |walk| ==> walk[i] in nodes && walk[i] in byTag)
    && (forall i, j :: 0 <= i && i + 1 == j < |walk| ==> walk[j] in byTag[walk[i]].depends)
  }

  /** A walk that can always go on in a finite set runs into itself. */
  lemma {:induction false} WalkCloses(byTag: Table, nodes: set<Tag>, walk: seq<Tag>) returns (cycle: seq<Tag>)
    requires Blocked(byTag, nodes) && walk != [] && IsWalk(byTag, nodes, walk) && NoDuplicates(walk)
    ensures IsCycle(byTag, nodes, cycle)
    decreases |nodes| - |walk|
  {
    var last := walk[|walk| - 1];
    assert NeedsOne(byTag, last, nodes);
    var d :| d in byTag[last].depends && d in nodes;
    assert NeedsOne(byTag, d, nodes);
    if d in walk {
      var i :| 0 <= i < |walk| && walk[i] == d;
      WalkSuffix(byTag, nodes, walk, i);
      WalkOneMore(byTag, nodes, walk[i..], d);
      cycle := walk[i..] + [d];
    } else {
      WalkOneMore(byTag, nodes, walk, d);
      AppendNew(walk, d);
      SetOfBound(walk + [d]);
      assert SetOf(walk + [d]) <= nodes by {
        forall t | t in walk + [d] ensures t in nodes {
          var i :| 0 <= i < |walk + [d]| && (walk + [d])[i] == t;
        }
      }
      SubsetSize(SetOf(walk + [d]), nodes);
      cycle := WalkCloses(byTag, nodes, walk + [d]);
    }
  }

  lemma {:induction false} WalkOneMore(byTag: Table, nodes: set<Tag>, walk: seq<Tag>, d: Tag)
    requires walk != [] && IsWalk(byTag, nodes, walk)
    requires d in nodes && d in byTag && d in byTag[walk[|walk| - 1]].depends
    ensures IsWalk(byTag, nodes, walk + [d])
  {
  }

  lemma {:induction false} WalkSuffix(byTag: Table, nodes: set<Tag>, walk: seq<Tag>, n: nat)
    requires n < |walk| && IsWalk(byTag, nodes, walk)
    ensures IsWalk(byTag, nodes, walk[n..]) && walk[n..][|walk| - n - 1] == walk[|walk| - 1]
  {
  }

  lemma {:induction false} CycleIsBlocked(byTag: Table, nodes: set<Tag>, walk: seq<Tag>)
    requires IsCycle(byTag, nodes, walk)
    ensures Blocked(byTag, SetOf(walk)) && SetOf(walk) <= nodes && SetOf(walk) != {}
  {
    assert walk[0] in SetOf(walk);
    forall t | t in SetOf(walk) ensures NeedsOne(byTag, t, SetOf(walk)) {
      var i :| 0 <= i < |walk| - 1 && walk[i] == t;
      assert walk[i + 1] in SetOf(walk);
    }
  }

  /** Where nothing to be applied depends on a downgrader, a migration aborts if and only if the dependencies among
      the tags to be applied form a cycle. */
  lemma {:induction false} AbortsExactlyOnCycle(byTag: Table, tags: set<Tag>)
    requires Audited(byTag) && OnUpgrades(byTag, ToApply(byTag, tags))
    ensures Run(byTag, tags, ToApply(byTag, tags)).Aborted? <==>
            exists walk :: IsCycle(byTag, ToApply(byTag, tags), walk)
  {
    var todo := ToApply(byTag, tags);
    var r := Run(byTag, tags, todo);
    StuckIsBlocked(byTag, tags);
    if r.Aborted? {
      var t :| t in r.stuck;
      assert NeedsOne(byTag, t, r.stuck);
      var cycle := WalkCloses(byTag, r.stuck, [t]);
      assert IsCycle(byTag, todo, cycle);
    }
    if walk :| IsCycle(byTag, todo, walk) {
      CycleIsBlocked(byTag, todo, walk);
      StuckIsLargestBlocked(byTag, tags, SetOf(walk));
    }
  }

  // ----- dependencies on downgraders -----

  /** The readiness the header comment describes: a dependency on a downgrader asks for that tag's removal. */
  ghost predicate DocumentedReady(byTag: Table, t: Tag, tags: set<Tag>)
    requires t in byTag
  {
    forall d :: d in byTag[t].depends ==> (d in tags <==> d !in UntagSet(byTag))
  }

  /** The code asks for presence, so it agrees with the comment on every checkpoint exactly for those tags
      that depend on no downgrader. */
  lemma {:induction false} DocumentedReadyExactlyWhen(byTag: Table, t: Tag)
    requires t in byTag
    ensures (forall tags :: Ready(byTag, t, tags) <==> DocumentedReady(byTag, t, tags)) <==>
            (forall d :: d in byTag[t].depends ==> d !in UntagSet(byTag))
  {
    if d :| d in byTag[t].depends && d in UntagSet(byTag) {
      var all := SetOf(byTag[t].depends);
      assert Ready(byTag, t, all) && !DocumentedReady(byTag, t, all);
    }
  }

  ghost predicate AbortsIffCycle(byTag: Table, tags: set<Tag>) {
    Run(byTag, tags, ToApply(byTag, tags)).Aborted? <==> exists walk :: IsCycle(byTag, ToApply(byTag, tags), walk)
  }

  /** The tag depends on no downgrader, or can never be applied because it is an upgrade that needs itself. */
  ghost predicate Harmless(byTag: Table, t: Tag)
    requires t in byTag
  {
    || (byTag[t].upgrades && t in byTag[t].depends)
    || forall d :: d in byTag[t].depends ==> d !in UntagSet(byTag)
  }

  /** On every checkpoint a migration aborts exactly on a cycle, if and only if no tag depends on a downgrader,
      but for upgrades that depend on themselves. */
  lemma {:induction false} CycleCriterionExactlyWhen(byTag: Table)
    requires Audited(byTag)
    ensures (forall tags :: AbortsIffCycle(byTag, tags)) <==> (forall t :: t in byTag ==> Harmless(byTag, t))
  {
    if forall t :: t in byTag ==> Harmless(byTag, t) {
      forall tags ensures AbortsIffCycle(byTag, tags) {
        HarmlessSuffices(byTag, tags);
      }
    } else {
      var t :| t in byTag && !Harmless(byTag, t);
      var tags := HarmlessNeeded(byTag, t);
    }
  }

  lemma {:induction false} HarmlessSuffices(byTag: Table, tags: set<Tag>)
    requires Audited(byTag) && forall t :: t in byTag ==> Harmless(byTag, t)
    ensures AbortsIffCycle(byTag, tags)
  {
    var todo := ToApply(byTag, tags);
    if t :| t in todo && byTag[t].upgrades && t in byTag[t].depends {
      assert NeedsOne(byTag, t, {t});
      BlockedStays(byTag, tags, {t});
      assert IsCycle(byTag, todo, [t, t]);
    } else {
      assert forall t :: t in todo ==> Harmless(byTag, t);
      AbortsExactlyOnCycle(byTag, tags);
    }
  }

  /** A harmful tag misleads the migration of some checkpoint. */
  lemma {:induction false} HarmlessNeeded(byTag: Table, t: Tag) returns (tags: set<Tag>)
    requires Audited(byTag) && t in byTag && !Harmless(byTag, t)
    ensures !AbortsIffCycle(byTag, tags)
  {
    if t in byTag[t].depends {
      tags := byTag.Keys;
      NeedsItself(byTag, t);
    } else {
      tags := if byTag[t].upgrades then TagSet(byTag) - {t} else TagSet(byTag) + {t};
      WaitsForever(byTag, t, tags);
    }
  }

  /** A downgrader that depends on itself is no obstacle, although it is a cycle. */
  lemma {:induction false} NeedsItself(byTag: Table, t: Tag)
    requires Audited(byTag) && t in UntagSet(byTag) && t in byTag[t].depends
    ensures !AbortsIffCycle(byTag, byTag.Keys)
  {
    var todo := ToApply(byTag, byTag.Keys);
    AllReadyCompletes(byTag, byTag.Keys, todo);
    assert IsCycle(byTag, todo, [t, t]);
  }

  lemma {:induction false} AllReadyCompletes(byTag: Table, tags: set<Tag>, todo: set<Tag>)
    requires Audited(byTag) && todo <= byTag.Keys <= tags
    ensures Run(byTag, tags, todo).Completed?
  {
    if todo != {} {
      assert ReadySet(byTag, tags, todo) == todo;
      assert todo - todo == {};
    }
  }

  /** A tag that alone is left to apply waits for a downgrader's tag that is gone. */
  lemma {:induction false} WaitsForever(byTag: Table, t: Tag, tags: set<Tag>)
    requires t in byTag && !Harmless(byTag, t) && t !in byTag[t].depends
    requires tags == if byTag[t].upgrades then TagSet(byTag) - {t} else TagSet(byTag) + {t}
    ensures !AbortsIffCycle(byTag, tags)
  {
    var d :| d in byTag[t].depends && d in UntagSet(byTag);
    assert d !in tags;
    var todo := ToApply(byTag, tags);
    assert todo == {t};
    assert ReadySet(byTag, tags, todo) == {};
    forall walk ensures !IsCycle(byTag, todo, walk) {
      NoCycleAlone(byTag, t, walk);
    }
  }

  lemma {:induction false} NoCycleAlone(byTag: Table, t: Tag, walk: seq<Tag>)
    requires t in byTag && t !in byTag[t].depends
    ensures !IsCycle(byTag, {t}, walk)
  {
    if |walk| >= 2 && walk[0] in {t} && walk[1] in {t} {
      assert walk[1] !in byTag[walk[0]].depends;
    }
  }
}
