/** Merging checkpoints of single CPUs into one checkpoint of several.

The memories are concatenated page by page, so the physical addresses in each
checkpoint's CPU sections are moved up by the pages that come before it, and the
sections are renamed so that those of different checkpoints stay apart.
*/
module CheckpointAggregator {
  import opened Collections
  import opened Text

  const PAGE: nat := 4096

  /** A section of the configuration: its physical address, if it has one, and its other entries. */
  datatype Section = Section(name: string, paddr: Option<int>, entries: map<string, string>)

  /** What the aggregation reads of a checkpoint: how many pages it claims and its current tick, which are entries
      of the sections `system` and `Globals`, all its sections, and its memory. */
  datatype Checkpoint = Checkpoint(pages: nat, memory: seq<Byte>, curTick: int, sections: seq<Section>)

  datatype Merged = Merged(memory: seq<Byte>, pagePtr: nat, rangeSize: nat, nextPID: nat, curTick: int,
                           sections: seq<Section>)

  // ----- memory -----

  /** The number of pages of the first `n` checkpoints. */
  function Offset(cpts: seq<Checkpoint>, n: nat): nat
    requires n <= |cpts|
  {
    if n == 0 then 0 else Offset(cpts, n - 1) + cpts[n - 1].pages
  }

  function Contents(cpts: seq<Checkpoint>, n: nat): seq<Byte>
    requires n <= |cpts|
  {
    if n == 0 then [] else Contents(cpts, n - 1) + Take(cpts[n - 1].memory, PAGE * cpts[n - 1].pages)
  }

  /** The checkpoint's memory holds all the pages it claims. */
  predicate Complete(c: Checkpoint) {
    |c.memory| >= PAGE * c.pages
  }

  /** Where an address of checkpoint `i` ends up. */
  function Relocate(cpts: seq<Checkpoint>, i: nat, paddr: int): int
    requires i < |cpts|
  {
    paddr + Offset(cpts, i) * PAGE
  }

  lemma {:induction false} ContentsLength(cpts: seq<Checkpoint>, n: nat)
    requires n <= |cpts|
    ensures |Contents(cpts, n)| <= PAGE * Offset(cpts, n)
    ensures |Contents(cpts, n)| == PAGE * Offset(cpts, n) <==> forall i :: 0 <= i < n ==> Complete(cpts[i])
  {
    if n > 0 {
      ContentsLength(cpts, n - 1);
    }
  }

  lemma {:induction false} ContentsGrow(cpts: seq<Checkpoint>, i: nat, n: nat)
    requires i <= n <= |cpts|
    ensures Contents(cpts, i) <= Contents(cpts, n) && Offset(cpts, i) <= Offset(cpts, n)
    decreases n
  {
    if i < n {
      ContentsGrow(cpts, i, n - 1);
    }
  }

  /** A relocated address finds in the merged memory what the original address finds in its own checkpoint. */
  lemma {:induction false} RelocationIsFaithful(cpts: seq<Checkpoint>, i: nat, a: nat)
    requires i < |cpts| && forall j :: 0 <= j < i ==> Complete(cpts[j])
    requires a < PAGE * cpts[i].pages && a < |cpts[i].memory|
    ensures Relocate(cpts, i, a) < |Contents(cpts, |cpts|)|
    ensures Contents(cpts, |cpts|)[Relocate(cpts, i, a)] == cpts[i].memory[a]
  {
    ContentsLength(cpts, i);
    ContentsGrow(cpts, i + 1, |cpts|);
    assert Contents(cpts, i + 1)[Relocate(cpts, i, a)] == cpts[i].memory[a];
  }

  lemma {:induction false} OffsetGrows(cpts: seq<Checkpoint>, i: nat, n: nat)
    requires i <= n <= |cpts|
    ensures Offset(cpts, i) <= Offset(cpts, n)
    decreases n
  {
    if i < n {
      OffsetGrows(cpts, i, n - 1);
    }
  }

  /** A relocated address lies in its checkpoint's pages, which come before those of the later ones. */
  lemma {:induction false} RelocationBounds(cpts: seq<Checkpoint>, i: nat, a: nat, n: nat)
    requires i < n <= |cpts| && a < PAGE * cpts[i].pages
    ensures PAGE * Offset(cpts, i) <= Relocate(cpts, i, a) < PAGE * Offset(cpts, n)
  {
    OffsetGrows(cpts, i + 1, n);
    assert Offset(cpts, i + 1) == Offset(cpts, i) + cpts[i].pages;
  }

  /** Addresses of different checkpoints never meet, and none leaves the merged pages. */
  lemma {:induction false} RelocationIsApart(cpts: seq<Checkpoint>, i: nat, j: nat, a: nat, b: nat)
    requires i < |cpts| && j < |cpts| && a < PAGE * cpts[i].pages && b < PAGE * cpts[j].pages
    ensures 0 <= Relocate(cpts, i, a) < PAGE * Offset(cpts, |cpts|)
    ensures Relocate(cpts, i, a) == Relocate(cpts, j, b) ==> i == j && a == b
  {
    RelocationBounds(cpts, i, a, |cpts|);
    RelocationBounds(cpts, j, b, |cpts|);
    if i < j {
      RelocationBounds(cpts, i, a, j);
    } else if j < i {
      RelocationBounds(cpts, j, b, i);
    }
  }

  function MaxTick(cpts: seq<Checkpoint>, n: nat): int
    requires n <= |cpts|
  {
    if n == 0 then 0 else
      if cpts[n - 1].curTick > MaxTick(cpts, n - 1) then cpts[n - 1].curTick else MaxTick(cpts, n - 1)
  }

  /** The tick is the latest of the checkpoints' ticks, or zero if none is later. */
  ghost predicate Latest(tick: int, cpts: seq<Checkpoint>) {
    && tick >= 0 && (forall i :: 0 <= i < |cpts| ==> cpts[i].curTick <= tick)
    && (tick == 0 || exists i :: 0 <= i < |cpts| && cpts[i].curTick == tick)
  }

  lemma {:induction false} MaxTickIsLatest(cpts: seq<Checkpoint>, n: nat)
    requires n <= |cpts|
    ensures Latest(MaxTick(cpts, n), cpts[..n])
  {
    if n > 0 {
      MaxTickIsLatest(cpts, n - 1);
      LatestOneMore(MaxTick(cpts, n - 1), cpts[..n - 1], cpts[n - 1]);
      TakeOneMore(cpts, n);
    }
  }

  lemma {:induction false} LatestOneMore(tick: int, cpts: seq<Checkpoint>, last: Checkpoint)
    requires Latest(tick, cpts)
    ensures Latest(if last.curTick > tick then last.curTick else tick, cpts + [last])
  {
    var all := cpts + [last];
    assert all[|cpts|] == last;
    if last.curTick <= tick != 0 {
      var i :| 0 <= i < |cpts| && cpts[i].curTick == tick;
      assert all[i] == cpts[i];
    }
  }

  /** How many pages of filling reach `memorySize`. */
  function Padding(filled: nat, memorySize: nat): nat
    decreases memorySize - filled
  {
    if filled < memorySize then 1 + Padding(filled + PAGE, memorySize) else 0
  }

  lemma {:induction false} PaddingIsLeast(filled: nat, memorySize: nat)
    ensures filled + PAGE * Padding(filled, memorySize) >= memorySize
    ensures Padding(filled, memorySize) > 0 ==> filled + PAGE * (Padding(filled, memorySize) - 1) < memorySize
    decreases memorySize - filled
  {
    if filled < memorySize {
      PaddingIsLeast(filled + PAGE, memorySize);
    }
  }

  /** `n` times the character zero. */
  function Filler(n: nat): (s: seq<Byte>)
    ensures |s| == n && forall i :: 0 <= i < n ==> s[i] == 48
  {
    seq(n, _ => 48)
  }

  /** The recorded range is what the merged memory holds if and only if every checkpoint holds the pages it
      claims; in any case it reaches the requested size, with no page to spare. */
  lemma {:induction false} RangeIsExactlyWhen(cpts: seq<Checkpoint>, memorySize: nat, m: Merged)
    requires m.pagePtr == Offset(cpts, |cpts|)
    requires m.memory == Contents(cpts, |cpts|) + Filler(PAGE * Padding(PAGE * m.pagePtr, memorySize))
    requires m.rangeSize == PAGE * (m.pagePtr + Padding(PAGE * m.pagePtr, memorySize))
    ensures m.rangeSize == |m.memory| <==> forall i :: 0 <= i < |cpts| ==> Complete(cpts[i])
    ensures m.rangeSize >= memorySize
    ensures m.rangeSize > PAGE * m.pagePtr ==> m.rangeSize < memorySize + PAGE
  {
    ContentsLength(cpts, |cpts|);
    PaddingIsLeast(PAGE * m.pagePtr, memorySize);
  }

  // ----- section names -----

  /** The checkpoint's number, filled up with zeros. */
  function Tag(i: nat, width: nat): string {
    var s := Dec(i);
    if |s| < width then ZeroFill(s, width - |s|) else s
  }

  function ZeroFill(s: string, n: nat): string {
    if n == 0 then s else "0" + ZeroFill(s, n - 1)
  }

  /** Replaces every "cpu" by "cpu" followed by the tag. */
  function Rename(s: string, tag: string): string {
    if |s| < 3 then s
    else if s[..3] == "cpu" then "cpu" + tag + Rename(s[3..], tag)
    else [s[0]] + Rename(s[1..], tag)
  }

  predicate NamesCpu(s: string) {
    |s| >= 3 && (s[..3] == "cpu" || NamesCpu(s[1..]))
  }

  lemma {:induction false} RenameStart(s: string, tag: string)
    ensures |Rename(s, tag)| >= |s| && (s != "" ==> Rename(s, tag)[0] == s[0])
    decreases |s|
  {
    if |s| >= 3 {
      RenameStart(if s[..3] == "cpu" then s[3..] else s[1..], tag);
    }
  }

  /** A name that does not start with "cpu" does not start with it afterwards. */
  lemma {:induction false} RenameElsewhere(s: string, tag: string)
    requires |s| >= 3 && s[..3] != "cpu"
    ensures |Rename(s, tag)| >= 3 && Rename(s, tag)[..3] != "cpu"
  {
    var t := Rename(s[1..], tag);
    RenameStart(s[1..], tag);
    RenameStart(s[2..], tag);
    assert Rename(s, tag) == [s[0]] + t && t[0] == s[1];
    if s[1] == 'p' {
      assert s[1..][0] == 'p' && s[1..][1..] == s[2..];
      assert t == if |s| < 4 then s[1..] else ['p'] + Rename(s[2..], tag);
      assert t[1] == s[2];
      assert Rename(s, tag)[..3] == [s[0], s[1], s[2]] == s[..3];
    } else {
      assert Rename(s, tag)[..3][1] != 'p';
    }
  }

  lemma {:induction false} RenameAtCpu(s: string, tag: string)
    requires |s| >= 3 && s[..3] == "cpu"
    ensures var r := Rename(s, tag);
            |r| >= 3 + |tag| && r[..3] == "cpu" && r[3..3 + |tag|] == tag && r[3 + |tag|..] == Rename(s[3..], tag)
  {
  }

  /** Renamed with tags of the same length, CPU sections of different checkpoints never coincide. */
  lemma {:induction false} TagsAgree(s: string, t: string, a: string, b: string)
    requires NamesCpu(s) && NamesCpu(t) && |a| == |b| && Rename(s, a) == Rename(t, b)
    ensures a == b
    decreases |s|
  {
    if s[..3] == "cpu" && t[..3] == "cpu" {
      RenameAtCpu(s, a);
      RenameAtCpu(t, b);
    } else if s[..3] == "cpu" {
      RenameAtCpu(s, a);
      RenameElsewhere(t, b);
    } else if t[..3] == "cpu" {
      RenameAtCpu(t, b);
      RenameElsewhere(s, a);
    } else {
      assert Rename(s, a)[1..] == Rename(s[1..], a) && Rename(t, b)[1..] == Rename(t[1..], b);
      TagsAgree(s[1..], t[1..], a, b);
    }
  }

  /** Sections of one checkpoint keep different names. */
  lemma {:induction false} NamesAgree(s: string, t: string, tag: string)
    requires Rename(s, tag) == Rename(t, tag)
    ensures s == t
    decreases |s|
  {
    RenameStart(s, tag);
    RenameStart(t, tag);
    if |s| >= 3 && |t| >= 3 {
      if s[..3] == "cpu" && t[..3] == "cpu" {
        RenameAtCpu(s, tag);
        RenameAtCpu(t, tag);
        NamesAgree(s[3..], t[3..], tag);
        assert s == s[..3] + s[3..] && t == t[..3] + t[3..];
      } else if s[..3] == "cpu" {
        RenameAtCpu(s, tag);
        RenameElsewhere(t, tag);
      } else if t[..3] == "cpu" {
        RenameAtCpu(t, tag);
        RenameElsewhere(s, tag);
      } else {
        assert Rename(s, tag)[1..] == Rename(s[1..], tag) && Rename(t, tag)[1..] == Rename(t[1..], tag);
        NamesAgree(s[1..], t[1..], tag);
        assert s == [s[0]] + s[1..] && t == [t[0]] + t[1..];
      }
    }
  }

  // ----- tags -----

  lemma {:induction false} DecLonger(i: nat, j: nat)
    requires i <= j
    ensures |Dec(i)| <= |Dec(j)|
    decreases j
  {
    if i >= 10 {
      DecLonger(i / 10, j / 10);
    }
  }

  lemma {:induction false} ZeroFillParses(s: string, n: nat)
    requires Digits(s)
    ensures |ZeroFill(s, n)| == |s| + n && Digits(ZeroFill(s, n))
    ensures ParseNat(ZeroFill(s, n)) == ParseNat(s)
  {
    if n > 0 {
      ZeroFillParses(s, n - 1);
      LeadingZero(ZeroFill(s, n - 1));
    }
  }

  lemma {:induction false} LeadingZero(s: string)
    requires Digits(s)
    ensures ParseNat("0" + s) == ParseNat(s)
  {
    var m := |s| - 1;
    assert ("0" + s)[..m + 1] == "0" + s[..m];
    if m == 0 {
      assert ParseNat("0") == Some(0);
      assert "0" + s[..m] == "0";
    } else {
      LeadingZero(s[..m]);
    }
  }

  /** All checkpoints get tags of the same length, and different ones. */
  lemma {:induction false} TagsDiffer(i: nat, j: nat, n: nat)
    requires i < n && j < n
    ensures var width := |Dec(n - 1)|;
            |Tag(i, width)| == |Tag(j, width)| == width && (Tag(i, width) == Tag(j, width) ==> i == j)
  {
    var width := |Dec(n - 1)|;
    TagShape(i, n);
    TagShape(j, n);
  }

  lemma {:induction false} TagShape(i: nat, n: nat)
    requires i < n
    ensures |Tag(i, |Dec(n - 1)|)| == |Dec(n - 1)| && ParseNat(Tag(i, |Dec(n - 1)|)) == Some(i)
  {
    DecLonger(i, n - 1);
    ParsesBack(i);
    ZeroFillParses(Dec(i), |Dec(n - 1)| - |Dec(i)|);
  }

  /** No CPU section of the merged checkpoint stands for two sections of the originals. */
  lemma {:induction false} SectionsStayApart(s: string, t: string, i: nat, j: nat, n: nat)
    requires i < n && j < n && NamesCpu(s) && NamesCpu(t)
    requires Rename(s, Tag(i, |Dec(n - 1)|)) == Rename(t, Tag(j, |Dec(n - 1)|))
    ensures i == j && s == t
  {
    TagsDiffer(i, j, n);
    TagsAgree(s, t, Tag(i, |Dec(n - 1)|), Tag(j, |Dec(n - 1)|));
    NamesAgree(s, t, Tag(i, |Dec(n - 1)|));
  }

  /** A renamed CPU section still names a CPU. */
  lemma {:induction false} RenamedNamesCpu(s: string, tag: string)
    requires NamesCpu(s)
    ensures NamesCpu(Rename(s, tag))
    decreases |s|
  {
    if s[..3] == "cpu" {
      assert Rename(s, tag)[..3] == "cpu";
    } else {
      RenamedNamesCpu(s[1..], tag);
      assert Rename(s, tag)[1..] == Rename(s[1..], tag);
    }
  }

  // ----- sections -----

  /** The pattern of the sections that hold a process's file descriptors. */
  predicate IsFdMap(s: string) {
    && |s| >= 17
    && s[|s| - 17..|s| - 9] == "workload" && s[|s| - 8..] == "FdMap256"
  }

  function WithPid(entries: map<string, string>, name: string, i: nat): map<string, string> {
    if IsFdMap(name) then entries["M5_pid" := Dec(i)] else entries
  }

  /** A CPU section of checkpoint `i`, as it is merged. */
  function MergedCpu(cpts: seq<Checkpoint>, i: nat, sec: Section): Section
    requires i < |cpts|
  {
    Section(Rename(sec.name, Tag(i, |Dec(|cpts| - 1)|)),
            if sec.paddr.Some? then Some(Relocate(cpts, i, sec.paddr.value)) else None,
            WithPid(sec.entries, sec.name, i))
  }

  /** What a CPU section holds after merging: its own entries, but for the process id of the file descriptors, which
      is the number of the checkpoint, and its address behind the pages of the earlier checkpoints. */
  lemma {:induction false} MergedCpuMeaning(cpts: seq<Checkpoint>, i: nat, sec: Section)
    requires i < |cpts|
    ensures var to := MergedCpu(cpts, i, sec);
            && (forall key :: key != "M5_pid" ==>
                  (key in to.entries <==> key in sec.entries)
                  && (key in sec.entries ==> to.entries[key] == sec.entries[key]))
            && (if exists a: string, c: char :: sec.name == a + "workload" + [c] + "FdMap256"
                then "M5_pid" in to.entries && to.entries["M5_pid"] == Dec(i)
                else to.entries == sec.entries)
            && (to.paddr.Some? <==> sec.paddr.Some?)
            && (sec.paddr.Some? ==> to.paddr.value == sec.paddr.value + 4096 * Offset(cpts, i))
  {
    FdMapMeaning(sec.name);
  }

  lemma {:induction false} FdMapMeaning(s: string)
    ensures IsFdMap(s) <==> exists a: string, c: char :: s == a + "workload" + [c] + "FdMap256"
  {
    if IsFdMap(s) {
      FdMapParts(s);
    }
    forall a: string, c: char | s == a + "workload" + [c] + "FdMap256" ensures IsFdMap(s) {
      FdMapHas(s, a, c);
    }
  }

  lemma {:induction false} FdMapParts(s: string)
    requires IsFdMap(s)
    ensures var n := |s|; s == s[..n - 17] + "workload" + [s[n - 9]] + "FdMap256"
  {
    var n := |s|;
    assert s == s[..n - 17] + s[n - 17..n - 9] + [s[n - 9]] + s[n - 8..];
  }

  lemma {:induction false} FdMapHas(s: string, a: string, c: char)
    requires s == a + "workload" + [c] + "FdMap256"
    ensures IsFdMap(s)
  {
    var w, f := "workload", "FdMap256";
    assert |w| == 8 && |f| == 8;
    assert s[|a|..|a| + 8] == w && s[|a| + 9..] == f;
  }

  /** The section that records the size of the memory. */
  const STORE := "system.physmem.store0"

  /** What becomes of one section of checkpoint `i`: only the last checkpoint's other sections are kept, and not the
      two that are written anew. */
  function MergedSection(cpts: seq<Checkpoint>, i: nat, sec: Section): seq<Section>
    requires i < |cpts|
  {
    if NamesCpu(sec.name) then [MergedCpu(cpts, i, sec)]
    else if sec.name == "system" || sec.name == "Globals" then []
    else if i == |cpts| - 1 then [sec] else []
  }

  /** What becomes of each section of checkpoint `i`. */
  function Parts(cpts: seq<Checkpoint>, i: nat): seq<seq<Section>>
    requires i < |cpts|
  {
    seq(|cpts[i].sections|, k requires 0 <= k < |cpts[i].sections| => MergedSection(cpts, i, cpts[i].sections[k]))
  }

  /** The first `n` parts, joined. */
  function Joined(parts: seq<seq<Section>>, n: nat): seq<Section>
    requires n <= |parts|
  {
    if n == 0 then [] else Joined(parts, n - 1) + parts[n - 1]
  }

  /** What becomes of all sections of checkpoint `i`. */
  function MergedOf(cpts: seq<Checkpoint>, i: nat): seq<Section>
    requires i < |cpts|
  {
    Joined(Parts(cpts, i), |cpts[i].sections|)
  }

  function AllParts(cpts: seq<Checkpoint>): seq<seq<Section>> {
    seq(|cpts|, i requires 0 <= i < |cpts| => MergedOf(cpts, i))
  }

  /** The sections of the merged checkpoint. */
  function MergedSections(cpts: seq<Checkpoint>): seq<Section> {
    Joined(AllParts(cpts), |cpts|)
  }

  ghost predicate IsPart(cpts: seq<Checkpoint>, parts: seq<seq<Section>>, i: nat) {
    i < |cpts| && i < |parts| && parts[i] == MergedOf(cpts, i)
  }

  ghost predicate ArePartsOf(cpts: seq<Checkpoint>, parts: seq<seq<Section>>) {
    |parts| == |cpts| && forall i {:trigger IsPart(cpts, parts, i)} :: 0 <= i < |cpts| ==> IsPart(cpts, parts, i)
  }

  lemma {:induction false} AllPartsAre(cpts: seq<Checkpoint>)
    ensures ArePartsOf(cpts, AllParts(cpts))
  {
  }

  lemma {:induction false} JoinedOrigin(parts: seq<seq<Section>>, n: nat, out: Section) returns (k: nat)
    requires n <= |parts| && out in Joined(parts, n)
    ensures k < n && out in parts[k]
  {
    if out in Joined(parts, n - 1) {
      k := JoinedOrigin(parts, n - 1, out);
    } else {
      k := n - 1;
    }
  }

  lemma {:induction false} JoinedHolds(parts: seq<seq<Section>>, n: nat, out: Section, k: nat)
    requires k < n <= |parts| && out in parts[k]
    ensures out in Joined(parts, n)
  {
    if k < n - 1 {
      JoinedHolds(parts, n - 1, out, k);
    }
  }

  /** `out` is what the merged checkpoint holds of section `k` of checkpoint `i`. */
  ghost predicate ComesFrom(cpts: seq<Checkpoint>, out: Section, i: nat, k: nat) {
    && i < |cpts| && k < |cpts[i].sections|
    && out in MergedSection(cpts, i, cpts[i].sections[k])
  }

  lemma {:induction false} MergedOrigin(cpts: seq<Checkpoint>, i: nat, out: Section) returns (k: nat)
    requires i < |cpts| && out in MergedOf(cpts, i)
    ensures ComesFrom(cpts, out, i, k)
  {
    k := JoinedOrigin(Parts(cpts, i), |cpts[i].sections|, out);
  }

  lemma {:induction false} MergedHolds(cpts: seq<Checkpoint>, out: Section, i: nat, k: nat)
    requires ComesFrom(cpts, out, i, k)
    ensures out in MergedOf(cpts, i) && out in MergedSections(cpts)
  {
    assert out in Parts(cpts, i)[k];
    JoinedHolds(Parts(cpts, i), |cpts[i].sections|, out, k);
    assert out in AllParts(cpts)[i];
    JoinedHolds(AllParts(cpts), |cpts|, out, i);
  }

  /** The merged checkpoint holds exactly the CPU sections of all checkpoints, renamed and relocated, and the
      other sections of the last one. */
  lemma {:induction false} MergedMember(cpts: seq<Checkpoint>, out: Section)
    ensures out in MergedSections(cpts) <==>
            exists i, k :: 0 <= i < |cpts| && 0 <= k && ComesFrom(cpts, out, i, k)
  {
    if out in MergedSections(cpts) {
      var i := JoinedOrigin(AllParts(cpts), |cpts|, out);
      var k := MergedOrigin(cpts, i, out);
    } else {
      forall i, k | 0 <= i < |cpts| && 0 <= k ensures !ComesFrom(cpts, out, i, k) {
        if ComesFrom(cpts, out, i, k) {
          MergedHolds(cpts, out, i, k);
        }
      }
    }
  }

  // ----- names -----

  ghost predicate NamesDiffer(sections: seq<Section>) {
    forall k, l :: 0 <= k < l < |sections| ==> sections[k].name != sections[l].name
  }

  ghost predicate AllDiffer(cpts: seq<Checkpoint>) {
    forall i {:trigger NamesDiffer(cpts[i].sections)} :: 0 <= i < |cpts| ==> NamesDiffer(cpts[i].sections)
  }

  ghost predicate Apart(a: seq<Section>, b: seq<Section>) {
    forall x, y :: x in a && y in b ==> x.name != y.name
  }

  /** No name occurs twice in a part or in two parts. */
  ghost predicate PartsDiffer(parts: seq<seq<Section>>) {
    && (forall k {:trigger NamesDiffer(parts[k])} :: 0 <= k < |parts| ==> NamesDiffer(parts[k]))
    && forall k, l {:trigger Apart(parts[k], parts[l])} :: 0 <= k < l < |parts| ==> Apart(parts[k], parts[l])
  }

  lemma {:induction false} ConcatDiffers(a: seq<Section>, b: seq<Section>)
    requires NamesDiffer(a) && NamesDiffer(b) && Apart(a, b)
    ensures NamesDiffer(a + b)
  {
    forall k, l | 0 <= k < l < |a + b| ensures (a + b)[k].name != (a + b)[l].name {
      if k < |a| <= l {
        assert a[k] in a && b[l - |a|] in b;
      }
    }
  }

  lemma {:induction false} JoinedApart(parts: seq<seq<Section>>, n: nat)
    requires n < |parts| && PartsDiffer(parts)
    ensures Apart(Joined(parts, n), parts[n])
  {
    forall x, y | x in Joined(parts, n) && y in parts[n] ensures x.name != y.name {
      var k := JoinedOrigin(parts, n, x);
      assert Apart(parts[k], parts[n]);
    }
  }

  lemma {:induction false} JoinedDiffer(parts: seq<seq<Section>>, n: nat)
    requires n <= |parts| && PartsDiffer(parts)
    ensures NamesDiffer(Joined(parts, n))
  {
    if n > 0 {
      JoinedDiffer(parts, n - 1);
      JoinedApart(parts, n - 1);
      assert NamesDiffer(parts[n - 1]);
      ConcatDiffers(Joined(parts, n - 1), parts[n - 1]);
    }
  }

  /** The name of section `s` of checkpoint `i` among `n`, in the merged checkpoint. */
  function NewName(s: string, i: nat, n: nat): string
    requires i < n
  {
    if NamesCpu(s) then Rename(s, Tag(i, |Dec(n - 1)|)) else s
  }

  lemma {:induction false} NewNameCpu(s: string, i: nat, n: nat)
    requires i < n
    ensures NamesCpu(s) <==> NamesCpu(NewName(s, i, n))
  {
    if NamesCpu(s) {
      RenamedNamesCpu(s, Tag(i, |Dec(n - 1)|));
    }
  }

  /** What a merged section says of the one it comes from. */
  lemma {:induction false} MergedName(cpts: seq<Checkpoint>, out: Section, i: nat, k: nat)
    requires ComesFrom(cpts, out, i, k)
    ensures out.name == NewName(cpts[i].sections[k].name, i, |cpts|)
    ensures NamesCpu(cpts[i].sections[k].name) || i == |cpts| - 1
  {
  }

  /** Sections that get the same name are the same section of the same checkpoint. */
  lemma {:induction false} NewNamesDiffer(s: string, t: string, i: nat, j: nat, n: nat)
    requires i < n && j < n && NewName(s, i, n) == NewName(t, j, n)
    requires (NamesCpu(s) || i == n - 1) && (NamesCpu(t) || j == n - 1)
    ensures i == j && s == t
  {
    NewNameCpu(s, i, n);
    NewNameCpu(t, j, n);
    if NamesCpu(s) {
      SectionsStayApart(s, t, i, j, n);
    }
  }

  /** Merged sections of one name come from the same section. */
  lemma {:induction false} SameOrigin(cpts: seq<Checkpoint>, a: Section, b: Section, i: nat, k: nat, j: nat, l: nat)
    requires ComesFrom(cpts, a, i, k) && ComesFrom(cpts, b, j, l) && a.name == b.name
    requires AllDiffer(cpts)
    ensures i == j && k == l
  {
    MergedName(cpts, a, i, k);
    MergedName(cpts, b, j, l);
    NewNamesDiffer(cpts[i].sections[k].name, cpts[j].sections[l].name, i, j, |cpts|);
    assert NamesDiffer(cpts[i].sections);
  }

  lemma {:induction false} OneCheckpointDiffers(cpts: seq<Checkpoint>, i: nat)
    requires i < |cpts| && AllDiffer(cpts)
    ensures NamesDiffer(MergedOf(cpts, i))
  {
    var parts := Parts(cpts, i);
    forall k, l | 0 <= k < l < |parts| ensures Apart(parts[k], parts[l]) {
      forall x: Section, y: Section | x in parts[k] && y in parts[l] ensures x.name != y.name {
        assert ComesFrom(cpts, x, i, k) && ComesFrom(cpts, y, i, l);
        if x.name == y.name {
          SameOrigin(cpts, x, y, i, k, i, l);
        }
      }
    }
    JoinedDiffer(parts, |parts|);
  }

  /** If no checkpoint has two sections of one name, neither has the merged one. */
  lemma {:induction false} NoSectionTwice(cpts: seq<Checkpoint>)
    requires AllDiffer(cpts)
    ensures NamesDiffer(MergedSections(cpts))
  {
    var parts := AllParts(cpts);
    forall i | 0 <= i < |parts| ensures NamesDiffer(parts[i]) {
      OneCheckpointDiffers(cpts, i);
    }
    forall i, j | 0 <= i < j < |parts| ensures Apart(parts[i], parts[j]) {
      forall x: Section, y: Section | x in parts[i] && y in parts[j] ensures x.name != y.name {
        var k := MergedOrigin(cpts, i, x);
        var l := MergedOrigin(cpts, j, y);
        if x.name == y.name {
          SameOrigin(cpts, x, y, i, k, j, l);
        }
      }
    }
    JoinedDiffer(parts, |parts|);
  }

  // ----- the section of the memory -----

  predicate HasSection(sections: seq<Section>, name: string) {
    exists sec :: sec in sections && sec.name == name
  }

  lemma {:induction false} CpuHasC(s: string)
    requires NamesCpu(s)
    ensures 'c' in s
  {
    if s[..3] == "cpu" {
      assert s[..3][0] == s[0];
    } else {
      CpuHasC(s[1..]);
    }
  }

  /** A section that is neither of a CPU nor written anew. */
  predicate Kept(name: string) {
    !NamesCpu(name) && name != "system" && name != "Globals"
  }

  lemma {:induction false} StoreKept()
    ensures Kept(STORE)
  {
    if NamesCpu(STORE) {
      CpuHasC(STORE);
    }
  }

  lemma {:induction false} KeptAfter(cpts: seq<Checkpoint>, name: string)
    requires cpts != [] && Kept(name) && HasSection(MergedOf(cpts, |cpts| - 1), name)
    ensures HasSection(cpts[|cpts| - 1].sections, name)
  {
    var out :| out in MergedOf(cpts, |cpts| - 1) && out.name == name;
    var k := MergedOrigin(cpts, |cpts| - 1, out);
    MergedName(cpts, out, |cpts| - 1, k);
    NewNameCpu(cpts[|cpts| - 1].sections[k].name, |cpts| - 1, |cpts|);
    assert cpts[|cpts| - 1].sections[k] in cpts[|cpts| - 1].sections;
  }

  lemma {:induction false} KeptBefore(cpts: seq<Checkpoint>, name: string)
    requires cpts != [] && Kept(name) && HasSection(cpts[|cpts| - 1].sections, name)
    ensures HasSection(MergedOf(cpts, |cpts| - 1), name)
  {
    var sec :| sec in cpts[|cpts| - 1].sections && sec.name == name;
    var k :| 0 <= k < |cpts[|cpts| - 1].sections| && cpts[|cpts| - 1].sections[k] == sec;
    assert ComesFrom(cpts, sec, |cpts| - 1, k);
    MergedHolds(cpts, sec, |cpts| - 1, k);
  }

  /** What is merged of the last checkpoint has a section that is kept if and only if the checkpoint has. */
  lemma {:induction false} KeptExactlyWhen(cpts: seq<Checkpoint>, parts: seq<seq<Section>>, name: string)
    requires cpts != [] && ArePartsOf(cpts, parts) && Kept(name)
    ensures HasSection(parts[|parts| - 1], name) <==> HasSection(cpts[|cpts| - 1].sections, name)
  {
    assert IsPart(cpts, parts, |cpts| - 1);
    if HasSection(MergedOf(cpts, |cpts| - 1), name) {
      KeptAfter(cpts, name);
    }
    if HasSection(cpts[|cpts| - 1].sections, name) {
      KeptBefore(cpts, name);
    }
  }

  /** Every CPU section is found again under its new name, and if all checkpoints hold the pages they claim, its
      new address finds in the merged memory what its old one found in its own checkpoint. */
  lemma {:induction false} CpuSectionsPreserved(cpts: seq<Checkpoint>, m: Merged, i: nat, k: nat)
    requires i < |cpts| && k < |cpts[i].sections| && NamesCpu(cpts[i].sections[k].name)
    requires m.sections == MergedSections(cpts) && Contents(cpts, |cpts|) <= m.memory
    requires forall j :: 0 <= j < |cpts| ==> Complete(cpts[j])
    ensures MergedCpu(cpts, i, cpts[i].sections[k]) in m.sections
    ensures var from, to := cpts[i].sections[k].paddr, MergedCpu(cpts, i, cpts[i].sections[k]).paddr;
            from.Some? && 0 <= from.value < PAGE * cpts[i].pages ==>
              && to.Some? && 0 <= to.value < |m.memory| && from.value < |cpts[i].memory|
              && m.memory[to.value] == cpts[i].memory[from.value]
  {
    var sec := cpts[i].sections[k];
    assert ComesFrom(cpts, MergedCpu(cpts, i, sec), i, k);
    MergedHolds(cpts, MergedCpu(cpts, i, sec), i, k);
    assert Complete(cpts[i]);
    if sec.paddr.Some? && 0 <= sec.paddr.value < PAGE * cpts[i].pages {
      RelocationIsFaithful(cpts, i, sec.paddr.value);
    }
  }

  // ----- the aggregation as it is carried out -----

  /** Fails, after the memory is written, when the last checkpoint has no section for the memory's size, and when
      there is no checkpoint at all. */
  method Aggregate(cpts: seq<Checkpoint>, memorySize: nat) returns (r: Option<Merged>)
    ensures r.Some? <==> cpts != [] && HasSection(cpts[|cpts| - 1].sections, STORE)
    ensures r.Some? ==> Latest(r.value.curTick, cpts)
    ensures r.Some? ==>
              var m, padding := r.value, Padding(PAGE * Offset(cpts, |cpts|), memorySize);
              && m.pagePtr == Offset(cpts, |cpts|) && m.nextPID == |cpts| && m.curTick == MaxTick(cpts, |cpts|)
              && m.sections == MergedSections(cpts)
              && m.memory == Contents(cpts, |cpts|) + Filler(PAGE * padding)
              && m.rangeSize == PAGE * (m.pagePtr + padding)
  {
    ghost var parts := AllParts(cpts);
    AllPartsAre(cpts);
    var pagePtr, maxTick, memory, sections, config := MergeAll(cpts, parts);
    if cpts == [] {
      return None;
    }
    var padded, total := PadMemory(memory, pagePtr, memorySize);
    StoreKept();
    KeptExactlyWhen(cpts, parts, STORE);
    if !HasSection(config, STORE) {
      return None;
    }
    MaxTickIsLatest(cpts, |cpts|);
    assert cpts[..|cpts|] == cpts;
    r := Some(Merged(padded, pagePtr, total * 4 * 1024, |cpts|, maxTick, sections));
  }

  lemma {:induction false} NextSection(cpts: seq<Checkpoint>, i: nat, k: nat)
    requires i < |cpts| && k < |cpts[i].sections|
    ensures Joined(Parts(cpts, i), k + 1)
            == Joined(Parts(cpts, i), k) + MergedSection(cpts, i, cpts[i].sections[k])
  {
  }

  /** Goes through the checkpoints; `config` is what is merged of the last one. */
  method MergeAll(cpts: seq<Checkpoint>, ghost parts: seq<seq<Section>>)
    returns (pagePtr: nat, maxTick: int, memory: seq<Byte>, sections: seq<Section>, config: seq<Section>)
    requires ArePartsOf(cpts, parts)
    ensures pagePtr == Offset(cpts, |cpts|) && maxTick == MaxTick(cpts, |cpts|) && memory == Contents(cpts, |cpts|)
    ensures sections == Joined(parts, |parts|)
    ensures config == if parts == [] then [] else parts[|parts| - 1]
  {
    pagePtr, maxTick, memory, sections, config := 0, 0, [], [], [];
    for i := 0 to |cpts|
      invariant pagePtr == Offset(cpts, i) && maxTick == MaxTick(cpts, i) && memory == Contents(cpts, i)
      invariant sections == Joined(parts, i)
      invariant config == if i == 0 then [] else parts[i - 1]
    {
      config := MergeConfig(cpts, i, pagePtr, parts);
      sections := sections + config;
      maxTick, pagePtr, memory := MergeMemory(cpts, i, maxTick, pagePtr, memory);
    }
  }

  /** Adds the tick and the pages of checkpoint `i`. */
  method MergeMemory(cpts: seq<Checkpoint>, i: nat, tick: int, pages: nat, before: seq<Byte>)
    returns (maxTick: int, pagePtr: nat, memory: seq<Byte>)
    requires i < |cpts| && tick == MaxTick(cpts, i) && pages == Offset(cpts, i) && before == Contents(cpts, i)
    ensures maxTick == MaxTick(cpts, i + 1) && pagePtr == Offset(cpts, i + 1) && memory == Contents(cpts, i + 1)
  {
    maxTick := if cpts[i].curTick > tick then cpts[i].curTick else tick;
    pagePtr := pages + cpts[i].pages;
    var taken := ReadPages(cpts[i].memory, cpts[i].pages);
    memory := before + taken;
  }

  /** Appends filling pages until the memory is large enough. */
  method PadMemory(memory: seq<Byte>, pagePtr: nat, memorySize: nat) returns (padded: seq<Byte>, total: nat)
    ensures total == pagePtr + Padding(PAGE * pagePtr, memorySize)
    ensures padded == memory + Filler(PAGE * Padding(PAGE * pagePtr, memorySize))
  {
    var fileSize := pagePtr * 4 * 1024;
    padded, total := memory, pagePtr;
    while fileSize < memorySize
      invariant fileSize == total * PAGE && pagePtr <= total
      invariant padded == memory + Filler(PAGE * (total - pagePtr))
      invariant total + Padding(fileSize, memorySize) == pagePtr + Padding(PAGE * pagePtr, memorySize)
      decreases memorySize - fileSize
    {
      padded := padded + Filler(PAGE);
      fileSize := fileSize + 4 * 1024;
      total := total + 1;
    }
  }

  method MergeConfig(cpts: seq<Checkpoint>, i: nat, pagePtr: nat, ghost parts: seq<seq<Section>>)
    returns (config: seq<Section>)
    requires i < |cpts| && pagePtr == Offset(cpts, i) && ArePartsOf(cpts, parts)
    ensures config == parts[i]
  {
    assert IsPart(cpts, parts, i);
    config := MergeSections(cpts, i, pagePtr);
  }

  /** Copies the sections of one checkpoint, whose memory comes after `pagePtr` pages. */
  method MergeSections(cpts: seq<Checkpoint>, i: nat, pagePtr: nat) returns (merged: seq<Section>)
    requires i < |cpts| && pagePtr == Offset(cpts, i)
    ensures merged == MergedOf(cpts, i)
  {
    merged := [];
    for k := 0 to |cpts[i].sections|
      invariant merged == Joined(Parts(cpts, i), k)
    {
      var more := MergeSection(cpts, i, pagePtr, cpts[i].sections[k]);
      NextSection(cpts, i, k);
      merged := merged + more;
    }
  }

  /** Copies one section. */
  method MergeSection(cpts: seq<Checkpoint>, i: nat, pagePtr: nat, sec: Section) returns (merged: seq<Section>)
    requires i < |cpts| && pagePtr == Offset(cpts, i)
    ensures merged == MergedSection(cpts, i, sec)
  {
    merged := [];
    if NamesCpu(sec.name) {
      var copy := sec.(name := Rename(sec.name, Tag(i, |Dec(|cpts| - 1)|)));
      if sec.paddr.Some? {
        copy := copy.(paddr := Some(sec.paddr.value + pagePtr * PAGE));
      }
      if IsFdMap(sec.name) {
        copy := copy.(entries := copy.entries["M5_pid" := Dec(i)]);
      }
      merged := [copy];
    } else if sec.name != "system" && sec.name != "Globals" && i == |cpts| - 1 {
      merged := [sec];
    }
  }

  /** Reads a compressed memory page by page. */
  method ReadPages(memory: seq<Byte>, pages: nat) returns (taken: seq<Byte>)
    ensures taken == Take(memory, PAGE * pages)
  {
    taken := [];
    for x := 0 to pages
      invariant taken == Take(memory, PAGE * x)
    {
      var rest := memory[|taken|..];
      taken := taken + Take(rest, PAGE);
    }
  }
}
