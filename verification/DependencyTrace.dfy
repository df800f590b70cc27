/** The text form of instruction dependency records: a printer and a parser that undo each other. */
module DependencyTrace {
  import opened Collections
  import opened Text

  // ----- splitting and joining -----

  /** Python's `s.split(c)`: one part more than there are separators. */
  function Split(s: string, c: char): (parts: seq<string>)
    ensures parts != []
  {
    if s == "" then [""]
    else if s[0] == c then [""] + Split(s[1..], c)
    else
      var rest := Split(s[1..], c);
      [[s[0]] + rest[0]] + rest[1..]
  }

  function Join(parts: seq<string>, c: char): string
    requires parts != []
  {
    var m := |parts| - 1;
    if m == 0 then parts[0] else Join(parts[..m], c) + [c] + parts[m]
  }

  lemma {:induction false} SplitWhole(b: string, c: char)
    requires c !in b
    ensures Split(b, c) == [b]
  {
    if b != "" {
      SplitWhole(b[1..], c);
      assert [b[0]] + b[1..] == b;
    }
  }

  lemma {:induction false} SplitAppend(a: string, b: string, c: char)
    requires c !in b
    ensures Split(a + [c] + b, c) == Split(a, c) + [b]
  {
    var s := a + [c] + b;
    if a == "" {
      SplitWhole(b, c);
      assert s[1..] == b;
    } else {
      SplitAppend(a[1..], b, c);
      assert s[1..] == a[1..] + [c] + b;
    }
  }

  lemma {:induction false} SplitJoin(parts: seq<string>, c: char)
    requires parts != [] && forall i :: 0 <= i < |parts| ==> c !in parts[i]
    ensures Split(Join(parts, c), c) == parts
  {
    var m := |parts| - 1;
    if m == 0 {
      SplitWhole(parts[0], c);
    } else {
      SplitJoin(parts[..m], c);
      SplitAppend(Join(parts[..m], c), parts[m], c);
    }
  }

  // ----- blanks -----

  /** White space among the ASCII characters. */
  predicate Blank(c: char) {
    9 <= c as int <= 13 || 28 <= c as int <= 32
  }

  function StripLeft(s: string): string {
    if s != "" && Blank(s[0]) then StripLeft(s[1..]) else s
  }

  function StripRight(s: string): string {
    if s != "" && Blank(s[|s| - 1]) then StripRight(s[..|s| - 1]) else s
  }

  function Strip(s: string): string {
    StripRight(StripLeft(s))
  }

  // ----- reading numbers -----

  /** Underscores separate digits. */
  predicate Grouped(s: string) {
    && s != "" && s[0] != '_' && s[|s| - 1] != '_'
    && forall i :: 0 < i < |s| ==> !(s[i - 1] == '_' && s[i] == '_')
  }

  function NotUnderscore(): char -> bool {
    (c: char) => c != '_'
  }

  /** A number without a sign. */
  function ParseUnsigned(s: string): Option<nat> {
    if Grouped(s) then ParseNat(Keep(NotUnderscore(), s)) else None
  }

  /** Python's `int(s)`: blanks around it, a sign and underscores between digits are allowed. */
  function ParseInt(s: string): Option<int> {
    var t := Strip(s);
    if t != "" && (t[0] == '+' || t[0] == '-') then
      match ParseUnsigned(t[1..])
      case None => None
      case Some(v) =>
        var signed: int := if t[0] == '-' then 0 - v else v;
        Some(signed)
    else
      match ParseUnsigned(t)
      case None => None
      case Some(v) => Some(v)
  }

  const U64_BOUND: nat := 0x1_0000_0000_0000_0000
  const U32_BOUND: nat := 0x1_0000_0000

  type U64 = n: nat | n < U64_BOUND

  type U32 = n: nat | n < U32_BOUND

  /** A field of a message only takes numbers in its range. */
  function ParseU64(s: string): Option<U64> {
    match ParseInt(s)
    case None => None
    case Some(v) => if 0 <= v < U64_BOUND then Some(v) else None
  }

  function ParseU32(s: string): Option<U32> {
    match ParseInt(s)
    case None => None
    case Some(v) => if 0 <= v < U32_BOUND then Some(v) else None
  }

  lemma {:induction false} ParsesInt(n: nat)
    ensures ParseInt(Dec(n)) == Some(n)
  {
    var s := Dec(n);
    ParsesBack(n);
    StripPlain(s);
    assert forall i :: 0 <= i < |s| ==> s[i] != '_';
    KeepAll(NotUnderscore(), s);
  }

  lemma {:induction false} ParsesU64(n: U64)
    ensures ParseU64(Dec(n)) == Some(n)
  {
    ParsesInt(n);
  }

  lemma {:induction false} ParsesU32(n: U32)
    ensures ParseU32(Dec(n)) == Some(n)
  {
    ParsesInt(n);
  }

  // ----- what is taken for a number -----

  ghost predicate Blanks(s: string) {
    forall i :: 0 <= i < |s| ==> Blank(s[i])
  }

  lemma {:induction false} StripLeftMeaning(s: string) returns (a: string)
    ensures s == a + StripLeft(s) && Blanks(a) && (StripLeft(s) != "" ==> !Blank(StripLeft(s)[0]))
  {
    a := "";
    if s != "" && Blank(s[0]) {
      var b := StripLeftMeaning(s[1..]);
      a := [s[0]] + b;
      assert s == [s[0]] + s[1..];
    }
  }

  lemma {:induction false} StripRightMeaning(s: string) returns (b: string)
    ensures s == StripRight(s) + b && Blanks(b)
    ensures var t := StripRight(s); t != "" ==> !Blank(t[|t| - 1]) && t[0] == s[0]
  {
    b := "";
    if s != "" && Blank(s[|s| - 1]) {
      var a := StripRightMeaning(s[..|s| - 1]);
      b := a + [s[|s| - 1]];
      SplitLast(s);
    }
  }

  /** Stripping removes blanks at both ends and nothing else. */
  lemma {:induction false} StripMeaning(s: string) returns (a: string, b: string)
    ensures s == a + Strip(s) + b && Blanks(a) && Blanks(b)
    ensures var t := Strip(s); t != "" ==> !Blank(t[0]) && !Blank(t[|t| - 1])
  {
    a := StripLeftMeaning(s);
    b := StripRightMeaning(StripLeft(s));
  }

  lemma {:induction false} PlainDigits(s: string)
    requires Digits(s)
    ensures ParseUnsigned(s) == ParseNat(s) && Strip(s) == s && s[0] != '+' && s[0] != '-'
  {
    assert forall i :: 0 <= i < |s| ==> IsDigit(s[i]);
    KeepAll(NotUnderscore(), s);
  }

  lemma {:induction false} Unblanked(s: string)
    requires s != "" && !Blank(s[0]) && !Blank(s[|s| - 1])
    ensures Strip(s) == s
  {
  }

  /** A sign makes the number negative or leaves it alone. */
  lemma {:induction false} SignedDigits(c: char, d: string)
    requires (c == '-' || c == '+') && Digits(d)
    ensures ParseInt([c] + d)
            == match ParseNat(d)
               case None => None
               case Some(v) => Some(if c == '-' then 0 - v else v)
  {
    var s := [c] + d;
    assert s[|s| - 1] == d[|d| - 1] && IsDigit(d[|d| - 1]);
    Unblanked(s);
    assert s[1..] == d;
    PlainDigits(d);
  }

  lemma {:induction false} LooseUnderscore(s: string)
    requires s != "" && (s[0] == '_' || s[|s| - 1] == '_') && Strip(s) == s && s[0] != '+' && s[0] != '-'
    ensures ParseInt(s) == None
  {
  }

  /** An underscore has to stand between digits. */
  lemma {:induction false} UnderscoreEnds(d: string)
    requires d != "" && IsDigit(d[0]) && IsDigit(d[|d| - 1])
    ensures ParseInt("_" + d) == None && ParseInt(d + "_") == None
  {
    var a, b := "_" + d, d + "_";
    assert a[0] == '_' && a[|a| - 1] == d[|d| - 1] && b[0] == d[0] && b[|b| - 1] == '_';
    Unblanked(a);
    Unblanked(b);
    LooseUnderscore(a);
    LooseUnderscore(b);
  }

  /** A field takes exactly the numbers in its range. */
  lemma {:induction false} RangeMeaning(n: nat)
    ensures ParseU64(Dec(n)) == if n < 0x1_0000_0000_0000_0000 then Some(n) else None
    ensures ParseU32(Dec(n)) == if n < 0x1_0000_0000 then Some(n) else None
  {
    ParsesInt(n);
  }

  // ----- records -----

  datatype Record = Record(seqNum: U64, recType: nat, pAddr: Option<U64>, size: Option<U32>, flags: Option<U32>,
                           robDep: seq<U64>, compDelay: U64, regDep: seq<U64>, weight: Option<U32>, pc: Option<U64>,
                           vAddr: Option<U64>, asid: Option<U32>)

  const INVALID: nat := 0
  const LOAD: nat := 1
  const STORE: nat := 2
  const COMP: nat := 3

  function TypeName(t: nat): Option<string> {
    if t == INVALID then Some("INVALID") else if t == LOAD then Some("LOAD")
    else if t == STORE then Some("STORE") else if t == COMP then Some("COMP") else None
  }

  function TypeValue(name: string): Option<nat> {
    if name == "INVALID" then Some(INVALID) else if name == "LOAD" then Some(LOAD)
    else if name == "STORE" then Some(STORE) else if name == "COMP" then Some(COMP) else None
  }

  function OrElse(o: Option<nat>, default: nat): nat {
    if o.Some? then o.value else default
  }

  function Optional(o: Option<nat>): seq<string> {
    if o.Some? then [Dec(o.value)] else []
  }

  /** The fields before the first colon. */
  function Fields(r: Record, name: string): seq<string> {
    [Dec(r.seqNum), Dec(OrElse(r.pc, 0)), Dec(OrElse(r.weight, 1)), name]
    + Optional(r.pAddr) + Optional(r.size) + Optional(r.flags) + [Dec(r.compDelay)]
  }

  /** An empty part before the first comma, then one part per dependency. */
  function DepParts(ds: seq<U64>): seq<string> {
    if ds == [] then [""] else DepParts(ds[..|ds| - 1]) + [Dec(ds[|ds| - 1])]
  }

  function Line(r: Record, name: string): string {
    Join(Fields(r, name), ',') + ":" + Join(DepParts(r.robDep), ',') + ":" + Join(DepParts(r.regDep), ',') + "\n"
  }

  /** The printed line, or nothing for an unknown type. */
  function Print(r: Record): Option<string> {
    match TypeName(r.recType)
    case None => None
    case Some(name) => Some(Line(r, name))
  }

  /** Appends each dependency. */
  function ParseDeps(parts: seq<string>): Option<seq<U64>> {
    if parts == [] then Some([]) else
      var m := |parts| - 1;
      match ParseDeps(parts[..m])
      case None => None
      case Some(ds) =>
        if parts[m] == "" then Some(ds)
        else
          match ParseU64(parts[m])
          case None => None
          case Some(d) => Some(ds + [d])
  }

  /** Sequence number, program counter and weight. */
  function ParseHead(f: seq<string>): Option<(U64, U64, U32)>
    requires |f| >= 3
  {
    var n, pc, w := ParseU64(f[0]), ParseU64(f[1]), ParseU32(f[2]);
    if n == None || pc == None || w == None then None else Some((n.value, pc.value, w.value))
  }

  /** Address, size, flags and delay of a load or store. */
  function ParseMemory(f: seq<string>): Option<(U64, U32, U32, U64)>
    requires |f| >= 8
  {
    var a, s, fl, c := ParseU64(f[4]), ParseU32(f[5]), ParseU32(f[6]), ParseU64(f[7]);
    if a == None || s == None || fl == None || c == None then None else Some((a.value, s.value, fl.value, c.value))
  }

  /** The record without its dependencies. */
  function ParseFields(f: seq<string>): Option<Record> {
    if |f| < 4 then None else
      var h, t := ParseHead(f), TypeValue(f[3]);
      if h == None || t == None || t.value == INVALID then None
      else if t.value == LOAD || t.value == STORE then
        if |f| < 8 || ParseMemory(f) == None then None else
          var (a, s, fl, c) := ParseMemory(f).value;
          Some(Record(h.value.0, t.value, Some(a), Some(s), Some(fl), [], c, [], Some(h.value.2), Some(h.value.1),
                      None, None))
      else if |f| < 5 || ParseU64(f[4]) == None then None
      else Some(Record(h.value.0, t.value, None, None, None, [], ParseU64(f[4]).value, [], Some(h.value.2),
                       Some(h.value.1), None, None))
  }

  function Parse(line: string): Option<Record> {
    var parts := Split(Strip(line), ':');
    if |parts| != 3 then None else
      match ParseFields(Split(parts[0], ','))
      case None => None
      case Some(r) =>
        var rob, reg := ParseDeps(Split(Strip(parts[1]), ',')), ParseDeps(Split(parts[2], ','));
        if rob == None || reg == None then None else Some(r.(robDep := rob.value, regDep := reg.value))
  }

  // ----- characters of a printed line -----

  /** No comma, colon or blank. */
  ghost predicate Plain(s: string) {
    forall i :: 0 <= i < |s| ==> s[i] != ',' && s[i] != ':' && !Blank(s[i])
  }

  ghost predicate AllPlain(parts: seq<string>) {
    forall i :: 0 <= i < |parts| ==> Plain(parts[i])
  }

  ghost predicate NoColonOrBlank(s: string) {
    forall i :: 0 <= i < |s| ==> s[i] != ':' && !Blank(s[i])
  }

  lemma {:induction false} JoinChars(parts: seq<string>)
    requires parts != [] && AllPlain(parts)
    ensures NoColonOrBlank(Join(parts, ','))
  {
    var m := |parts| - 1;
    if m > 0 {
      JoinChars(parts[..m]);
    }
  }

  lemma {:induction false} JoinedParts(parts: seq<string>)
    requires parts != [] && AllPlain(parts)
    ensures NoColonOrBlank(Join(parts, ',')) && Split(Join(parts, ','), ',') == parts
    ensures Strip(Join(parts, ',')) == Join(parts, ',')
  {
    JoinChars(parts);
    SplitJoin(parts, ',');
    StripPlain(Join(parts, ','));
  }

  lemma {:induction false} DecPlain(n: nat)
    ensures Plain(Dec(n)) && Dec(n) != ""
  {
    ParsesBack(n);
  }

  lemma {:induction false} FieldsPlain(r: Record)
    requires TypeName(r.recType).Some?
    ensures AllPlain(Fields(r, TypeName(r.recType).value))
  {
    DecPlain(r.seqNum);
    DecPlain(OrElse(r.pc, 0));
    DecPlain(OrElse(r.weight, 1));
    DecPlain(r.compDelay);
    OptionalPlain(r.pAddr);
    OptionalPlain(r.size);
    OptionalPlain(r.flags);
    NamePlain(r.recType);
  }

  lemma {:induction false} OptionalPlain(o: Option<nat>)
    ensures AllPlain(Optional(o))
  {
    if o.Some? {
      DecPlain(o.value);
    }
  }

  lemma {:induction false} NamePlain(t: nat)
    requires TypeName(t).Some?
    ensures Plain(TypeName(t).value)
  {
  }

  lemma {:induction false} DepPartsPlain(ds: seq<U64>)
    ensures AllPlain(DepParts(ds))
  {
    if ds != [] {
      DepPartsPlain(ds[..|ds| - 1]);
      DecPlain(ds[|ds| - 1]);
    }
  }

  lemma {:induction false} ParseDepsAppend(parts: seq<string>, d: U64)
    ensures ParseDeps(parts + [Dec(d)])
            == if ParseDeps(parts) == None then None else Some(ParseDeps(parts).value + [d])
  {
    DecPlain(d);
    ParsesU64(d);
    assert (parts + [Dec(d)])[..|parts|] == parts;
  }

  lemma {:induction false} DepPartsParse(ds: seq<U64>)
    ensures ParseDeps(DepParts(ds)) == Some(ds)
  {
    if ds == [] {
      assert [""][..0] == [] && ParseDeps([]) == Some([]);
    } else {
      var init, last := ds[..|ds| - 1], ds[|ds| - 1];
      DepPartsParse(init);
      ParseDepsAppend(DepParts(init), last);
      SplitLast(ds);
    }
  }

  lemma {:induction false} StripPlain(s: string)
    requires s == "" || (!Blank(s[0]) && !Blank(s[|s| - 1]))
    ensures Strip(s) == s
    ensures s != "" ==> Strip(s + "\n") == s
  {
    if s != "" {
      var t := s + "\n";
      assert StripLeft(t) == t;
      assert t[..|t| - 1] == s;
      assert StripRight(t) == StripRight(s) == s;
    }
  }

  /** The three parts of a printed line. */
  lemma {:induction false} LineParts(info: string, rob: string, reg: string)
    requires NoColonOrBlank(info) && NoColonOrBlank(rob) && NoColonOrBlank(reg) && info != ""
    ensures Split(Strip(info + ":" + rob + ":" + reg + "\n"), ':') == [info, rob, reg]
  {
    var s := info + ":" + rob + ":" + reg;
    assert s[0] == info[0];
    assert s[|s| - 1] == if reg == "" then ':' else reg[|reg| - 1];
    StripPlain(s);
    SplitWhole(info, ':');
    SplitAppend(info, rob, ':');
    SplitAppend(info + ":" + rob, reg, ':');
  }

  /** Parsing a printed line parses its fields and restores its dependencies, whatever their number. */
  lemma {:induction false} ParsesLine(r: Record)
    requires TypeName(r.recType).Some?
    ensures var f := ParseFields(Fields(r, TypeName(r.recType).value));
            Parse(Print(r).value) == if f == None then None else Some(f.value.(robDep := r.robDep, regDep := r.regDep))
  {
    var name := TypeName(r.recType).value;
    FieldsPlain(r);
    JoinedParts(Fields(r, name));
    JoinNonEmpty(Fields(r, name));
    DepPartsText(r.robDep);
    DepPartsText(r.regDep);
    LineParts(Join(Fields(r, name), ','), Join(DepParts(r.robDep), ','), Join(DepParts(r.regDep), ','));
  }

  lemma {:induction false} DepPartsText(ds: seq<U64>)
    ensures var text := Join(DepParts(ds), ',');
            NoColonOrBlank(text) && Strip(text) == text && ParseDeps(Split(text, ',')) == Some(ds)
  {
    DepPartsPlain(ds);
    DepPartsParse(ds);
    JoinedParts(DepParts(ds));
  }

  lemma {:induction false} JoinNonEmpty(parts: seq<string>)
    requires |parts| >= 2
    ensures Join(parts, ',') != ""
  {
  }

  // ----- the round trip -----

  /** What parsing can restore: the defaults for a missing pc and weight are written out. */
  function Filled(r: Record): Record {
    r.(pc := Some(OrElse(r.pc, 0)), weight := Some(OrElse(r.weight, 1)))
  }

  /** Loads and stores have all memory fields, computations none, and nothing has fields that are not printed. */
  predicate Shaped(r: Record) {
    && r.vAddr == None && r.asid == None
    && if r.recType == LOAD || r.recType == STORE then r.pAddr.Some? && r.size.Some? && r.flags.Some?
       else r.recType == COMP && r.pAddr == None && r.size == None && r.flags == None
  }

  /** The fields that follow the type. */
  function Tail(r: Record): seq<string> {
    Optional(r.pAddr) + Optional(r.size) + Optional(r.flags) + [Dec(r.compDelay)]
  }

  lemma {:induction false} FieldsShape(r: Record, name: string)
    ensures Fields(r, name) == [Dec(r.seqNum), Dec(OrElse(r.pc, 0)), Dec(OrElse(r.weight, 1)), name] + Tail(r)
    ensures |Tail(r)| == 4 <==> r.pAddr.Some? && r.size.Some? && r.flags.Some?
    ensures |Tail(r)| == 1 <==> r.pAddr == None && r.size == None && r.flags == None
    ensures 1 <= |Tail(r)| <= 4
  {
  }

  lemma {:induction false} TypeParses(t: nat)
    requires TypeName(t).Some?
    ensures TypeValue(TypeName(t).value) == Some(t)
  {
  }

  /** The fields of a load or store. */
  lemma {:induction false} ParsesMemory(f: seq<string>, n: U64, pc: U64, w: U32, t: nat,
                                        a: U64, z: U32, fl: U32, c: U64)
    requires |f| == 8 && f[0] == Dec(n) && f[1] == Dec(pc) && f[2] == Dec(w) && (t == LOAD || t == STORE)
    requires f[3] == TypeName(t).value && f[4] == Dec(a) && f[5] == Dec(z) && f[6] == Dec(fl) && f[7] == Dec(c)
    ensures ParseFields(f) == Some(Record(n, t, Some(a), Some(z), Some(fl), [], c, [], Some(w), Some(pc), None, None))
  {
    TypeParses(t);
    HeadParses(f, n, pc, w);
    MemoryParses(f, a, z, fl, c);
  }

  lemma {:induction false} HeadParses(f: seq<string>, n: U64, pc: U64, w: U32)
    requires |f| >= 3 && f[0] == Dec(n) && f[1] == Dec(pc) && f[2] == Dec(w)
    ensures ParseHead(f) == Some((n, pc, w))
  {
    ParsesU64(n);
    ParsesU64(pc);
    ParsesU32(w);
  }

  lemma {:induction false} MemoryParses(f: seq<string>, a: U64, z: U32, fl: U32, c: U64)
    requires |f| >= 8 && f[4] == Dec(a) && f[5] == Dec(z) && f[6] == Dec(fl) && f[7] == Dec(c)
    ensures ParseMemory(f) == Some((a, z, fl, c))
  {
    ParsesU64(a);
    ParsesU32(z);
    ParsesU32(fl);
    ParsesU64(c);
  }

  /** The fields of a computation. */
  lemma {:induction false} ParsesComputation(f: seq<string>, n: U64, pc: U64, w: U32, c: U64)
    requires |f| == 5 && f[0] == Dec(n) && f[1] == Dec(pc) && f[2] == Dec(w) && f[3] == "COMP" && f[4] == Dec(c)
    ensures ParseFields(f) == Some(Record(n, COMP, None, None, None, [], c, [], Some(w), Some(pc), None, None))
  {
    HeadParses(f, n, pc, w);
    ParsesU64(c);
  }

  /** What is parsed of fields that have the wrong number of entries for their type, if anything. */
  lemma {:induction false} ParsesAmiss(f: seq<string>, t: nat)
    requires |f| >= 5 && TypeName(t).Some? && f[3] == TypeName(t).value
    ensures t == INVALID || ((t == LOAD || t == STORE) && |f| < 8) ==> ParseFields(f) == None
    ensures t == COMP && ParseFields(f).Some? ==>
              var r := ParseFields(f).value; r.pAddr == None && r.size == None && r.flags == None
    ensures ParseFields(f).Some? ==> ParseFields(f).value.vAddr == None && ParseFields(f).value.asid == None
  {
  }

  lemma {:induction false} ShapedParses(r: Record)
    requires Shaped(r)
    ensures ParseFields(Fields(r, TypeName(r.recType).value)) == Some(Filled(r).(robDep := [], regDep := []))
  {
    var name := TypeName(r.recType).value;
    var n, pc, w := r.seqNum, OrElse(r.pc, 0), OrElse(r.weight, 1);
    FieldsShape(r, name);
    if r.recType == COMP {
      ParsesComputation(Fields(r, name), n, pc, w, r.compDelay);
    } else {
      ParsesMemory(Fields(r, name), n, pc, w, r.recType, r.pAddr.value, r.size.value, r.flags.value, r.compDelay);
    }
  }

  lemma {:induction false} UnshapedDiffers(r: Record)
    requires TypeName(r.recType).Some? && !Shaped(r)
    ensures var f := ParseFields(Fields(r, TypeName(r.recType).value));
            f == None || f.value.(robDep := r.robDep, regDep := r.regDep) != Filled(r)
  {
    var name := TypeName(r.recType).value;
    FieldsShape(r, name);
    ParsesAmiss(Fields(r, name), r.recType);
  }

  /** Printing a record and parsing the line gives the record back, with missing pc and weight filled in, if and
      only if it is shaped as above. */
  lemma {:induction false} RoundTripExactlyWhen(r: Record)
    ensures (Print(r).Some? && Parse(Print(r).value) == Some(Filled(r))) <==> Shaped(r)
  {
    if TypeName(r.recType).Some? {
      ParsesLine(r);
      if Shaped(r) {
        ShapedParses(r);
      } else {
        UnshapedDiffers(r);
      }
    }
  }

  // ----- the printer and the parser -----

  lemma {:induction false} JoinOneMore(parts: seq<string>, part: string, c: char)
    requires parts != []
    ensures Join(parts + [part], c) == Join(parts, c) + [c] + part
  {
    assert (parts + [part])[..|parts|] == parts;
  }

  // ----- the line as text -----

  /** A comma and a number for each. */
  function Listed(ds: seq<U64>): string {
    if ds == [] then "" else Listed(ds[..|ds| - 1]) + "," + Dec(ds[|ds| - 1])
  }

  function Also(o: Option<nat>): string {
    if o.Some? then "," + Dec(o.value) else ""
  }

  lemma {:induction false} JoinAlso(parts: seq<string>, o: Option<nat>)
    requires parts != []
    ensures Join(parts + Optional(o), ',') == Join(parts, ',') + Also(o)
  {
    if o.Some? {
      JoinOneMore(parts, Dec(o.value), ',');
      Reassociate(Join(parts, ','), ",", Dec(o.value));
    } else {
      assert parts + [] == parts;
      assert Join(parts, ',') + "" == Join(parts, ',');
    }
  }

  lemma {:induction false} DepsListed(ds: seq<U64>)
    ensures Join(DepParts(ds), ',') == Listed(ds)
  {
    if ds != [] {
      DepsListed(ds[..|ds| - 1]);
      JoinOneMore(DepParts(ds[..|ds| - 1]), Dec(ds[|ds| - 1]), ',');
    }
  }

  lemma {:induction false} HeadText(a: string, b: string, c: string, name: string)
    ensures Join([a, b, c, name], ',') == a + "," + b + "," + c + "," + name
  {
    assert [a, b, c, name] == [a, b, c] + [name] && [a, b, c] == [a, b] + [c] && [a, b] == [a] + [b];
    JoinOneMore([a], b, ',');
    JoinOneMore([a, b], c, ',');
    JoinOneMore([a, b, c], name, ',');
  }

  function Head(r: Record, name: string): string {
    Dec(r.seqNum) + "," + (if r.pc.Some? then Dec(r.pc.value) else "0") + ","
    + (if r.weight.Some? then Dec(r.weight.value) else "1") + "," + name
  }

  lemma {:induction false} FieldsText(r: Record, name: string)
    ensures Join(Fields(r, name), ',')
            == Head(r, name) + Also(r.pAddr) + Also(r.size) + Also(r.flags) + Also(Some(r.compDelay))
  {
    var head := [Dec(r.seqNum), Dec(OrElse(r.pc, 0)), Dec(OrElse(r.weight, 1)), name];
    assert Dec(0) == "0" && Dec(1) == "1";
    HeadText(head[0], head[1], head[2], name);
    JoinAlso(head, r.pAddr);
    JoinAlso(head + Optional(r.pAddr), r.size);
    JoinAlso(head + Optional(r.pAddr) + Optional(r.size), r.flags);
    JoinAlso(head + Optional(r.pAddr) + Optional(r.size) + Optional(r.flags), Some(r.compDelay));
  }

  /** The line of a record: number, program counter or 0, weight or 1, type, the optional fields that are there, the
      delay, and the two lists of dependencies; none for a number that is no type. */
  lemma {:induction false} PrintedLine(r: Record)
    ensures r.recType > 3 ==> Print(r) == None
    ensures r.recType <= 3 ==>
              var name := if r.recType == 0 then "INVALID" else if r.recType == 1 then "LOAD"
                          else if r.recType == 2 then "STORE" else "COMP";
              Print(r) == Some(Head(r, name) + Also(r.pAddr) + Also(r.size) + Also(r.flags) + Also(Some(r.compDelay))
                               + ":" + Listed(r.robDep) + ":" + Listed(r.regDep) + "\n")
  {
    if r.recType <= 3 {
      FieldsText(r, TypeName(r.recType).value);
      DepsListed(r.robDep);
      DepsListed(r.regDep);
    }
  }

  method WriteField(out: string, ghost parts: seq<string>, o: Option<nat>) returns (text: string)
    requires parts != [] && out == Join(parts, ',')
    ensures text == Join(parts + Optional(o), ',')
  {
    text := out;
    if o.Some? {
      JoinOneMore(parts, Dec(o.value), ',');
      text := text + "," + Dec(o.value);
    } else {
      assert parts + [] == parts;
    }
  }

  method WriteDeps(ds: seq<U64>) returns (text: string)
    ensures text == Join(DepParts(ds), ',')
  {
    text := "";
    for i := 0 to |ds|
      invariant text == Join(DepParts(ds[..i]), ',')
    {
      assert ds[..i + 1][..i] == ds[..i];
      JoinOneMore(DepParts(ds[..i]), Dec(ds[i]), ',');
      text := text + "," + Dec(ds[i]);
    }
    assert ds[..|ds|] == ds;
  }

  method WriteHead(r: Record) returns (text: string)
    ensures text == Join([Dec(r.seqNum), Dec(OrElse(r.pc, 0)), Dec(OrElse(r.weight, 1))], ',')
  {
    text := Dec(r.seqNum);
    ghost var parts := [text];
    text := WriteField(text, parts, Some(if r.pc.Some? then r.pc.value else 0));
    parts := [Dec(r.seqNum), Dec(OrElse(r.pc, 0))];
    text := WriteField(text, parts, Some(if r.weight.Some? then r.weight.value else 1));
    assert parts + [Dec(OrElse(r.weight, 1))] == [Dec(r.seqNum), Dec(OrElse(r.pc, 0)), Dec(OrElse(r.weight, 1))];
  }

  method WriteTail(out: string, ghost head: seq<string>, r: Record) returns (text: string)
    requires head != [] && out == Join(head, ',')
    ensures text == Join(head + Optional(r.pAddr) + Optional(r.size) + Optional(r.flags) + [Dec(r.compDelay)], ',')
  {
    text := WriteField(out, head, r.pAddr);
    text := WriteField(text, head + Optional(r.pAddr), r.size);
    text := WriteField(text, head + Optional(r.pAddr) + Optional(r.size), r.flags);
    text := WriteField(text, head + Optional(r.pAddr) + Optional(r.size) + Optional(r.flags), Some(r.compDelay));
  }

  /** Writes one record field by field. */
  method PrintRecord(r: Record) returns (line: Option<string>)
    ensures line == Print(r)
  {
    var text := WriteHead(r);
    ghost var head := [Dec(r.seqNum), Dec(OrElse(r.pc, 0)), Dec(OrElse(r.weight, 1))];
    var name := TypeName(r.recType);
    if name == None {
      return None;
    }
    JoinOneMore(head, name.value, ',');
    text := WriteTail(text + "," + name.value, head + [name.value], r);
    assert head + [name.value] == [Dec(r.seqNum), Dec(OrElse(r.pc, 0)), Dec(OrElse(r.weight, 1)), name.value];
    var rob := WriteDeps(r.robDep);
    var reg := WriteDeps(r.regDep);
    return Some(text + ":" + rob + ":" + reg + "\n");
  }

  method ReadDeps(parts: seq<string>) returns (ds: Option<seq<U64>>)
    ensures ds == ParseDeps(parts)
  {
    ds := Some([]);
    for i := 0 to |parts|
      invariant ds == ParseDeps(parts[..i])
    {
      assert parts[..i + 1][..i] == parts[..i];
      if ds.Some? && parts[i] != "" {
        var d := ParseU64(parts[i]);
        ds := if d.Some? then Some(ds.value + [d.value]) else None;
      }
    }
    assert parts[..|parts|] == parts;
  }

  method ParseLine(line: string) returns (r: Option<Record>)
    ensures r == Parse(line)
  {
    var parts := Split(Strip(line), ':');
    if |parts| != 3 {
      return None;
    }
    r := ParseFields(Split(parts[0], ','));
    if r == None {
      return None;
    }
    var rob := ReadDeps(Split(Strip(parts[1]), ','));
    if rob == None {
      return None;
    }
    var reg := ReadDeps(Split(parts[2], ','));
    if reg == None {
      return None;
    }
    r := Some(r.value.(robDep := rob.value, regDep := reg.value));
  }
}
