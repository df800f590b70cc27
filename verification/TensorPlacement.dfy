/** Placement of a model's tensors: nothing is ever freed, so whatever block the policy picks, the table acts as
    a pointer that is bumped by each tensor's size. */
module TensorPlacement {
  import opened Arithmetic
  import opened Collections
  import opened MemoryTable

  datatype Tensor = Tensor(name: string, dims: seq<nat>)

  datatype DataType = Int8 | Int32 | Float32 | Float64 | OtherType(name: string)

  datatype Extent = Extent(addr: int, size: int)

  datatype Outcome = Success(info: map<string, Extent>) | InsufficientMemory | UnknownType | NoSuchPolicy

  function Bytes(d: DataType): nat {
    match d
    case Int8 => 1
    case Int32 => 4
    case Float32 => 4
    case Float64 => 8
    case OtherType(_) => 0
  }

  function TensorSize(t: Tensor, d: DataType): nat {
    Product(t.dims) * Bytes(d)
  }

  /** One byte per element, four, or eight. */
  ghost predicate SizedAs(t: Tensor, d: DataType, n: int) {
    match d
    case Int8 => n == Product(t.dims)
    case Int32 => n == 4 * Product(t.dims)
    case Float32 => n == 4 * Product(t.dims)
    case Float64 => n == 8 * Product(t.dims)
    case OtherType(_) => false
  }

  lemma {:induction false} SizeMeaning(t: Tensor, d: DataType)
    requires !d.OtherType?
    ensures SizedAs(t, d, TensorSize(t, d))
  {
  }

  /** No dimension is left open or zero. */
  ghost predicate Sized(ts: seq<Tensor>) {
    forall i, j :: 0 <= i < |ts| && 0 <= j < |ts[i].dims| ==> ts[i].dims[j] > 0
  }

  lemma {:induction false} ProductPositive(dims: seq<nat>)
    requires forall j :: 0 <= j < |dims| ==> dims[j] > 0
    ensures Product(dims) > 0
  {
    if dims != [] {
      ProductPositive(dims[..|dims| - 1]);
      MulAtLeast(Product(dims[..|dims| - 1]), dims[|dims| - 1]);
    }
  }

  lemma {:induction false} SizePositive(ts: seq<Tensor>, i: nat, d: DataType)
    requires Sized(ts) && i < |ts| && !d.OtherType?
    ensures TensorSize(ts[i], d) > 0
  {
    ProductPositive(ts[i].dims);
    MulAtLeast(Product(ts[i].dims), Bytes(d));
  }

  function Sizes(ts: seq<Tensor>, d: DataType): seq<nat> {
    seq(|ts|, i requires 0 <= i < |ts| => TensorSize(ts[i], d))
  }

  /** The first `n` sizes together: where the pointer is after placing `n` tensors. */
  function Bump(sizes: seq<nat>, n: nat): nat
    requires n <= |sizes|
  {
    if n == 0 then 0 else Bump(sizes, n - 1) + sizes[n - 1]
  }

  /** All blocks are used but the last, which is free from the pointer on while the placement is open. */
  ghost predicate Bumped(t: seq<Block>, size: int, pointer: int, open: bool) {
    && t != [] && 0 <= pointer <= size && Bounded(t, size)
    && (forall i :: 0 <= i < |t| - 1 ==> !t[i].free)
    && t[|t| - 1].free == open
    && (open ==> t[|t| - 1].addr == pointer && t[|t| - 1].size == size - pointer)
  }

  /** Any policy has to take the block the pointer is at, and fails exactly if there is none or it is too small. */
  lemma {:induction false} PointerPicked(t: seq<Block>, size: int, pointer: int, open: bool, n: int, idx: int)
    requires Bumped(t, size, pointer, open) && Picks(t, n, idx)
    ensures idx == -1 <==> !open || pointer + n > size
    ensures idx != -1 ==> idx == |t| - 1 && t[idx].addr == pointer && t[idx].size == size - pointer
  {
    if idx == -1 {
      assert !Fits(t[|t| - 1], n);
    }
  }

  /** It is used up exactly if nothing of it is left. */
  lemma {:induction false} PointerMoves(t: seq<Block>, size: int, pointer: int, n: int, name: string)
    requires Bumped(t, size, pointer, true) && n >= 0 && pointer + n <= size
    ensures Bumped(AllocAt(t, |t| - 1, name, n), size, pointer + n, pointer + n < size)
  {
    AllocationBounded(t, size, |t| - 1, name, n);
  }

  method ComputeSize(t: Tensor, d: DataType) returns (n: nat)
    ensures n == TensorSize(t, d)
  {
    n := 1;
    for j := 0 to |t.dims|
      invariant n == Product(t.dims[..j])
    {
      assert t.dims[..j + 1][..j] == t.dims[..j];
      n := n * t.dims[j];
    }
    assert t.dims[..|t.dims|] == t.dims;
    n := n * Bytes(d);
  }

  /** The last tensor of a given name decides what is recorded under it. */
  function Info(ts: seq<Tensor>, sizes: seq<nat>, n: nat): map<string, Extent>
    requires n <= |ts| == |sizes|
  {
    if n == 0 then map[] else
      Info(ts, sizes, n - 1)[ts[n - 1].name := Extent(Bump(sizes, n - 1), sizes[n - 1])]
  }

  /** No later tensor has the name. */
  ghost predicate LastNamed(ts: seq<Tensor>, i: nat) {
    i < |ts| && forall j :: i < j < |ts| ==> ts[j].name != ts[i].name
  }

  ghost predicate AllSizedAs(ts: seq<Tensor>, d: DataType, sizes: seq<nat>) {
    |sizes| == |ts| && forall i :: 0 <= i < |ts| ==> SizedAs(ts[i], d, sizes[i])
  }

  /** Every tensor, or the last of its name, is recorded with its size behind all earlier tensors. */
  ghost predicate AllRecorded(ts: seq<Tensor>, d: DataType, info: map<string, Extent>) {
    exists sizes :: AllSizedAs(ts, d, sizes) && AtSums(ts, sizes, info)
  }

  ghost predicate AtSums(ts: seq<Tensor>, sizes: seq<nat>, info: map<string, Extent>)
    requires |sizes| == |ts|
  {
    && (forall i {:trigger LastNamed(ts, i)} :: 0 <= i < |ts| && LastNamed(ts, i) ==>
          ts[i].name in info && info[ts[i].name] == Extent(Bump(sizes, i), sizes[i]))
    && (forall name :: name in info ==> exists i :: 0 <= i < |ts| && ts[i].name == name)
  }

  lemma {:induction false} InfoAt(ts: seq<Tensor>, sizes: seq<nat>, n: nat, i: nat)
    requires i < n <= |ts| == |sizes| && LastNamed(ts, i)
    ensures ts[i].name in Info(ts, sizes, n)
    ensures Info(ts, sizes, n)[ts[i].name] == Extent(Bump(sizes, i), sizes[i])
    decreases n
  {
    if i < n - 1 {
      InfoAt(ts, sizes, n - 1, i);
    }
  }

  lemma {:induction false} InfoNames(ts: seq<Tensor>, sizes: seq<nat>, n: nat, name: string)
    requires n <= |ts| == |sizes| && name in Info(ts, sizes, n)
    ensures exists i :: 0 <= i < |ts| && ts[i].name == name
  {
    if name != ts[n - 1].name {
      InfoNames(ts, sizes, n - 1, name);
    }
  }

  lemma {:induction false} InfoRecords(ts: seq<Tensor>, d: DataType)
    requires !d.OtherType?
    ensures AllRecorded(ts, d, Info(ts, Sizes(ts, d), |ts|))
  {
    var sizes := Sizes(ts, d);
    forall i | 0 <= i < |ts| ensures SizedAs(ts[i], d, sizes[i]) {
      SizeMeaning(ts[i], d);
    }
    forall i | 0 <= i < |ts| && LastNamed(ts, i)
      ensures ts[i].name in Info(ts, sizes, |ts|)
      ensures Info(ts, sizes, |ts|)[ts[i].name] == Extent(Bump(sizes, i), sizes[i])
    {
      InfoAt(ts, sizes, |ts|, i);
    }
    forall name | name in Info(ts, sizes, |ts|) ensures exists i :: 0 <= i < |ts| && ts[i].name == name {
      InfoNames(ts, sizes, |ts|, name);
    }
    assert AllSizedAs(ts, d, sizes) && AtSums(ts, sizes, Info(ts, sizes, |ts|));
  }

  /** One tensor goes where the pointer is, or does not fit behind it. */
  method PlaceOne(table: MemTable, name: string, n: nat, ghost pointer: nat, ghost open: bool)
    returns (remaining: int, p: Placement)
    requires !table.policy.Unsupported? && Bumped(table.table, table.size, pointer, open)
    modifies table`table
    ensures p == if open && pointer + n <= table.size then Placed(pointer) else OutOfMemory
    ensures p.Placed? ==>
              remaining == 0 && Bumped(table.table, table.size, pointer + n, pointer + n < table.size)
  {
    ghost var before := table.table;
    remaining, p := table.Allocate(name, n);
    ghost var idx :| Picks(before, n, idx) &&
                     if idx == -1 then table.table == before && p == OutOfMemory
                     else table.table == AllocAt(before, idx, name, n) && p == Placed(before[idx].addr);
    PointerPicked(before, table.size, pointer, open, n, idx);
    if p.Placed? {
      PointerMoves(before, table.size, pointer, n, name);
    }
  }

  /** The memory has a free block left after `i` tensors: nothing has been placed, or they do not fill it. */
  predicate Open(sizes: seq<nat>, memory: nat, i: nat)
    requires i <= |sizes|
  {
    i == 0 || Bump(sizes, i) < memory
  }

  /** The tensors fit together, and none follows one that fills the memory, not even an empty one. */
  predicate Fitting(sizes: seq<nat>, memory: nat) {
    sizes == [] || (Bump(sizes, |sizes|) <= memory && Open(sizes, memory, |sizes| - 1))
  }

  lemma {:induction false} NotFitting(sizes: seq<nat>, memory: nat, i: nat)
    requires i < |sizes| && !(Open(sizes, memory, i) && Bump(sizes, i + 1) <= memory)
    ensures !Fitting(sizes, memory)
  {
    BumpGrows(sizes, i, |sizes| - 1);
    BumpGrows(sizes, i + 1, |sizes|);
  }

  /** Without open or empty dimensions, tensors fit if and only if they fit together. */
  lemma {:induction false} FittingExactlyWhen(ts: seq<Tensor>, d: DataType, memory: nat)
    requires Sized(ts) && !d.OtherType?
    ensures Fitting(Sizes(ts, d), memory) <==> Bump(Sizes(ts, d), |ts|) <= memory
  {
    if ts != [] {
      SizePositive(ts, |ts| - 1, d);
    }
  }

  /** Places a model's inputs, activations and outputs, in this order. */
  method PlaceTensors(ts: seq<Tensor>, d: DataType, memory: nat, policy: Policy) returns (r: Outcome)
    ensures r == if ts == [] then Success(map[])
                 else if d.OtherType? then UnknownType
                 else if policy.Unsupported? then NoSuchPolicy
                 else if Fitting(Sizes(ts, d), memory) then Success(Info(ts, Sizes(ts, d), |ts|))
                 else InsufficientMemory
    ensures r.Success? && ts != [] ==> AllRecorded(ts, d, r.info)
  {
    var table := new MemTable(memory, policy);
    var info: map<string, Extent> := map[];
    ghost var sizes := Sizes(ts, d);
    for i := 0 to |ts|
      invariant policy.Unsupported? || d.OtherType? ==> i == 0
      invariant table.size == memory && table.policy == policy && fresh(table)
      invariant SoFar(table.table, info, ts, sizes, memory, i)
    {
      if d.OtherType? {
        return UnknownType;
      }
      var n := ComputeSize(ts[i], d);
      if policy.Unsupported? {
        return NoSuchPolicy;
      }
      var ok;
      ok, info := PlaceNext(table, ts, sizes, i, n, info);
      if !ok {
        return InsufficientMemory;
      }
    }
    if ts != [] {
      InfoRecords(ts, d);
    }
    return Success(info);
  }

  /** The first `i` tensors have been placed. */
  ghost predicate SoFar(t: seq<Block>, info: map<string, Extent>, ts: seq<Tensor>, sizes: seq<nat>, memory: nat, i: nat)
    requires i <= |ts| == |sizes|
  {
    && Bumped(t, memory, Bump(sizes, i), Open(sizes, memory, i)) && info == Info(ts, sizes, i)
    && (i > 0 ==> Bump(sizes, i) <= memory && Open(sizes, memory, i - 1))
  }

  method PlaceNext(table: MemTable, ts: seq<Tensor>, ghost sizes: seq<nat>, i: nat, n: nat, info: map<string, Extent>)
    returns (ok: bool, info': map<string, Extent>)
    requires i < |ts| == |sizes| && n == sizes[i] && table.size >= 0 && !table.policy.Unsupported?
    requires SoFar(table.table, info, ts, sizes, table.size, i)
    modifies table`table
    ensures ok ==> SoFar(table.table, info', ts, sizes, table.size, i + 1)
    ensures !ok ==> !Fitting(sizes, table.size)
  {
    var remaining, p := PlaceOne(table, ts[i].name, n, Bump(sizes, i), Open(sizes, table.size, i));
    ok, info' := true, info;
    if p.OutOfMemory? {
      NotFitting(sizes, table.size, i);
      ok := false;
    } else if remaining == 0 {
      info' := info[ts[i].name := Extent(p.addr, n)];
    }
  }

  lemma {:induction false} BumpGrows(sizes: seq<nat>, i: nat, j: nat)
    requires i <= j <= |sizes|
    ensures Bump(sizes, i) <= Bump(sizes, j)
    decreases j
  {
    if i < j {
      BumpGrows(sizes, i, j - 1);
    }
  }

  /** Different tensors get disjoint stretches of the memory, in the order in which they are placed. */
  lemma {:induction false} PlacedApart(sizes: seq<nat>, memory: int, i: nat, j: nat)
    requires i < j < |sizes| && Bump(sizes, |sizes|) <= memory
    ensures 0 <= Bump(sizes, i) <= Bump(sizes, i) + sizes[i] <= Bump(sizes, j)
    ensures Bump(sizes, j) + sizes[j] <= memory
  {
    BumpGrows(sizes, i + 1, j);
    BumpGrows(sizes, j + 1, |sizes|);
    assert Bump(sizes, i + 1) == Bump(sizes, i) + sizes[i] && Bump(sizes, j + 1) == Bump(sizes, j) + sizes[j];
  }

  /** With different names, every tensor is found where the pointer was when it was placed. */
  lemma {:induction false} InfoOf(ts: seq<Tensor>, sizes: seq<nat>, n: nat, i: nat)
    requires i < n <= |ts| == |sizes| && forall a, b :: 0 <= a < b < |ts| ==> ts[a].name != ts[b].name
    ensures ts[i].name in Info(ts, sizes, n)
    ensures Info(ts, sizes, n)[ts[i].name] == Extent(Bump(sizes, i), sizes[i])
    decreases n
  {
    if i < n - 1 {
      InfoOf(ts, sizes, n - 1, i);
    }
  }
}
