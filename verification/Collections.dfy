/** Facts about finite sets and sequences shared by the other modules. */
module Collections {

  ghost function SetOf<T>(s: seq<T>): set<T> {
    set x | x in s
  }

  ghost predicate NoDuplicates<T>(s: seq<T>) {
    forall i, j :: 0 <= i < j < |s| ==> s[i] != s[j]
  }

  lemma {:induction false} SetOfBound<T>(s: seq<T>)
    ensures |SetOf(s)| <= |s|
    ensures |SetOf(s)| == |s| <==> NoDuplicates(s)
  {
    if s != [] {
      var m := |s| - 1;
      SetOfBound(s[..m]);
      assert SetOf(s) == SetOf(s[..m]) + {s[m]};
      NoDuplicatesLast(s);
    }
  }

  lemma {:induction false} NoDuplicatesLast<T>(s: seq<T>)
    requires s != []
    ensures NoDuplicates(s) <==> NoDuplicates(s[..|s| - 1]) && s[|s| - 1] !in SetOf(s[..|s| - 1])
  {
    var m := |s| - 1;
    if s[m] in s[..m] {
      var i :| 0 <= i < m && s[i] == s[m];
    }
  }

  lemma {:induction false} SubsetOfSameSize<T>(a: set<T>, b: set<T>)
    requires a <= b && |b| <= |a|
    ensures a == b
  {
    if b - a == {} {
      assert b <= a;
    } else {
      var x :| x in b - a;
      assert a <= b - {x} && |b - {x}| == |b| - 1;
      SubsetSize(a, b - {x});
    }
  }

  lemma {:induction false} SubsetSize<T>(a: set<T>, b: set<T>)
    requires a <= b
    ensures |a| <= |b|
  {
    if a != {} {
      var x :| x in a;
      SubsetSize(a - {x}, b - {x});
    }
  }

  lemma {:induction false} AppendNew<T>(s: seq<T>, x: T)
    ensures SetOf(s + [x]) == SetOf(s) + {x}
    ensures NoDuplicates(s) && x !in s ==> NoDuplicates(s + [x])
  {
    forall y ensures y in SetOf(s + [x]) <==> y in SetOf(s) + {x} {
      if y == x {
        assert (s + [x])[|s|] == x;
      }
    }
  }

  lemma {:induction false} SplitLast<T>(s: seq<T>)
    requires s != []
    ensures s == s[..|s| - 1] + [s[|s| - 1]]
  {
  }

  lemma {:induction false} TakeOneMore<T>(s: seq<T>, n: nat)
    requires 0 < n <= |s|
    ensures s[..n] == s[..n - 1] + [s[n - 1]]
  {
  }

  lemma {:induction false} Reassociate<T>(a: seq<T>, b: seq<T>, c: seq<T>)
    ensures a + b + c == a + (b + c)
  {
  }

  ghost function Reverse<T>(s: seq<T>): seq<T> {
    seq(|s|, i requires 0 <= i < |s| => s[|s| - 1 - i])
  }

  lemma {:induction false} ReversePermutes<T>(s: seq<T>)
    ensures multiset(Reverse(s)) == multiset(s)
  {
    if s != [] {
      var init, last := s[..|s| - 1], s[|s| - 1];
      ReversePermutes(init);
      SplitLast(s);
      assert Reverse(s) == [last] + Reverse(init);
    }
  }

  datatype Option<+T> = None | Some(value: T)

  /** Python's `s[:n]`. */
  function Take<T>(s: seq<T>, n: nat): seq<T> {
    if n <= |s| then s[..n] else s
  }

  function Product(s: seq<nat>): nat {
    if s == [] then 1 else Product(s[..|s| - 1]) * s[|s| - 1]
  }

  // ----- the elements that satisfy a predicate -----

  function Keep<T>(p: T -> bool, s: seq<T>): seq<T> {
    if s == [] then [] else
      Keep(p, s[..|s| - 1]) + (if p(s[|s| - 1]) then [s[|s| - 1]] else [])
  }

  lemma {:induction false} KeepAppend<T>(p: T -> bool, s: seq<T>, x: T)
    ensures Keep(p, s + [x]) == Keep(p, s) + (if p(x) then [x] else [])
  {
    assert (s + [x])[..|s|] == s;
  }

  lemma {:induction false} KeepConcat<T>(p: T -> bool, a: seq<T>, b: seq<T>)
    ensures Keep(p, a + b) == Keep(p, a) + Keep(p, b)
  {
    if b == [] {
      assert a + b == a;
    } else {
      var k := |b| - 1;
      KeepConcat(p, a, b[..k]);
      assert (a + b)[..|a| + k] == a + b[..k];
    }
  }

  lemma {:induction false} KeepAll<T>(p: T -> bool, s: seq<T>)
    requires forall i :: 0 <= i < |s| ==> p(s[i])
    ensures Keep(p, s) == s
  {
    if s != [] {
      KeepAll(p, s[..|s| - 1]);
    }
  }

  lemma {:induction false} KeepNone<T>(p: T -> bool, s: seq<T>)
    requires forall i :: 0 <= i < |s| ==> !p(s[i])
    ensures Keep(p, s) == []
  {
    if s != [] {
      KeepNone(p, s[..|s| - 1]);
    }
  }
}
