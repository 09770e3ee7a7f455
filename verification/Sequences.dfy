/**
 Sequences without repeats, and sequences of sequences.
 */
module Sequences {

  ghost predicate Distinct<T>(s: seq<T>) {
    forall i, j :: 0 <= i < j < |s| ==> s[i] != s[j]
  }

  ghost function AsSet<T>(s: seq<T>): set<T> { set x | x in s }

  /** A sequence has at most as many members as positions, and as many exactly when none repeats. */
  lemma {:induction false} Cardinality<T>(s: seq<T>)
    ensures |AsSet(s)| <= |s|
    ensures |AsSet(s)| == |s| <==> Distinct(s)
  {
    if s != [] {
      var n := |s| - 1;
      var front, last := s[..n], s[n];
      Cardinality(front);
      assert AsSet(s) == AsSet(front) + {last};
      assert Distinct(s) <==> Distinct(front) && last !in front;
    }
  }

  lemma SameMembersSameSize<T>(a: seq<T>, b: seq<T>)
    requires Distinct(a) && Distinct(b) && forall x :: x in a <==> x in b
    ensures |a| == |b|
  {
    Cardinality(a);
    Cardinality(b);
    assert AsSet(a) == AsSet(b);
  }

  function Flatten<T>(parts: seq<seq<T>>): seq<T> {
    if parts == [] then [] else Flatten(parts[..|parts|-1]) + parts[|parts|-1]
  }

  lemma FlattenAppend<T>(parts: seq<seq<T>>, part: seq<T>)
    ensures Flatten(parts + [part]) == Flatten(parts) + part
  {
    assert (parts + [part])[..|parts|] == parts;
  }

  lemma {:induction false} FlattenConcat<T>(a: seq<seq<T>>, b: seq<seq<T>>)
    ensures Flatten(a + b) == Flatten(a) + Flatten(b)
  {
    if b == [] {
      assert a + b == a;
    } else {
      var n := |b| - 1;
      FlattenConcat(a, b[..n]);
      assert a + b == (a + b[..n]) + [b[n]];
      FlattenAppend(a + b[..n], b[n]);
    }
  }

  // ----- Chunks -----

  ghost predicate AllFull<T>(parts: seq<seq<T>>, size: nat) {
    forall i :: 0 <= i < |parts| ==> |parts[i]| == size
  }

  /** Full parts and at most one last partial one, none of them empty. */
  ghost predicate Chunked<T>(parts: seq<seq<T>>, size: nat) {
    parts == [] || (AllFull(parts[..|parts|-1], size) && 0 < |parts[|parts|-1]| <= size)
  }

  lemma ChunkedHead<T>(parts: seq<seq<T>>, size: nat)
    requires Chunked(parts, size) && parts != [] && size > 0
    ensures Flatten(parts) == parts[0] + Flatten(parts[1..]) && Chunked(parts[1..], size)
    ensures |parts[0]| == if |Flatten(parts)| < size then |Flatten(parts)| else size
  {
    var front := parts[..|parts|-1];
    assert parts == [parts[0]] + parts[1..];
    FlattenConcat([parts[0]], parts[1..]);
    assert [parts[0]][..0] == [] && Flatten([parts[0]]) == parts[0];
    if |parts| > 1 {
      assert front[0] == parts[0];
      assert parts[1..][..|parts|-2] == front[1..];
    }
  }

  /** There is one way to cut a sequence into chunks. */
  lemma {:induction false} ChunkedUnique<T>(a: seq<seq<T>>, b: seq<seq<T>>, size: nat)
    requires Chunked(a, size) && Chunked(b, size) && size > 0 && Flatten(a) == Flatten(b)
    ensures a == b
  {
    if a != [] { ChunkedHead(a, size); }
    if b != [] { ChunkedHead(b, size); }
    if a != [] && b != [] {
      var whole := Flatten(a);
      assert a[0] == whole[..|a[0]|] && b[0] == whole[..|b[0]|];
      assert Flatten(a[1..]) == whole[|a[0]|..] && Flatten(b[1..]) == whole[|b[0]|..];
      ChunkedUnique(a[1..], b[1..], size);
      assert a == [a[0]] + a[1..] && b == [b[0]] + b[1..];
    }
  }

  lemma ChunkedCons<T>(part: seq<T>, parts: seq<seq<T>>, size: nat)
    requires Chunked(parts, size) && 0 < |part| <= size && (parts != [] ==> |part| == size)
    ensures Chunked([part] + parts, size)
  {
    var all := [part] + parts;
    if parts != [] { assert all[..|all|-1] == [part] + parts[..|parts|-1]; }
  }

  // ----- Sums -----

  function Sum<T>(s: seq<T>, f: T -> nat): nat {
    if s == [] then 0 else f(s[0]) + Sum(s[1..], f)
  }

  /** Replacing one element changes the sum by what the element changes. */
  lemma {:induction false} SumUpdate<T>(s: seq<T>, i: nat, x: T, f: T -> nat)
    requires i < |s|
    ensures Sum(s[i := x], f) + f(s[i]) == Sum(s, f) + f(x)
  {
    if i == 0 {
      assert s[0 := x][1..] == s[1..];
    } else {
      assert s[i := x][1..] == s[1..][i - 1 := x];
      SumUpdate(s[1..], i - 1, x, f);
    }
  }

  lemma {:induction false} SumAppend<T>(s: seq<T>, x: T, f: T -> nat)
    ensures Sum(s + [x], f) == Sum(s, f) + f(x)
  {
    if s == [] {
      assert s + [x] == [x] && [x][1..] == [];
    } else {
      assert (s + [x])[1..] == s[1..] + [x];
      SumAppend(s[1..], x, f);
    }
  }

  lemma SumOne<T>(x: T, f: T -> nat)
    ensures Sum([x], f) == f(x)
  {
    assert [x][1..] == [];
  }

  /** A sum of bounded parts is bounded. */
  lemma {:induction false} SumBound<T>(s: seq<T>, f: T -> nat, bound: nat)
    requires forall i :: 0 <= i < |s| ==> f(s[i]) <= bound
    ensures Sum(s, f) <= |s| * bound
  {
    if s != [] {
      assert forall i :: 0 <= i < |s[1..]| ==> s[1..][i] == s[i+1];
      SumBound(s[1..], f, bound);
      assert |s| * bound == (|s| - 1) * bound + bound;
    }
  }
}
