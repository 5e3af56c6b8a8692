/** Sequences without repetition, initial ranges of numbers, and page ranges. */
module Lists {

  ghost predicate NoDup<T>(q: seq<T>)
  {
    forall i, j :: 0 <= i < j < |q| ==> q[i] != q[j]
  }

  /** `SpanList::erase`. */
  function Erase(q: seq<nat>, x: nat): seq<nat>
  {
    if q == [] then [] else if q[0] == x then q[1..] else [q[0]] + Erase(q[1..], x)
  }

  lemma {:induction false} EraseMembers(q: seq<nat>, x: nat)
    requires NoDup(q)
    ensures NoDup(Erase(q, x)) && forall y: nat :: y in Erase(q, x) <==> y in q && y != x
  {
    if q != [] {
      var rest := q[1..];
      assert forall y: nat :: y in q <==> y == q[0] || y in rest;
      assert q[0] !in rest;
      if q[0] != x {
        EraseMembers(rest, x);
        var e := Erase(rest, x);
        assert Erase(q, x) == [q[0]] + e;
        assert forall y: nat :: y in [q[0]] + e <==> y == q[0] || y in e;
      }
    }
  }

  lemma PopMembers(q: seq<nat>)
    requires |q| > 0 && NoDup(q)
    ensures NoDup(q[1..]) && forall y: nat :: y in q[1..] <==> y in q && y != q[0]
  {
    EraseMembers(q, q[0]);
  }

  lemma PushMembers(q: seq<nat>, x: nat)
    ensures forall y: nat :: y in [x] + q <==> y == x || y in q
    ensures forall y: nat :: y in q + [x] <==> y == x || y in q
    ensures NoDup(q) && x !in q ==> NoDup([x] + q) && NoDup(q + [x])
  {}

  /** The numbers below n. */
  function Range(n: nat): (s: set<nat>)
    ensures |s| == n && forall k: nat :: k in s <==> k < n
  {
    if n == 0 then {} else Range(n - 1) + {n - 1}
  }

  lemma {:induction false} SubsetSize<T>(a: set<T>, b: set<T>)
    requires a <= b
    ensures |a| <= |b| && (|a| == |b| ==> a == b)
    decreases b
  {
    if x :| x in b {
      SubsetSize(a - {x}, b - {x});
      assert x in a ==> (a - {x}) + {x} == a;
    }
  }

  /** Pages start, ..., start + n - 1. */
  predicate Within(p: nat, start: nat, n: nat) { start <= p < start + n }
}
