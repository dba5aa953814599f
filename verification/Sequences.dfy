/** Lists without repeats, and unlinking one element. */
module Sequences {

  ghost predicate NoRepeats<T>(s: seq<T>) {
    forall i, j :: 0 <= i < j < |s| ==> s[i] != s[j]
  }

  /** Unlinks the first element equal to `x`. */
  function Without<T(==)>(s: seq<T>, x: T): seq<T> {
    if s == [] then [] else if s[0] == x then s[1..] else [s[0]] + Without(s[1..], x)
  }

  lemma {:induction false} WithoutRemoves<T>(s: seq<T>, x: T)
    requires NoRepeats(s)
    ensures NoRepeats(Without(s, x))
    ensures forall y :: y in Without(s, x) <==> y in s && y != x
    ensures |Without(s, x)| == |s| - if x in s then 1 else 0
  {
    if s != [] {
      WithoutRemoves(s[1..], x);
      assert s == [s[0]] + s[1..];
      var rest := Without(s[1..], x);
      forall i | 0 <= i < |rest| ensures rest[i] != s[0] {
        assert rest[i] in rest;
      }
    }
  }

  lemma {:induction false} WithoutAt<T>(front: seq<T>, x: T, back: seq<T>)
    requires x !in front
    ensures Without(front + [x] + back, x) == front + back
  {
    var s := front + [x] + back;
    if front == [] {
      assert s[1..] == back && front + back == back;
    } else {
      WithoutAt(front[1..], x, back);
      assert s[1..] == front[1..] + [x] + back;
      assert front + back == [front[0]] + (front[1..] + back);
    }
  }

  lemma {:induction false} WithoutAbsent<T>(s: seq<T>, x: T)
    requires x !in s
    ensures Without(s, x) == s
  {
    if s != [] { WithoutAbsent(s[1..], x); }
  }
}
