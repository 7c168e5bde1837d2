/** Sums over finite maps and over sequences, and how they change under one update. */
module Sums {

  /** The sum of `f` over the values of a map. */
  ghost function MapSum<K, V(!new)>(m: map<K, V>, f: V -> int): int
  {
    if m.Keys == {} then 0
    else
      var k :| k in m;
      f(m[k]) + MapSum(m - {k}, f)
  }

  /** Any key may be taken out first, not just the one the definition picks. */
  lemma {:induction false} MapSumTakeOut<K, V(!new)>(m: map<K, V>, f: V -> int, k: K)
    requires k in m
    ensures MapSum(m, f) == f(m[k]) + MapSum(m - {k}, f)
    decreases |m|
  {
    var p :| p in m && MapSum(m, f) == f(m[p]) + MapSum(m - {p}, f);
    if p != k {
      MapSumTakeOut(m - {p}, f, k);
      MapSumTakeOut(m - {k}, f, p);
      assert m - {p} - {k} == m - {k} - {p};
    }
  }

  ghost function At<K, V(!new)>(m: map<K, V>, f: V -> int, k: K): int
  {
    if k in m then f(m[k]) else 0
  }

  lemma {:induction false} MapSumUpdate<K, V(!new)>(m: map<K, V>, f: V -> int, k: K, v: V)
    ensures MapSum(m[k := v], f) == MapSum(m, f) - At(m, f, k) + f(v)
  {
    var m' := m[k := v];
    MapSumTakeOut(m', f, k);
    assert m' - {k} == m - {k};
    if k in m {
      MapSumTakeOut(m, f, k);
    } else {
      assert m - {k} == m;
    }
  }

  lemma {:induction false} MapSumZero<K, V(!new)>(m: map<K, V>, f: V -> int)
    requires forall k :: k in m ==> f(m[k]) == 0
    ensures MapSum(m, f) == 0
    decreases |m|
  {
    if m.Keys != {} {
      var p :| p in m && MapSum(m, f) == f(m[p]) + MapSum(m - {p}, f);
      MapSumZero(m - {p}, f);
    }
  }

  lemma {:induction false} MapSumSame<K, V(!new)>(m: map<K, V>, n: map<K, V>, f: V -> int)
    requires m.Keys == n.Keys
    requires forall k :: k in m ==> f(m[k]) == f(n[k])
    ensures MapSum(m, f) == MapSum(n, f)
    decreases |m|
  {
    if m.Keys != {} {
      var p :| p in m && MapSum(m, f) == f(m[p]) + MapSum(m - {p}, f);
      MapSumTakeOut(n, f, p);
      MapSumSame(m - {p}, n - {p}, f);
    }
  }

  /** With no negative summand, every summand is at most the sum. */
  lemma {:induction false} MapSumBound<K, V(!new)>(m: map<K, V>, f: V -> int)
    requires forall k :: k in m ==> f(m[k]) >= 0
    ensures MapSum(m, f) >= 0
    ensures forall k :: k in m ==> f(m[k]) <= MapSum(m, f)
    decreases |m|
  {
    if m.Keys != {} {
      var p :| p in m && MapSum(m, f) == f(m[p]) + MapSum(m - {p}, f);
      MapSumBound(m - {p}, f);
      forall k | k in m ensures f(m[k]) <= MapSum(m, f) {
        if k != p {
          assert k in m - {p} && (m - {p})[k] == m[k];
        }
      }
    }
  }

  /** The sum of `f` over the elements of a sequence. */
  ghost function SeqSum<T(!new)>(s: seq<T>, f: T -> int): int
  {
    if s == [] then 0 else SeqSum(s[..|s| - 1], f) + f(s[|s| - 1])
  }

  lemma {:induction false} SeqSumPush<T(!new)>(s: seq<T>, f: T -> int, x: T)
    ensures SeqSum(s + [x], f) == SeqSum(s, f) + f(x)
  {
    assert (s + [x])[..|s|] == s;
  }

  lemma {:induction false} SeqSumConcat<T(!new)>(s: seq<T>, t: seq<T>, f: T -> int)
    ensures SeqSum(s + t, f) == SeqSum(s, f) + SeqSum(t, f)
  {
    if t == [] {
      assert s + t == s;
    } else {
      assert (s + t)[..|s + t| - 1] == s + t[..|t| - 1];
      SeqSumConcat(s, t[..|t| - 1], f);
    }
  }

  lemma {:induction false} SeqSumTakeOut<T(!new)>(s: seq<T>, f: T -> int, i: nat)
    requires i < |s|
    ensures SeqSum(s, f) == f(s[i]) + SeqSum(s[..i] + s[i + 1..], f)
  {
    var front, x, back := s[..i], s[i], s[i + 1..];
    assert s == front + [x] + back;
    SeqSumConcat(front + [x], back, f);
    SeqSumPush(front, f, x);
    SeqSumConcat(front, back, f);
  }

  lemma MultisetTakeOut<T>(s: seq<T>, i: nat)
    requires i < |s|
    ensures multiset(s[..i] + s[i + 1..]) == multiset(s) - multiset{s[i]}
  {
    assert s == s[..i] + [s[i]] + s[i + 1..];
  }

  /** The order of the elements does not matter. */
  lemma {:induction false} SeqSumPermutation<T(!new)>(s: seq<T>, t: seq<T>, f: T -> int)
    requires multiset(s) == multiset(t)
    ensures SeqSum(s, f) == SeqSum(t, f)
    decreases |s|
  {
    if s == [] {
      assert |multiset(t)| == 0;
    } else {
      var x := s[|s| - 1];
      assert x in multiset(s);
      var i :| 0 <= i < |t| && t[i] == x;
      SeqSumTakeOut(t, f, i);
      MultisetTakeOut(s, |s| - 1);
      MultisetTakeOut(t, i);
      assert s[..|s| - 1] + s[|s|..] == s[..|s| - 1];
      SeqSumPermutation(s[..|s| - 1], t[..i] + t[i + 1..], f);
    }
  }

  lemma {:induction false} SeqSumZero<T(!new)>(s: seq<T>, f: T -> int)
    requires forall x :: x in s ==> f(x) == 0
    ensures SeqSum(s, f) == 0
  {
    if s != [] {
      SeqSumZero(s[..|s| - 1], f);
    }
  }

  lemma {:induction false} SeqSumBound<T(!new)>(s: seq<T>, f: T -> int)
    requires forall x :: x in s ==> f(x) >= 0
    ensures SeqSum(s, f) >= 0
    ensures forall x :: x in s ==> f(x) <= SeqSum(s, f)
  {
    if s != [] {
      SeqSumBound(s[..|s| - 1], f);
    }
  }
}
