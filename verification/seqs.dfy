/** Small facts about sequences shared by the registry and the trace model. */
module Seqs {

  /** Number of occurrences of x in s. */
  function Count<T(==)>(s: seq<T>, x: T): nat {
    if |s| == 0 then 0 else (if s[0] == x then 1 else 0) + Count(s[1..], x)
  }

  /** Count of a non-empty sequence, by its first element. */
  lemma CountCons<T>(s: seq<T>, x: T)
    requires |s| > 0
    ensures Count(s, x) == (if s[0] == x then 1 else 0) + Count(s[1..], x)
  {
  }

  /** x is absent exactly when it is counted zero times. */
  lemma {:induction false} CountZeroIffAbsent<T>(s: seq<T>, x: T)
    ensures Count(s, x) == 0 <==> x !in s
    decreases |s|
  {
    if |s| > 0 {
      assert x in s <==> s[0] == x || x in s[1..];
      CountZeroIffAbsent(s[1..], x);
    }
  }

  /** The sequence holding x exactly n times. */
  function Repeat<T>(x: T, n: nat): (r: seq<T>)
    ensures |r| == n
    ensures forall i :: 0 <= i < n ==> r[i] == x
  {
    if n == 0 then [] else [x] + Repeat(x, n - 1)
  }

  /** The indices lo, lo + 1, ..., hi - 1 in increasing order. */
  function Range(lo: nat, hi: nat): (r: seq<nat>)
    ensures |r| == if lo <= hi then hi - lo else 0
    ensures forall i :: 0 <= i < |r| ==> r[i] == lo + i
    decreases hi - lo
  {
    if hi <= lo then [] else [lo] + Range(lo + 1, hi)
  }

  /** One more repetition is one more element in front. */
  lemma RepeatSucc<T>(x: T, n: nat)
    ensures [x] + Repeat(x, n) == Repeat(x, n + 1)
  {
  }

  /** Counting distributes over concatenation. */
  lemma {:induction false} CountAppend<T>(a: seq<T>, b: seq<T>, x: T)
    ensures Count(a + b, x) == Count(a, x) + Count(b, x)
    decreases |a|
  {
    if |a| == 0 {
      assert a + b == b;
    } else {
      assert (a + b)[0] == a[0];
      assert (a + b)[1..] == a[1..] + b;
      CountAppend(a[1..], b, x);
    }
  }

  /** A repetition of x holds x exactly that many times. */
  lemma {:induction false} CountRepeatSame<T>(x: T, n: nat)
    ensures Count(Repeat(x, n), x) == n
    decreases n
  {
    if n > 0 {
      assert Repeat(x, n)[1..] == Repeat(x, n - 1);
      CountRepeatSame(x, n - 1);
    }
  }

  /** A repetition of y holds no other value. */
  lemma CountRepeatOther<T>(y: T, n: nat, x: T)
    requires x != y
    ensures Count(Repeat(y, n), x) == 0
  {
    CountZeroIffAbsent(Repeat(y, n), x);
  }
}
