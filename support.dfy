/** Small sequence helpers shared by the three modules of the model. */
module Support {

  datatype Option<T> = None | Some(value: T)

  /** Python's `len(range(k))`: a negative bound gives an empty range. */
  function RangeLen(k: int): nat
  {
    if k > 0 then k else 0
  }

  /** `t` written `k` times: what a `for _ in range(k)` loop writing `t` produces. */
  function Repeat<T>(t: T, k: nat): (r: seq<T>)
    ensures |r| == k
  {
    if k == 0 then [] else Repeat(t, k - 1) + [t]
  }

  /** The pair `a`, `b` written `k` times: a `for _ in range(k)` loop writing `a` then `b`. */
  function RepeatPair<T>(a: T, b: T, k: nat): (r: seq<T>)
    ensures |r| == 2 * k
  {
    if k == 0 then [] else RepeatPair(a, b, k - 1) + [a, b]
  }

  /** Concatenation is associative. */
  lemma AppendAssoc<T>(a: seq<T>, b: seq<T>, c: seq<T>)
    ensures a + (b + c) == (a + b) + c
  {
  }

  /** Number of occurrences of `x` in `s` (Python's `s.count(x)` for one element). */
  function Count<T(==)>(s: seq<T>, x: T): nat
  {
    if s == [] then 0
    else Count(s[..|s| - 1], x) + (if s[|s| - 1] == x then 1 else 0)
  }

  /** A count is zero exactly when the element is absent. */
  lemma {:induction false} CountZeroIffAbsent<T>(s: seq<T>, x: T)
    ensures Count(s, x) == 0 <==> x !in s
  {
    if s != [] {
      CountZeroIffAbsent(s[..|s| - 1], x);
      assert s == s[..|s| - 1] + [s[|s| - 1]];
    }
  }

  /** Counting agrees with the multiplicity in the multiset of `s`. */
  lemma {:induction false} CountIsMultiplicity<T>(s: seq<T>, x: T)
    ensures Count(s, x) == multiset(s)[x]
  {
    if s != [] {
      CountIsMultiplicity(s[..|s| - 1], x);
      assert s == s[..|s| - 1] + [s[|s| - 1]];
    }
  }

  /** Counting is additive over concatenation. */
  lemma {:induction false} CountAppend<T>(a: seq<T>, b: seq<T>, x: T)
    ensures Count(a + b, x) == Count(a, x) + Count(b, x)
  {
    if b != [] {
      CountAppend(a, b[..|b| - 1], x);
      assert (a + b)[..|a + b| - 1] == a + b[..|b| - 1];
    } else {
      assert a + b == a;
    }
  }

  /** The count of a one-element sequence. */
  lemma CountOne<T>(t: T, x: T)
    ensures Count([t], x) == if t == x then 1 else 0
  {
    assert [t][..0] == [];
  }

  /** `t` repeated `k` times holds `k` occurrences of itself and none of anything else. */
  lemma {:induction false} CountRepeat<T>(t: T, k: nat, x: T)
    ensures Count(Repeat(t, k), x) == if t == x then k else 0
  {
    if k > 0 {
      CountRepeat(t, k - 1, x);
      CountAppend(Repeat(t, k - 1), [t], x);
      CountOne(t, x);
    }
  }

  /** A pair repeated `k` times holds `k` occurrences of each of its two elements. */
  lemma {:induction false} CountRepeatPair<T>(a: T, b: T, k: nat, x: T)
    ensures Count(RepeatPair(a, b, k), x) == (if a == x then k else 0) + (if b == x then k else 0)
  {
    if k > 0 {
      CountRepeatPair(a, b, k - 1, x);
      CountAppend(RepeatPair(a, b, k - 1), [a] + [b], x);
      CountAppend([a], [b], x);
      CountOne(a, x);
      CountOne(b, x);
      assert [a] + [b] == [a, b];
    }
  }

  /** Every element of a repeated element is that element. */
  lemma {:induction false} RepeatAt<T>(t: T, k: nat, i: nat)
    requires i < k
    ensures Repeat(t, k)[i] == t
  {
    if i < k - 1 {
      RepeatAt(t, k - 1, i);
    }
  }

  /** The `j`-th repetition of a pair sits at indices `2j` and `2j+1`. */
  lemma {:induction false} RepeatPairAt<T>(a: T, b: T, k: nat, j: nat)
    requires j < k
    ensures RepeatPair(a, b, k)[2 * j] == a && RepeatPair(a, b, k)[2 * j + 1] == b
  {
    if j < k - 1 {
      RepeatPairAt(a, b, k - 1, j);
    }
  }
}
