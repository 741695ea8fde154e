/**
 * The rotation policy: the Fisher-Yates shuffle a session starts with, and
 * the skip distance that picks the card shown after a rating.
 */
module CardRotation {
  import opened Wrappers
  import opened IntMath
  import opened StudyConstants

  /**
   * `shuffleCards`: a Fisher-Yates shuffle of a copy of the input. `None`
   * stands for an argument that is not an array, which gives the empty
   * list. The random index of each step is a nondeterministic choice in
   * `[0, i]`, so the contract holds for every sequence of random draws.
   * The input is a value and is left as it was.
   */
  method ShuffleCards<T>(input: Option<seq<T>>) returns (shuffled: seq<T>)
    ensures input.None? ==> shuffled == []
    ensures input.Some? ==> |shuffled| == |input.value|
    ensures input.Some? ==> multiset(shuffled) == multiset(input.value)
  {
    if input.None? {
      return [];
    }
    var cards := input.value;
    var a := new T[|cards|](k requires 0 <= k < |cards| => cards[k]);
    assert a[..] == cards;
    var i := a.Length - 1;
    while i > 0
      invariant i < a.Length
      invariant multiset(a[..]) == multiset(cards)
    {
      var j :| 0 <= j <= i;
      a[i], a[j] := a[j], a[i];
      i := i - 1;
    }
    shuffled := a[..];
  }

  /** How many places the deck advances after a rating: the weight, kept within [1, n - 1]. */
  function RotationDistance(n: int, r: Rating): (d: int)
    ensures d >= 1
    ensures n >= 2 ==> d <= n - 1
  {
    Max(1, Min(n - 1, Weight(r)))
  }

  /** `rotateCards`: the index of the card shown after rating the card at `currentIndex`. */
  function RotateCards<T>(cards: seq<T>, currentIndex: int, r: Rating): (next: int)
    ensures 0 <= next && (|cards| > 0 ==> next < |cards|)
    ensures |cards| == 0 || currentIndex < 0 || currentIndex >= |cards| ==> next == 0
    ensures |cards| >= 2 && 0 <= currentIndex < |cards| ==> next != currentIndex
  {
    if |cards| == 0 then 0
    else if currentIndex < 0 || currentIndex >= |cards| then 0
    else (currentIndex + RotationDistance(|cards|, r)) % |cards|
  }

  /** A worse rating brings the deck back round sooner: the distance grows with the weight. */
  lemma RotationDistanceMonotone(n: int, a: Rating, b: Rating)
    requires Weight(a) <= Weight(b)
    ensures RotationDistance(n, a) <= RotationDistance(n, b)
  {
  }

  /** With four cards at index 0, EASY moves to index 3; with one card the index is always 0. */
  lemma RotationExamples<T>(four: seq<T>, one: seq<T>, i: int, r: Rating)
    requires |four| == 4 && |one| == 1
    ensures RotateCards(four, 0, EASY) == 3
    ensures RotateCards(one, i, r) == 0
  {
  }

  /** The index reached after k ratings, all rated r, from `start`. */
  function RotateTimes<T>(cards: seq<T>, start: int, r: Rating, k: nat): int
  {
    if k == 0 then start else RotateCards(cards, RotateTimes(cards, start, r, k - 1), r)
  }

  lemma MulPos(k: int, n: int)
    requires k >= 1 && n > 0
    ensures k * n >= n
  {
  }

  lemma ModUnique(a: int, n: int, q: int, m: int)
    requires n > 0 && 0 <= m < n && a == q * n + m
    ensures a % n == m
  {
    var q', m' := a / n, a % n;
    assert a == q' * n + m';
    if q > q' {
      assert q * n == (q - q') * n + q' * n;
      MulPos(q - q', n);
    } else if q < q' {
      assert q' * n == (q' - q) * n + q * n;
      MulPos(q' - q, n);
    }
  }

  lemma ModAdd(x: int, d: int, n: int)
    requires n > 0
    ensures (x % n + d) % n == (x + d) % n
  {
    var q1, m1 := x / n, x % n;
    var q2, m2 := (m1 + d) / n, (m1 + d) % n;
    assert x + d == (q1 + q2) * n + m2 by {
      assert x == q1 * n + m1;
      assert m1 + d == q2 * n + m2;
      assert (q1 + q2) * n == q1 * n + q2 * n;
    }
    ModUnique(x + d, n, q1 + q2, m2);
  }

  /** From a valid index, one rating advances by the rotation distance, modulo the deck size. */
  lemma RotateFrom<T>(cards: seq<T>, i: int, r: Rating)
    requires 0 <= i < |cards|
    ensures RotateCards(cards, i, r) == (i + RotationDistance(|cards|, r)) % |cards|
  {
  }

  /**
   * From a valid index, k ratings of the same kind advance the deck by k
   * times the rotation distance, modulo the deck size.
   */
  lemma {:induction false} RotateTimesFormula<T>(cards: seq<T>, start: int, r: Rating, k: nat)
    requires 0 <= start < |cards|
    ensures RotateTimes(cards, start, r, k) == (start + k * RotationDistance(|cards|, r)) % |cards|
  {
    var n, d := |cards|, RotationDistance(|cards|, r);
    if k == 0 {
      ModUnique(start, n, 0, start);
    } else {
      RotateTimesFormula(cards, start, r, k - 1);
      var x := start + (k - 1) * d;
      var prev := RotateTimes(cards, start, r, k - 1);
      assert prev == x % n && 0 <= prev < n;
      RotateFrom(cards, prev, r);
      assert RotateTimes(cards, start, r, k) == RotateCards(cards, prev, r);
      ModAdd(x, d, n);
      assert x + d == start + k * d by {
        assert k * d == (k - 1) * d + d;
      }
    }
  }

  /** Rating every card FAIL walks through the whole deck: every index is reached within n ratings. */
  lemma FailRatingsVisitEveryCard<T>(cards: seq<T>, start: int, target: int)
    requires 0 <= start < |cards| && 0 <= target < |cards|
    ensures exists k: nat :: k < |cards| && RotateTimes(cards, start, FAIL, k) == target
  {
    var n := |cards|;
    var k: nat := (target - start) % n;
    RotateTimesFormula(cards, start, FAIL, k);
    if n == 1 {
      assert k == 0 && start == target;
    } else {
      assert RotationDistance(n, FAIL) == 1;
      assert RotateTimes(cards, start, FAIL, k) == (start + k) % n;
      ModAdd(target - start, start, n);
      ModUnique(target, n, 0, target);
    }
  }
}
