/**
 * The category list of the deck screens: the distinct categories of all
 * decks, sorted the way JavaScript's default sort orders strings (code unit
 * by code unit).
 */
module Categories {
  import opened Wrappers
  import opened DeckManager

  /** `a` sorts no later than `b`: lexicographic order on characters, a prefix first. */
  predicate LexLe(a: string, b: string)
  {
    a == [] || (b != [] && (a[0] < b[0] || (a[0] == b[0] && LexLe(a[1..], b[1..]))))
  }

  lemma {:induction false} LexLeTotal(a: string, b: string)
    ensures LexLe(a, b) || LexLe(b, a)
  {
    if a != [] && b != [] && a[0] == b[0] {
      LexLeTotal(a[1..], b[1..]);
    }
  }

  lemma {:induction false} LexLeAntisymmetric(a: string, b: string)
    requires LexLe(a, b) && LexLe(b, a)
    ensures a == b
  {
    if a != [] && b != [] {
      LexLeAntisymmetric(a[1..], b[1..]);
      assert a == [a[0]] + a[1..] && b == [b[0]] + b[1..];
    }
  }

  lemma {:induction false} LexLeTransitive(a: string, b: string, c: string)
    requires LexLe(a, b) && LexLe(b, c)
    ensures LexLe(a, c)
  {
    if a != [] && b != [] && c != [] && a[0] == b[0] && b[0] == c[0] {
      LexLeTransitive(a[1..], b[1..], c[1..]);
    }
  }

  predicate NoDuplicates(s: seq<string>)
  {
    forall i, j :: 0 <= i < j < |s| ==> s[i] != s[j]
  }

  /** `Array.from(new Set(s))`: the first occurrence of each value, in order. */
  function Distinct(s: seq<string>): (r: seq<string>)
    ensures NoDuplicates(r)
    ensures forall x :: x in r <==> x in s
  {
    if s == [] then []
    else
      var front := Distinct(s[..|s| - 1]);
      var last := s[|s| - 1];
      assert forall x :: x in s <==> x in s[..|s| - 1] || x == last by {
        assert s == s[..|s| - 1] + [last];
      }
      if last in front then front else front + [last]
  }

  predicate SortedStrings(s: seq<string>)
  {
    forall i, j :: 0 <= i < j < |s| ==> LexLe(s[i], s[j])
  }

  function InsertString(x: string, s: seq<string>): (r: seq<string>)
    requires SortedStrings(s)
    ensures SortedStrings(r)
    ensures multiset(r) == multiset(s) + multiset{x}
  {
    if s == [] then [x]
    else if LexLe(x, s[0]) then
      assert forall j :: 0 < j < |s| ==> LexLe(x, s[j]) by {
        forall j | 0 < j < |s| ensures LexLe(x, s[j]) {
          LexLeTransitive(x, s[0], s[j]);
        }
      }
      [x] + s
    else
      LexLeTotal(x, s[0]);
      var rest := InsertString(x, s[1..]);
      assert s == [s[0]] + s[1..];
      assert forall c :: c in multiset(rest) ==> LexLe(s[0], c);
      [s[0]] + rest
  }

  /** `sort()` with the default comparison. */
  function SortStrings(s: seq<string>): (r: seq<string>)
    ensures SortedStrings(r)
    ensures multiset(r) == multiset(s)
  {
    if s == [] then []
    else
      assert s == [s[0]] + s[1..];
      InsertString(s[0], SortStrings(s[1..]))
  }

  function CategoriesOf(decks: seq<Deck>): (cs: seq<string>)
    ensures |cs| == |decks|
    ensures forall c :: c in cs <==> exists d :: d in decks && d.category == c
  {
    if decks == [] then []
    else
      assert forall d :: d in decks <==> d == decks[0] || d in decks[1..];
      [decks[0].category] + CategoriesOf(decks[1..])
  }

  /**
   * `useCategories`: every category of some deck exactly once, in strictly
   * ascending order; nothing without deck data.
   */
  function Categories(decks: Option<seq<Deck>>): (r: seq<string>)
    ensures decks.None? ==> r == []
    ensures NoDuplicates(r)
    ensures forall i, j :: 0 <= i < j < |r| ==> LexLe(r[i], r[j]) && r[i] != r[j]
    ensures forall c :: c in r <==> decks.Some? && exists d :: d in decks.value && d.category == c
  {
    match decks
    case None => []
    case Some(ds) =>
      var distinct := Distinct(CategoriesOf(ds));
      var r := SortStrings(distinct);
      PermutationKeepsDistinct(distinct, r);
      r
  }

  /** A rearrangement of a list without duplicates has the same members and still none. */
  lemma PermutationKeepsDistinct(s: seq<string>, r: seq<string>)
    requires NoDuplicates(s) && multiset(r) == multiset(s)
    ensures NoDuplicates(r)
    ensures forall c :: c in r <==> c in s
  {
    assert forall c :: c in r <==> c in multiset(r);
    assert forall c :: c in s <==> c in multiset(s);
    forall i, j | 0 <= i < j < |r| ensures r[i] != r[j] {
      if r[i] == r[j] {
        assert multiset(r)[r[i]] >= 2 by {
          assert r == r[..i] + [r[i]] + r[i + 1..j] + [r[j]] + r[j + 1..];
        }
        DistinctCountsOnce(s, r[i]);
        assert false;
      }
    }
  }

  lemma {:induction false} DistinctCountsOnce(s: seq<string>, x: string)
    requires NoDuplicates(s)
    ensures multiset(s)[x] <= 1
  {
    if s != [] {
      var front := s[..|s| - 1];
      assert s == front + [s[|s| - 1]];
      DistinctCountsOnce(front, x);
      if s[|s| - 1] == x {
        assert x !in front;
      }
    }
  }
}
