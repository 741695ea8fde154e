/**
 * The statistics screen: the totals over a user's progress records, the
 * accuracy percentage, the failure bar of the answer chart and the deck
 * title shown above each record.
 */
module UserStats {
  import opened Wrappers
  import opened DeckManager
  import IE = IntervalEngine

  /** One `user_progress` record as the screen reads it; the counters may be null. */
  datatype DeckProgress = DeckProgress(
    deckId: string,
    cardsStudied: Option<int>,
    correctAnswers: Option<int>)

  datatype Totals = Totals(cardsStudied: int, correctAnswers: int)

  /** `value || 0`: a null counter counts as 0. */
  function OrZero(v: Option<int>): (n: int)
    ensures v.Some? ==> n == v.value
    ensures v.None? ==> n == 0
  {
    if v.Some? then v.value else 0
  }

  /** The `reduce` that sums both counters, one record at a time from the left. */
  function TotalStats(rows: seq<DeckProgress>): Totals
  {
    if rows == [] then Totals(0, 0)
    else
      var acc := TotalStats(rows[..|rows| - 1]);
      var curr := rows[|rows| - 1];
      Totals(acc.cardsStudied + OrZero(curr.cardsStudied),
             acc.correctAnswers + OrZero(curr.correctAnswers))
  }

  /** Independent reference: the sum of one counter, first record plus the rest. */
  function SumFrom(rows: seq<DeckProgress>, studied: bool): int
  {
    if rows == [] then 0
    else (OrZero(if studied then rows[0].cardsStudied else rows[0].correctAnswers)
      + SumFrom(rows[1..], studied))
  }

  lemma {:induction false} SumFromAppend(rows: seq<DeckProgress>, r: DeckProgress, studied: bool)
    ensures SumFrom(rows + [r], studied)
      == SumFrom(rows, studied) + OrZero(if studied then r.cardsStudied else r.correctAnswers)
  {
    if rows != [] {
      assert (rows + [r])[1..] == rows[1..] + [r];
      SumFromAppend(rows[1..], r, studied);
    }
  }

  /** The totals are the sums of each counter over all records, nulls counting 0. */
  lemma {:induction false} TotalStatsAreSums(rows: seq<DeckProgress>)
    ensures TotalStats(rows).cardsStudied == SumFrom(rows, true)
    ensures TotalStats(rows).correctAnswers == SumFrom(rows, false)
  {
    if rows != [] {
      var init := rows[..|rows| - 1];
      assert rows == init + [rows[|rows| - 1]];
      TotalStatsAreSums(init);
      SumFromAppend(init, rows[|rows| - 1], true);
      SumFromAppend(init, rows[|rows| - 1], false);
    }
  }

  /** A record whose counters are sane: no more correct answers than cards studied. */
  predicate SaneRecord(p: DeckProgress)
  {
    0 <= OrZero(p.correctAnswers) <= OrZero(p.cardsStudied)
  }

  /** Sane records add up to sane totals. */
  lemma {:induction false} TotalsOfSaneRecords(rows: seq<DeckProgress>)
    requires forall i :: 0 <= i < |rows| ==> SaneRecord(rows[i])
    ensures 0 <= TotalStats(rows).correctAnswers <= TotalStats(rows).cardsStudied
  {
    if rows != [] {
      TotalsOfSaneRecords(rows[..|rows| - 1]);
      assert SaneRecord(rows[|rows| - 1]);
    }
  }

  /** `Math.round(correct / studied * 100)` when some card was studied, else 0. */
  function Accuracy(t: Totals): (pct: int)
    ensures t.cardsStudied <= 0 ==> pct == 0
    ensures t.cardsStudied > 0 ==>
      2 * t.cardsStudied * pct <= 200 * t.correctAnswers + t.cardsStudied
        < 2 * t.cardsStudied * pct + 2 * t.cardsStudied
  {
    if t.cardsStudied > 0 then IE.RoundHalfUp(100 * t.correctAnswers, t.cardsStudied) else 0
  }

  /** With sane totals the accuracy is a percentage. */
  lemma AccuracyIsPercentage(t: Totals)
    requires 0 <= t.correctAnswers <= t.cardsStudied
    ensures 0 <= Accuracy(t) <= 100
  {
    if t.cardsStudied > 0 {
      var s, k := t.cardsStudied, Accuracy(t);
      if k > 100 {
        assert 2 * s * k >= 2 * s * 101 by { IE.ScaleMonotone(2 * s, 101, k); }
        assert false;
      }
      if k < 0 {
        assert 2 * s * k <= 2 * s * -1 by { IE.ScaleMonotone(2 * s, k, -1); }
        assert false;
      }
    }
  }

  /** Every answer right is 100%, every answer wrong is 0%. */
  lemma AccuracyExtremes(t: Totals)
    requires t.cardsStudied > 0
    ensures t.correctAnswers == t.cardsStudied ==> Accuracy(t) == 100
    ensures t.correctAnswers == 0 ==> Accuracy(t) == 0
  {
    var s, k := t.cardsStudied, Accuracy(t);
    if t.correctAnswers == s {
      assert 2 * s * k <= 201 * s < 2 * s * k + 2 * s;
      if k > 100 { IE.ScaleMonotone(2 * s, 101, k); }
      if k < 100 { IE.ScaleMonotone(2 * s, k, 99); }
    }
    if t.correctAnswers == 0 {
      if k > 0 { IE.ScaleMonotone(2 * s, 1, k); }
      if k < 0 { IE.ScaleMonotone(2 * s, k, -1); }
    }
  }

  /** The first bar of the answer chart: the answers that were not correct. */
  function FailureBar(t: Totals): int
  {
    t.cardsStudied - t.correctAnswers
  }

  function FailuresOf(rows: seq<DeckProgress>): int
  {
    if rows == [] then 0
    else (FailuresOf(rows[..|rows| - 1])
      + OrZero(rows[|rows| - 1].cardsStudied) - OrZero(rows[|rows| - 1].correctAnswers))
  }

  /** The failure bar is the sum of each record's failures, and never negative for sane records. */
  lemma {:induction false} FailureBarIsSumOfFailures(rows: seq<DeckProgress>)
    ensures FailureBar(TotalStats(rows)) == FailuresOf(rows)
    ensures (forall i :: 0 <= i < |rows| ==> SaneRecord(rows[i])) ==> FailureBar(TotalStats(rows)) >= 0
  {
    if rows != [] {
      FailureBarIsSumOfFailures(rows[..|rows| - 1]);
    }
    if forall i :: 0 <= i < |rows| ==> SaneRecord(rows[i]) {
      TotalsOfSaneRecords(rows);
    }
  }

  /** The `reduce` that maps each deck id to its name, one deck at a time from the left. */
  function DeckNames(decks: seq<Deck>): (names: map<string, string>)
    ensures forall id :: id in names <==> (exists i :: 0 <= i < |decks| && decks[i].id == id)
  {
    if decks == [] then map[]
    else
      var init := DeckNames(decks[..|decks| - 1]);
      var last := decks[|decks| - 1];
      assert forall i :: 0 <= i < |decks| - 1 ==> decks[..|decks| - 1][i] == decks[i];
      init[last.id := last.name]
  }

  /** The name recorded for an id is the name of the last deck carrying that id. */
  lemma {:induction false} DeckNamesLastWins(decks: seq<Deck>, i: int)
    requires 0 <= i < |decks|
    requires forall j :: i < j < |decks| ==> decks[j].id != decks[i].id
    ensures decks[i].id in DeckNames(decks)
    ensures DeckNames(decks)[decks[i].id] == decks[i].name
  {
    var init := decks[..|decks| - 1];
    if i < |decks| - 1 {
      assert init[i] == decks[i];
      assert forall j :: i < j < |init| ==> init[j] == decks[j];
      DeckNamesLastWins(init, i);
    }
  }

  /** The map used by the screen: empty when the deck query has no data. */
  function DeckNamesOrEmpty(decks: Option<seq<Deck>>): (names: map<string, string>)
    ensures decks.None? ==> names == map[]
  {
    if decks.Some? then DeckNames(decks.value) else map[]
  }

  const UNKNOWN_DECK := "Deck inconnu"

  /** `deckNames[id] || 'Deck inconnu'`: a missing id or an empty name shows the fallback. */
  function DisplayName(names: map<string, string>, id: string): (title: string)
    ensures id in names && names[id] != "" ==> title == names[id]
    ensures id !in names || names[id] == "" ==> title == UNKNOWN_DECK
    ensures title != ""
  {
    if id in names && names[id] != "" then names[id] else UNKNOWN_DECK
  }

  /** What the screen shows. */
  datatype StatsView =
    | NoStats
    | Stats(totals: Totals, accuracy: int, failures: int, titles: seq<string>)

  /** The whole screen: nothing when there are no records, the totals and one title per record otherwise. */
  function View(progress: Option<seq<DeckProgress>>, decks: Option<seq<Deck>>): (v: StatsView)
    ensures v.NoStats? <==> progress.None? || progress.value == []
    ensures v.Stats? ==> (v.totals == TotalStats(progress.value)
      && v.accuracy == Accuracy(v.totals)
      && v.failures == FailureBar(v.totals)
      && |v.titles| == |progress.value|
      && forall i :: 0 <= i < |v.titles| ==>
        v.titles[i] == DisplayName(DeckNamesOrEmpty(decks), progress.value[i].deckId))
  {
    if progress.None? || progress.value == [] then NoStats
    else
      var rows := progress.value;
      var names := DeckNamesOrEmpty(decks);
      var t := TotalStats(rows);
      Stats(t, Accuracy(t), FailureBar(t), seq(|rows|, i requires 0 <= i < |rows| => DisplayName(names, rows[i].deckId)))
  }

  /** A screen over sane records shows an accuracy in [0, 100] and a non-negative failure bar. */
  lemma SaneViewBounds(progress: Option<seq<DeckProgress>>, decks: Option<seq<Deck>>)
    requires progress.Some? && forall i :: 0 <= i < |progress.value| ==> SaneRecord(progress.value[i])
    ensures var v := View(progress, decks);
      v.Stats? ==> 0 <= v.accuracy <= 100 && v.failures >= 0
  {
    TotalsOfSaneRecords(progress.value);
    AccuracyIsPercentage(TotalStats(progress.value));
  }
}
