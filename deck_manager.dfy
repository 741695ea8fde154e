/**
 * The deck administration logic: drag-and-drop reordering with the 1..n
 * renumbering written back to the store, the lock toggle, and the largest
 * order in use. The store is the decks table, keyed by deck id.
 */
module DeckManager {
  import opened Wrappers
  import opened IntMath

  datatype Deck = Deck(
    id: string,
    name: string,
    category: string,
    isLocked: bool,
    order: int,
    createdAt: string,
    updatedAt: string)

  /** Where `Array.prototype.splice` starts for a start argument on an array of length len. */
  function SpliceStart(start: int, len: int): (k: int)
    requires len >= 0
    ensures 0 <= k <= len
    ensures 0 <= start <= len ==> k == start
    ensures -len <= start < 0 ==> k == len + start
  {
    if start < 0 then Max(len + start, 0) else Min(start, len)
  }

  function RemoveAt<T>(s: seq<T>, i: int): (r: seq<T>)
    requires 0 <= i < |s|
    ensures |r| == |s| - 1
  {
    s[..i] + s[i + 1..]
  }

  function InsertAt<T>(s: seq<T>, i: int, x: T): (r: seq<T>)
    requires 0 <= i <= |s|
    ensures |r| == |s| + 1
  {
    s[..i] + [x] + s[i..]
  }

  /** Removing what was just inserted gives back the sequence; the two splices move one element. */
  lemma MoveLaws<T>(s: seq<T>, src: int, dst: int)
    requires 0 <= src < |s| && 0 <= dst <= |s| - 1
    ensures var r := InsertAt(RemoveAt(s, src), dst, s[src]);
      && |r| == |s|
      && multiset(r) == multiset(s)
      && r[dst] == s[src]
      && RemoveAt(r, dst) == RemoveAt(s, src)
  {
    var rest := RemoveAt(s, src);
    var r := InsertAt(rest, dst, s[src]);
    assert s == s[..src] + [s[src]] + s[src + 1..];
    assert multiset(s) == multiset(rest) + multiset{s[src]} by {
      assert s == (s[..src] + [s[src]]) + s[src + 1..];
    }
    assert r[..dst] == rest[..dst] && r[dst + 1..] == rest[dst..];
    assert RemoveAt(r, dst) == rest[..dst] + rest[dst..];
    assert rest == rest[..dst] + rest[dst..];
  }

  /** The new order of each deck, `{ id, order: index + 1 }` by position. */
  datatype OrderUpdate = OrderUpdate(id: string, order: int)

  function Renumber(decks: seq<Deck>): (updates: seq<OrderUpdate>)
    ensures |updates| == |decks|
    ensures forall k :: 0 <= k < |decks| ==> updates[k] == OrderUpdate(decks[k].id, k + 1)
  {
    seq(|decks|, k requires 0 <= k < |decks| => OrderUpdate(decks[k].id, k + 1))
  }

  /** One `update({ order }).eq('id', id)`: a row with that id gets the order; without one nothing changes. */
  function ApplyOrderUpdate(store: map<string, Deck>, u: OrderUpdate): map<string, Deck>
  {
    if u.id in store then store[u.id := store[u.id].(order := u.order)] else store
  }

  /** The updates applied one after the other, first to last. */
  function ApplyOrderUpdates(store: map<string, Deck>, updates: seq<OrderUpdate>): map<string, Deck>
  {
    if updates == [] then store
    else ApplyOrderUpdate(ApplyOrderUpdates(store, updates[..|updates| - 1]), updates[|updates| - 1])
  }

  predicate DistinctIds(decks: seq<Deck>)
  {
    forall i, j :: 0 <= i < j < |decks| ==> decks[i].id != decks[j].id
  }

  /**
   * After renumbering a list of decks with distinct ids, each listed deck
   * present in the store holds its position plus one as its order; the
   * store keeps its ids, and a deck that is not listed keeps its row.
   */
  lemma {:induction false} RenumberedStore(store: map<string, Deck>, decks: seq<Deck>)
    requires DistinctIds(decks)
    ensures var t := ApplyOrderUpdates(store, Renumber(decks));
      && t.Keys == store.Keys
      && (forall k :: 0 <= k < |decks| && decks[k].id in store ==> t[decks[k].id] == store[decks[k].id].(order := k + 1))
      && (forall id :: id in store && (forall k :: 0 <= k < |decks| ==> decks[k].id != id) ==> t[id] == store[id])
  {
    if decks != [] {
      var n := |decks|;
      var front := decks[..n - 1];
      var last := decks[n - 1];
      assert Renumber(decks)[..n - 1] == Renumber(front);
      assert DistinctIds(front) by {
        assert forall i :: 0 <= i < n - 1 ==> front[i] == decks[i];
      }
      RenumberedStore(store, front);
      var t0 := ApplyOrderUpdates(store, Renumber(front));
      var t := ApplyOrderUpdates(store, Renumber(decks));
      assert t == ApplyOrderUpdate(t0, OrderUpdate(last.id, n));
      forall k | 0 <= k < n && decks[k].id in store
        ensures t[decks[k].id] == store[decks[k].id].(order := k + 1)
      {
        if k < n - 1 {
          assert front[k] == decks[k] && decks[k].id != last.id;
        }
      }
      forall id | id in store && (forall k :: 0 <= k < n ==> decks[k].id != id)
        ensures t[id] == store[id]
      {
        assert forall k :: 0 <= k < n - 1 ==> front[k].id != id by {
          assert forall k :: 0 <= k < n - 1 ==> front[k] == decks[k];
        }
        assert last.id != id;
      }
    }
  }

  /**
   * `handleReorder`: without a deck list nothing happens. Otherwise the deck
   * at `sourceIndex` is spliced out of a copy of the list and back in at
   * `destinationIndex` (both read as `splice` reads them), every deck gets
   * its new position plus one as order, and the updates are written to the
   * store one by one. A source index that `splice` finds nothing at makes
   * the source fail; it is excluded.
   */
  method HandleReorder(decks: Option<seq<Deck>>, sourceIndex: int, destinationIndex: int,
                       store: map<string, Deck>)
    returns (reordered: seq<Deck>, updates: seq<OrderUpdate>, newStore: map<string, Deck>)
    requires decks.Some? ==> |decks.value| > 0 && sourceIndex < |decks.value|
    ensures decks.None? ==> reordered == [] && updates == [] && newStore == store
    ensures decks.Some? ==>
      var src := SpliceStart(sourceIndex, |decks.value|);
      var dst := SpliceStart(destinationIndex, |decks.value| - 1);
      && |reordered| == |decks.value|
      && multiset(reordered) == multiset(decks.value)
      && reordered[dst] == decks.value[src]
      && RemoveAt(reordered, dst) == RemoveAt(decks.value, src)
    ensures |updates| == |reordered|
    ensures forall k :: 0 <= k < |updates| ==> updates[k] == OrderUpdate(reordered[k].id, k + 1)
    ensures newStore == ApplyOrderUpdates(store, updates)
  {
    if decks.None? {
      return [], [], store;
    }
    reordered := MoveDeck(decks.value, sourceIndex, destinationIndex);
    updates := Renumber(reordered);
    newStore := WriteOrders(store, updates);
  }

  /**
   * The two `splice` calls: the deck at the source position ends at the
   * destination position, the other decks keep their relative order, and
   * no deck is lost or duplicated.
   */
  function MoveDeck(decks: seq<Deck>, sourceIndex: int, destinationIndex: int): (r: seq<Deck>)
    requires |decks| > 0 && sourceIndex < |decks|
    ensures var src := SpliceStart(sourceIndex, |decks|);
      var dst := SpliceStart(destinationIndex, |decks| - 1);
      && |r| == |decks|
      && multiset(r) == multiset(decks)
      && r[dst] == decks[src]
      && RemoveAt(r, dst) == RemoveAt(decks, src)
  {
    var src := SpliceStart(sourceIndex, |decks|);
    var rest := RemoveAt(decks, src);
    MoveLaws(decks, src, SpliceStart(destinationIndex, |rest|));
    InsertAt(rest, SpliceStart(destinationIndex, |rest|), decks[src])
  }

  /** The order updates written to the store one after the other. */
  method WriteOrders(store: map<string, Deck>, updates: seq<OrderUpdate>) returns (newStore: map<string, Deck>)
    ensures newStore == ApplyOrderUpdates(store, updates)
  {
    newStore := store;
    var k := 0;
    while k < |updates|
      invariant 0 <= k <= |updates|
      invariant newStore == ApplyOrderUpdates(store, updates[..k])
    {
      assert updates[..k + 1][..k] == updates[..k];
      newStore := ApplyOrderUpdate(newStore, updates[k]);
      k := k + 1;
    }
    assert updates[..k] == updates;
  }

  /** `decks.find(d => d.id === deckId)`: the first deck with that id. */
  function FindDeck(decks: seq<Deck>, deckId: string): (r: Option<Deck>)
    ensures r.None? <==> forall d :: d in decks ==> d.id != deckId
    ensures r.Some? ==> exists i :: 0 <= i < |decks| && decks[i] == r.value && r.value.id == deckId
                                    && forall j :: 0 <= j < i ==> decks[j].id != deckId
  {
    if decks == [] then None
    else if decks[0].id == deckId then Some(decks[0])
    else
      var r := FindDeck(decks[1..], deckId);
      assert forall d :: d in decks ==> d == decks[0] || d in decks[1..];
      if r.Some? then
        var i :| 0 <= i < |decks[1..]| && decks[1..][i] == r.value && r.value.id == deckId
                 && forall j :: 0 <= j < i ==> decks[1..][j].id != deckId;
        assert decks[i + 1] == r.value;
        r
      else r
  }

  /**
   * `handleToggleLock`: the deck as listed is found by id and its row gets
   * the negation of the listed lock flag; an unknown id, or no list, does
   * nothing.
   */
  function ToggleLock(decks: Option<seq<Deck>>, deckId: string, store: map<string, Deck>): (t: map<string, Deck>)
    ensures t.Keys == store.Keys
    ensures forall id :: id in store && id != deckId ==> t[id] == store[id]
    ensures decks.None? || FindDeck(decks.value, deckId).None? ==> t == store
    ensures decks.Some? && FindDeck(decks.value, deckId).Some? && deckId in store ==>
              t[deckId] == store[deckId].(isLocked := !FindDeck(decks.value, deckId).value.isLocked)
  {
    if decks.None? then store
    else match FindDeck(decks.value, deckId)
      case None => store
      case Some(deck) =>
        if deckId in store then store[deckId := store[deckId].(isLocked := !deck.isLocked)] else store
  }

  /** The left fold `reduce((max, deck) => Math.max(max, deck.order), acc)`. */
  function MaxOrderFrom(decks: seq<Deck>, acc: int): (m: int)
    ensures m >= acc
    ensures forall d :: d in decks ==> d.order <= m
    ensures m == acc || exists d :: d in decks && d.order == m
  {
    if decks == [] then acc
    else
      assert forall d :: d in decks ==> d == decks[0] || d in decks[1..];
      MaxOrderFrom(decks[1..], Max(acc, decks[0].order))
  }

  /** `currentMaxOrder`: the largest deck order, or 0 without decks or when no order is positive. */
  function CurrentMaxOrder(decks: Option<seq<Deck>>): (m: int)
    ensures m >= 0
    ensures decks.None? || decks.value == [] ==> m == 0
    ensures decks.Some? ==> forall d :: d in decks.value ==> d.order <= m
    ensures decks.Some? && m != 0 ==> exists d :: d in decks.value && d.order == m
  {
    match decks
    case None => 0
    case Some(ds) => MaxOrderFrom(ds, 0)
  }
}
