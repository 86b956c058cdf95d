/** The Swipe collection: directional decisions between ordered user pairs,
    at most one document per pair (the unique compound index), and the
    two write paths the controllers use on it. */
module SwipeModel {
  import opened Common

  datatype Direction = Left | Right

  /** The schema's `enum: ['left', 'right']`. */
  function ParseDirection(s: string): (d: Option<Direction>)
    ensures d.Some? <==> s == "left" || s == "right"
    ensures d == Some(Right) <==> s == "right"
  {
    if s == "left" then Some(Left)
    else if s == "right" then Some(Right)
    else None
  }

  /** A Swipe document. `createdAt` and `updatedAt` are the schema's
      timestamps, read off the collection's abstract clock, which ticks on
      every swipe write request, a `save()` that changes nothing included. */
  datatype Swipe = Swipe(
    swipedBy: UserId,
    swipedUser: UserId,
    direction: Direction,
    createdAt: nat,
    updatedAt: nat)

  /** The ordered pair `(swipedBy, swipedUser)` the unique index is built on. */
  type Pair = (UserId, UserId)

  function Key(s: Swipe): Pair {
    (s.swipedBy, s.swipedUser)
  }

  /** The unique index on `{ swipedBy: 1, swipedUser: 1 }`. */
  ghost predicate UniquePairs(docs: seq<Swipe>) {
    forall i, j :: 0 <= i < j < |docs| ==> Key(docs[i]) != Key(docs[j])
  }

  /** Documents sit in the collection in creation order. */
  ghost predicate Chronological(docs: seq<Swipe>) {
    forall i, j :: 0 <= i < j < |docs| ==> docs[i].createdAt < docs[j].createdAt
  }

  /** The positions holding a document for pair `k`. */
  ghost function Entries(docs: seq<Swipe>, k: Pair): set<nat> {
    set i | 0 <= i < |docs| && Key(docs[i]) == k
  }

  /** `Swipe.findOne({ swipedBy, swipedUser })`: the first document for the
      pair, in collection order. */
  function FindSwipe(docs: seq<Swipe>, k: Pair): (r: Option<nat>)
    ensures r.Some? ==> r.value < |docs| && Key(docs[r.value]) == k &&
                        forall j :: 0 <= j < r.value ==> Key(docs[j]) != k
    ensures r.None? <==> forall j :: 0 <= j < |docs| ==> Key(docs[j]) != k
  {
    if docs == [] then None
    else if Key(docs[0]) == k then Some(0)
    else match FindSwipe(docs[1..], k)
      case None => None
      case Some(i) => Some(i + 1)
  }

  /** The pairs that have a document. */
  function Keys(docs: seq<Swipe>): set<Pair> {
    set s | s in docs :: Key(s)
  }

  /** The ledger the collection denotes: each pair with a document, mapped
      to the direction `findOne` reads for it. */
  function Ledger(docs: seq<Swipe>): map<Pair, Direction> {
    map k | k in Keys(docs) :: docs[FindSwipe(docs, k).value].direction
  }

  /** What the ledger holds for pair `k`: an entry exactly when some
      document has that pair, and then the direction of the pair's first
      document, in collection order. */
  lemma LedgerReadsFirst(docs: seq<Swipe>, k: Pair)
    ensures k in Ledger(docs) <==> exists i :: 0 <= i < |docs| && Key(docs[i]) == k
    ensures k in Ledger(docs) ==> exists i ::
      && 0 <= i < |docs| && Key(docs[i]) == k && Ledger(docs)[k] == docs[i].direction
      && forall j :: 0 <= j < i ==> Key(docs[j]) != k
  {
    if exists i :: 0 <= i < |docs| && Key(docs[i]) == k {
      var i :| 0 <= i < |docs| && Key(docs[i]) == k;
      assert docs[i] in docs;
    }
    if k in Ledger(docs) {
      var i := FindSwipe(docs, k).value;
      assert Key(docs[i]) == k;
    } else {
      NoDocumentNoKey(docs, k);
    }
  }

  /** Under the unique index every document is its pair's ledger entry. */
  lemma LedgerHas(docs: seq<Swipe>, s: Swipe)
    requires UniquePairs(docs) && s in docs
    ensures Key(s) in Ledger(docs) && Ledger(docs)[Key(s)] == s.direction
  {
    var i :| 0 <= i < |docs| && docs[i] == s;
    assert Key(s) in Keys(docs);
    var j := FindSwipe(docs, Key(s)).value;
    assert i == j;
  }

  /** Every ledger entry is read off some document of its pair. */
  lemma LedgerEntry(docs: seq<Swipe>, k: Pair)
    requires k in Ledger(docs)
    ensures exists s :: s in docs && Key(s) == k && s.direction == Ledger(docs)[k]
  {
    var s := docs[FindSwipe(docs, k).value];
    assert s in docs && Key(s) == k;
  }

  /** A pair `findOne` finds no document for has no ledger entry. */
  lemma NoDocumentNoKey(docs: seq<Swipe>, k: Pair)
    requires FindSwipe(docs, k).None?
    ensures k !in Keys(docs) && k !in Ledger(docs)
  {
    forall t | t in docs ensures Key(t) != k {
      var j :| 0 <= j < |docs| && docs[j] == t;
    }
  }

  /** Under the unique index the pair of document `i` has `i` as its only
      position. */
  lemma OneEntry(docs: seq<Swipe>, i: nat)
    requires UniquePairs(docs) && i < |docs|
    ensures Entries(docs, Key(docs[i])) == {i}
  {
  }

  /** Rewriting a document in place without changing its pair keeps the set
      of pairs with a document. */
  lemma SameKeys(docs: seq<Swipe>, i: nat, s: Swipe)
    requires i < |docs| && Key(s) == Key(docs[i])
    ensures Keys(docs[i := s]) == Keys(docs)
  {
    var after := docs[i := s];
    forall k ensures k in Keys(after) <==> k in Keys(docs) {
      if k in Keys(after) {
        var t :| t in after && Key(t) == k;
        var j :| 0 <= j < |after| && after[j] == t;
        assert docs[j] in docs;
      }
      if k in Keys(docs) {
        var t :| t in docs && Key(t) == k;
        var j :| 0 <= j < |docs| && docs[j] == t;
        assert after[j] in after;
      }
    }
  }

  /** ... and keeps the position of every pair's first document. */
  lemma SameFirsts(docs: seq<Swipe>, i: nat, s: Swipe, k: Pair)
    requires i < |docs| && Key(s) == Key(docs[i]) && k in Keys(docs)
    ensures FindSwipe(docs[i := s], k) == FindSwipe(docs, k)
  {
    var after := docs[i := s];
    forall j | 0 <= j < |docs| ensures Key(after[j]) == Key(docs[j]) { }
    var t :| t in docs && Key(t) == k;
    var x, y := FindSwipe(after, k), FindSwipe(docs, k);
    assert x.Some? && y.Some?;
    assert Key(docs[x.value]) == k;
    assert Key(after[y.value]) == k;
  }

  /** Rewriting the first document of a pair in place changes that pair's
      ledger entry and nothing else. */
  lemma LedgerUpdated(docs: seq<Swipe>, i: nat, s: Swipe)
    requires i < |docs| && Key(s) == Key(docs[i]) && FindSwipe(docs, Key(s)) == Some(i)
    ensures Ledger(docs[i := s]) == Ledger(docs)[Key(s) := s.direction]
  {
    SameKeys(docs, i, s);
    forall k | k in Keys(docs) ensures FindSwipe(docs[i := s], k) == FindSwipe(docs, k) {
      SameFirsts(docs, i, s, k);
    }
  }

  /** Under the unique index, writing a document's own direction back leaves
      the ledger as it is, and the pair keeps its one document. */
  lemma SameDirectionKeepsLedger(docs: seq<Swipe>, i: nat)
    requires UniquePairs(docs) && i < |docs|
    ensures Ledger(docs)[Key(docs[i]) := docs[i].direction] == Ledger(docs)
    ensures |Entries(docs, Key(docs[i]))| == 1
  {
    LedgerHas(docs, docs[i]);
    OneEntry(docs, i);
  }

  /** Appending a document for a pair with no document adds that pair's
      ledger entry and changes nothing else. */
  lemma {:induction false} LedgerAppended(docs: seq<Swipe>, s: Swipe)
    requires Key(s) !in Keys(docs)
    ensures Ledger(docs + [s]) == Ledger(docs)[Key(s) := s.direction]
  {
    var after := docs + [s];
    assert Keys(after) == Keys(docs) + {Key(s)} by {
      forall k ensures k in Keys(after) <==> k in Keys(docs) + {Key(s)} {
        if k in Keys(after) && k != Key(s) {
          var t :| t in after && Key(t) == k;
          assert t in docs;
        }
        if k in Keys(docs) {
          var t :| t in docs && Key(t) == k;
          assert t in after;
        }
        if k == Key(s) {
          assert after[|docs|] == s;
        }
      }
    }
    forall k | k in Keys(docs)
      ensures FindSwipe(after, k) == FindSwipe(docs, k)
    {
      var x, y := FindSwipe(after, k), FindSwipe(docs, k);
      assert y.Some? && after[y.value] == docs[y.value];
      assert x.Some? && x.value <= y.value;
      assert after[x.value] == docs[x.value];
    }
    assert FindSwipe(after, Key(s)) == Some(|docs|) by {
      forall j | 0 <= j < |docs| ensures Key(after[j]) != Key(s) {
        assert docs[j] in docs;
      }
    }
  }

  /** The stored Swipe collection, with the abstract clock its timestamps are
      read from. */
  class SwipeCollection {
    var docs: seq<Swipe>
    var clock: nat

    /** The unique index holds, documents are in creation order and every
        timestamp lies in the past of the clock. */
    ghost predicate Valid()
      reads this
    {
      && UniquePairs(docs)
      && Chronological(docs)
      && forall s :: s in docs ==> s.createdAt < clock
    }

    constructor ()
      ensures Valid() && docs == []
    {
      docs := [];
      clock := 0;
    }

    /** `swipeUser`'s write: `findOne` the pair's document; if there is one,
        set its direction and `save()` it (Mongoose writes nothing, not even
        `updatedAt`, when the direction is unchanged); otherwise `create` it. */
    method SaveSwipe(actor: UserId, target: UserId, d: Direction)
      requires Valid()
      modifies this
      ensures Valid()
      ensures Ledger(docs) == old(Ledger(docs))[(actor, target) := d]
      ensures |Entries(docs, (actor, target))| == 1
      ensures (actor, target) in old(Ledger(docs)) && old(Ledger(docs))[(actor, target)] == d ==>
                docs == old(docs)
      ensures match old(FindSwipe(docs, (actor, target)))
                case Some(i) =>
                  docs == old(docs)[i := if old(docs[i]).direction == d then old(docs[i])
                                         else old(docs[i]).(direction := d, updatedAt := old(clock))]
                case None =>
                  docs == old(docs) + [Swipe(actor, target, d, old(clock), old(clock))]
      ensures clock == old(clock) + 1
    {
      var now := clock;
      clock := clock + 1;
      var found := FindSwipe(docs, (actor, target));
      if found.None? {
        NoDocumentNoKey(docs, (actor, target));
        Append(Swipe(actor, target, d, now, now));
      } else if docs[found.value].direction != d {
        LedgerHas(docs, docs[found.value]);
        Replace(found.value, docs[found.value].(direction := d, updatedAt := now));
      } else {
        SameDirectionKeepsLedger(docs, found.value);
      }
    }

    /** `respondToLike`'s write: `findOneAndUpdate` with `upsert: true`; an
        existing document gets the direction and a new `updatedAt`, otherwise
        one is inserted. */
    method UpsertSwipe(actor: UserId, target: UserId, d: Direction) returns (stored: Swipe)
      requires Valid()
      modifies this
      ensures Valid()
      ensures Ledger(docs) == old(Ledger(docs))[(actor, target) := d]
      ensures |Entries(docs, (actor, target))| == 1
      ensures stored in docs && Key(stored) == (actor, target) && stored.direction == d
      ensures match old(FindSwipe(docs, (actor, target)))
                case Some(i) =>
                  docs == old(docs)[i := old(docs[i]).(direction := d, updatedAt := old(clock))]
                case None =>
                  docs == old(docs) + [Swipe(actor, target, d, old(clock), old(clock))]
      ensures clock == old(clock) + 1
    {
      var now := clock;
      clock := clock + 1;
      var found := FindSwipe(docs, (actor, target));
      if found.Some? {
        var i := found.value;
        stored := docs[i].(direction := d, updatedAt := now);
        Replace(i, stored);
      } else {
        stored := Swipe(actor, target, d, now, now);
        NoDocumentNoKey(docs, (actor, target));
        Append(stored);
      }
    }

    /** `Swipe.create`, for a pair that has no document yet. */
    method Append(s: Swipe)
      requires Valid() && Key(s) !in Keys(docs) && s.createdAt < clock
      requires forall t :: t in docs ==> t.createdAt < s.createdAt
      modifies this`docs
      ensures docs == old(docs) + [s]
      ensures Valid()
      ensures Ledger(docs) == old(Ledger(docs))[Key(s) := s.direction]
      ensures |Entries(docs, Key(s))| == 1
    {
      forall j | 0 <= j < |docs| ensures Key(docs[j]) != Key(s) {
        assert docs[j] in docs;
      }
      LedgerAppended(docs, s);
      docs := docs + [s];
      OneEntry(docs, |docs| - 1);
    }

    /** `save()` of the pair's document after a field changed: the document
        keeps its pair and creation time. */
    method Replace(i: nat, s: Swipe)
      requires Valid() && i < |docs|
      requires Key(s) == Key(docs[i]) && s.createdAt == docs[i].createdAt
      requires FindSwipe(docs, Key(s)) == Some(i)
      modifies this`docs
      ensures docs == old(docs)[i := s]
      ensures Valid()
      ensures Ledger(docs) == old(Ledger(docs))[Key(s) := s.direction]
      ensures |Entries(docs, Key(s))| == 1
    {
      LedgerUpdated(docs, i, s);
      ghost var before := docs;
      docs := docs[i := s];
      assert forall j :: 0 <= j < |docs| ==>
        Key(docs[j]) == Key(before[j]) && docs[j].createdAt == before[j].createdAt;
      assert forall t :: t in docs ==> t in before || t == s;
      OneEntry(docs, i);
    }
  }
}
