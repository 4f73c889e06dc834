/** An abstract in-memory stand-in for the bid entity storage and the entity
    queries run against it. Bids are kept in id order; entity ids and revision
    ids come from two counters, as the storage's serial columns do. */
module BidStore {
  import opened Optional
  import opened BidEntity

  datatype Store = Store(bids: seq<Bid>, nextId: BidId, nextVid: RevisionId)

  predicate VidsBelow(b: Bid, bound: RevisionId) {
    forall i :: 0 <= i < |b.revisions| ==> b.revisions[i].vid < bound
  }

  /** Ids are unique and increasing, every bid is well formed, and both
      counters are past every id handed out so far. */
  predicate Valid(s: Store) {
    IdsIncrease(s.bids) && AllBelow(s.bids, s.nextId, s.nextVid)
  }

  predicate IdsIncrease(bids: seq<Bid>) {
    forall i, j :: 0 <= i < j < |bids| ==> bids[i].id < bids[j].id
  }

  predicate AllBelow(bids: seq<Bid>, nextId: BidId, nextVid: RevisionId) {
    forall b :: b in bids ==> b.id < nextId && WellFormed(b) && VidsBelow(b, nextVid)
  }

  function EmptyStore(): (s: Store)
    ensures Valid(s) && |s.bids| == 0
  {
    Store([], 1, 1)
  }

  /** The conditions of a bid entity query: `offer_id`, and `user_id` when given. */
  datatype Query = Query(offer: OfferId, user: Option<UserId>)

  predicate Matches(b: Bid, q: Query) {
    b.offerId == q.offer && (q.user.None? || b.userId == q.user.value)
  }

  /** A query's result, loaded, in storage order. */
  function Select(bids: seq<Bid>, q: Query): (r: seq<Bid>)
    ensures |r| <= |bids|
    ensures forall b :: b in r <==> b in bids && Matches(b, q)
  {
    if |bids| == 0 then []
    else (if Matches(bids[0], q) then [bids[0]] else []) + Select(bids[1..], q)
  }

  /** A query's `count()`. */
  function Count(bids: seq<Bid>, q: Query): (r: nat)
    ensures r <= |bids|
    ensures r == 0 <==> forall b :: b in bids ==> !Matches(b, q)
  {
    if |bids| == 0 then 0
    else (if Matches(bids[0], q) then 1 else 0) + Count(bids[1..], q)
  }

  /** The count query and the loading query agree on how many bids match. */
  lemma {:induction false} CountIsSelectSize(bids: seq<Bid>, q: Query)
    ensures Count(bids, q) == |Select(bids, q)|
  {
    if |bids| > 0 {
      CountIsSelectSize(bids[1..], q);
    }
  }

  /** A query keeps storage order, so on a valid store its ids increase. */
  lemma {:induction false} SelectKeepsIdOrder(bids: seq<Bid>, q: Query)
    requires forall i, j :: 0 <= i < j < |bids| ==> bids[i].id < bids[j].id
    ensures forall i, j :: 0 <= i < j < |Select(bids, q)| ==> Select(bids, q)[i].id < Select(bids, q)[j].id
  {
    if |bids| > 0 {
      SelectKeepsIdOrder(bids[1..], q);
      var rest := Select(bids[1..], q);
      forall k | 0 <= k < |rest|
        ensures bids[0].id < rest[k].id
      {
        assert rest[k] in bids[1..];
      }
    }
  }

  /** Saving a bid created just now adds it at the end; earlier bids match a
      query exactly as before. */
  lemma {:induction false} SelectAppend(bids: seq<Bid>, b: Bid, q: Query)
    ensures Select(bids + [b], q) == Select(bids, q) + (if Matches(b, q) then [b] else [])
  {
    if |bids| == 0 {
      assert bids + [b] == [b];
    } else {
      assert (bids + [b])[1..] == bids[1..] + [b];
      SelectAppend(bids[1..], b, q);
    }
  }

  /** `Bid::load(id)`: the bid with that id, if there is one. */
  function Load(s: Store, id: BidId): (r: Option<Bid>)
    ensures r.Some? <==> exists b :: b in s.bids && b.id == id
    ensures r.Some? ==> r.value in s.bids && r.value.id == id
  {
    Find(s.bids, id)
  }

  function Find(bids: seq<Bid>, id: BidId): (r: Option<Bid>)
    ensures r.Some? <==> exists b :: b in bids && b.id == id
    ensures r.Some? ==> r.value in bids && r.value.id == id
  {
    if |bids| == 0 then None
    else if bids[0].id == id then Some(bids[0])
    else
      assert forall b :: b in bids && b.id == id ==> b in bids[1..];
      Find(bids[1..], id)
  }

  /** Writing back a loaded bid: the stored bid with the same id is replaced. */
  function Replace(bids: seq<Bid>, b: Bid): (r: seq<Bid>)
    ensures |r| == |bids|
    ensures forall i :: 0 <= i < |bids| && bids[i].id == b.id ==> r[i] == b
    ensures forall i :: 0 <= i < |bids| && bids[i].id != b.id ==> r[i] == bids[i]
    ensures forall i :: 0 <= i < |bids| ==> r[i].id == bids[i].id
  {
    if |bids| == 0 then []
    else [if bids[0].id == b.id then b else bids[0]] + Replace(bids[1..], b)
  }

  /** Two stores that a query treats alike position by position give the
      same count. */
  lemma {:induction false} CountPointwise(xs: seq<Bid>, ys: seq<Bid>, q: Query)
    requires |xs| == |ys|
    requires forall i :: 0 <= i < |xs| ==> (Matches(xs[i], q) <==> Matches(ys[i], q))
    ensures Count(xs, q) == Count(ys, q)
  {
    if |xs| > 0 {
      CountPointwise(xs[1..], ys[1..], q);
    }
  }

  /** Saving a newly created bid: it gets the next entity id, one revision
      with the next revision id, and the request time as creation time.
      Nothing stored before changes. */
  function Create(s: Store, user: UserId, offer: OfferId, amount: Amount, now: Timestamp): (r: Store)
    requires Valid(s)
    ensures Valid(r)
    ensures |r.bids| == |s.bids| + 1 && r.bids[..|s.bids|] == s.bids
    ensures r.nextVid == s.nextVid + 1
    ensures Load(s, r.bids[|s.bids|].id).None?
    ensures var b := r.bids[|s.bids|];
      b.userId == user && b.offerId == offer && b.created == now
      && |b.revisions| == 1 && CurrentAmount(b) == amount
  {
    var b := Bid(s.nextId, user, offer, now, [Revision(s.nextVid, amount, None, "", now)]);
    AppendValid(s, b);
    Store(s.bids + [b], s.nextId + 1, s.nextVid + 1)
  }

  /** Adding a well-formed bid with the next entity id, whose revisions take
      at most the next revision id, keeps the store valid. */
  lemma AppendValid(s: Store, b: Bid)
    requires Valid(s) && b.id == s.nextId && WellFormed(b) && VidsBelow(b, s.nextVid + 1)
    ensures Valid(Store(s.bids + [b], s.nextId + 1, s.nextVid + 1))
    ensures (s.bids + [b])[..|s.bids|] == s.bids
    ensures Load(s, b.id).None?
  {
    var bids := s.bids + [b];
    assert forall c :: c in bids ==> c in s.bids || c == b;
    assert IdsIncrease(bids);
    assert AllBelow(bids, s.nextId + 1, s.nextVid + 1);
    assert bids[..|s.bids|] == s.bids;
  }

  /** In a valid store an id names exactly one bid. */
  lemma LoadAt(s: Store, k: nat)
    requires Valid(s) && k < |s.bids|
    ensures Load(s, s.bids[k].id) == Some(s.bids[k])
  {
    var c := Load(s, s.bids[k].id).value;
    var j :| 0 <= j < |s.bids| && s.bids[j] == c;
    assert j == k;
  }

  /** Swapping the bid at `k` for one with the same id, well formed and with
      revision ids below `nextVid`, keeps the store valid. */
  lemma ReplaceValid(s: Store, k: nat, b: Bid, nextVid: RevisionId)
    requires Valid(s) && k < |s.bids| && s.nextVid <= nextVid
    requires b.id == s.bids[k].id && WellFormed(b) && VidsBelow(b, nextVid)
    ensures Valid(Store(Replace(s.bids, b), s.nextId, nextVid))
    ensures b in Replace(s.bids, b)
  {
    var r := Replace(s.bids, b);
    assert r[k] == b;
    assert IdsIncrease(r);
    forall c | c in r
      ensures c.id < s.nextId && WellFormed(c) && VidsBelow(c, nextVid)
    {
      var i :| 0 <= i < |r| && r[i] == c;
      if s.bids[i].id != b.id {
        assert c in s.bids;
      }
    }
    assert AllBelow(r, s.nextId, nextVid);
  }

  /** The bid as a raise leaves it: owner and offer overwritten, `rev`
      appended as the new current revision. */
  function Revised(prior: Bid, user: UserId, offer: OfferId, rev: Revision): Bid {
    WithRevision(prior.(userId := user, offerId := offer), rev)
  }

  /** A stored bid revised with the next revision id is fit to store back. */
  lemma RevisedSound(s: Store, k: nat, user: UserId, offer: OfferId, rev: Revision)
    requires Valid(s) && k < |s.bids| && rev.vid == s.nextVid
    ensures WellFormed(Revised(s.bids[k], user, offer, rev))
    ensures VidsBelow(Revised(s.bids[k], user, offer, rev), s.nextVid + 1)
  {
    var prior := s.bids[k];
    assert prior in s.bids;
    var b := Revised(prior, user, offer, rev);
    forall i | 0 <= i < |b.revisions|
      ensures b.revisions[i].vid < s.nextVid + 1
    {
      if i < |prior.revisions| {
        assert b.revisions[i] == b.revisions[..|prior.revisions|][i];
      }
    }
  }

  /** Saving a new revision of the stored bid `id`: owner and offer are set
      to `user` and `offer`, and one revision with the next revision id is
      appended. Every other bid is left as it was. */
  function SaveRevision(s: Store, id: BidId, user: UserId, offer: OfferId, amount: Amount,
                        revisionUser: UserId, log: string, now: Timestamp): (r: Store)
    requires Valid(s) && Load(s, id).Some?
    ensures Valid(r)
    ensures |r.bids| == |s.bids| && r.nextVid == s.nextVid + 1
    ensures forall i :: 0 <= i < |s.bids| ==> r.bids[i].id == s.bids[i].id
    ensures forall i :: 0 <= i < |s.bids| && s.bids[i].id != id ==> r.bids[i] == s.bids[i]
    ensures Load(r, id) == Some(Revised(Load(s, id).value, user, offer,
                                        Revision(s.nextVid, amount, Some(revisionUser), log, now)))
  {
    var rev := Revision(s.nextVid, amount, Some(revisionUser), log, now);
    StoreRevised(s, id, user, offer, rev);
    Store(Replace(s.bids, Revised(Load(s, id).value, user, offer, rev)), s.nextId, s.nextVid + 1)
  }

  /** Writing back a revised copy of the stored bid `id` whose new revision
      takes the next revision id. */
  lemma StoreRevised(s: Store, id: BidId, user: UserId, offer: OfferId, rev: Revision)
    requires Valid(s) && Load(s, id).Some? && rev.vid == s.nextVid
    ensures var b := Revised(Load(s, id).value, user, offer, rev);
      && b.id == id
      && Valid(Store(Replace(s.bids, b), s.nextId, s.nextVid + 1))
      && Load(Store(Replace(s.bids, b), s.nextId, s.nextVid + 1), id) == Some(b)
  {
    var b := Revised(Load(s, id).value, user, offer, rev);
    var k :| 0 <= k < |s.bids| && s.bids[k] == Load(s, id).value;
    RevisedSound(s, k, user, offer, rev);
    ReplaceValid(s, k, b, s.nextVid + 1);
    var r := Store(Replace(s.bids, b), s.nextId, s.nextVid + 1);
    assert r.bids[k] == b;
    LoadAt(r, k);
  }

  /** A revision that keeps the bid's owner and offer leaves every stored
      bid's (offer, owner) pair as it was. */
  lemma SaveRevisionKeepsPairs(s: Store, id: BidId, user: UserId, offer: OfferId, amount: Amount,
                               revisionUser: UserId, log: string, now: Timestamp)
    requires Valid(s) && Load(s, id).Some?
    requires Load(s, id).value.userId == user && Load(s, id).value.offerId == offer
    ensures var r := SaveRevision(s, id, user, offer, amount, revisionUser, log, now);
      forall i :: 0 <= i < |s.bids| ==>
        r.bids[i].offerId == s.bids[i].offerId && r.bids[i].userId == s.bids[i].userId
  {
    var r := SaveRevision(s, id, user, offer, amount, revisionUser, log, now);
    forall i | 0 <= i < |s.bids|
      ensures r.bids[i].offerId == s.bids[i].offerId && r.bids[i].userId == s.bids[i].userId
    {
      if s.bids[i].id == id {
        LoadAt(r, i);
        LoadAt(s, i);
      }
    }
  }

  /** Stores whose bids carry the same (offer, owner) pairs position by
      position answer every query with the same count. */
  lemma SamePairsSameCount(xs: seq<Bid>, ys: seq<Bid>, q: Query)
    requires |xs| == |ys|
    requires forall i :: 0 <= i < |xs| ==> xs[i].offerId == ys[i].offerId && xs[i].userId == ys[i].userId
    ensures Count(xs, q) == Count(ys, q)
  {
    CountPointwise(xs, ys, q);
  }
}
