/** The offer entity: its owner default, its price label, and the bid
    queries it runs (count, list, highest amount, the acting user's bid, and
    the rows of the bidding table). The acting user is an argument wherever
    the entity reads the current user. */
module OfferEntity {
  import opened Optional
  import opened BidEntity
  import opened BidStore
  import opened BidAccess

  /** The offer fields the ledger reads: `field_offer_type` and
      `field_price` are kept as the strings the entity hands out. */
  datatype Offer = Offer(id: OfferId, ownerId: UserId, offerType: string, price: string)

  /** `preCreate`: `user_id` defaults to the acting user; a value the caller
      supplied, and every other value, is kept. */
  function PreCreate<V>(values: map<string, V>, acting: V): (r: map<string, V>)
    ensures r.Keys == values.Keys + {"user_id"}
    ensures forall k :: k in values ==> r[k] == values[k]
    ensures "user_id" !in values ==> r["user_id"] == acting
  {
    map["user_id" := acting] + values
  }

  /** `getPriceAmount`: the price label by offer type. */
  function PriceAmount(o: Offer): (r: string)
    ensures o.offerType == "with_minimum" ==> |r| == |o.price| + 1 && r[..|o.price|] == o.price && r[|o.price|] == '$'
    ensures o.offerType == "no_minimum" ==> r == "Start bidding at 0$"
    ensures o.offerType != "with_minimum" && o.offerType != "no_minimum" ==> r == ""
  {
    if o.offerType == "with_minimum" then o.price + "$"
    else if o.offerType == "no_minimum" then "Start bidding at 0$"
    else ""
  }

  /** The bids placed on `offer`, in storage order. */
  function OnOffer(s: Store, offer: OfferId): seq<Bid> {
    Select(s.bids, Query(offer, None))
  }

  /** The bids `user` placed on `offer`, in storage order. */
  function ByBidder(s: Store, offer: OfferId, user: UserId): seq<Bid> {
    Select(s.bids, Query(offer, Some(user)))
  }

  /** Listing an offer gives no say over the bids on it: its lister may
      only view another user's bid. */
  lemma ListerMayOnlyView(o: Offer, b: Bid, operation: string)
    requires b.offerId == o.id && b.userId != o.ownerId
    ensures BidAccessAllowed(operation, o.ownerId, b) <==> operation == "view"
  {
    NonOwnerMayOnlyView(operation, o.ownerId, b);
  }

  /** `getOfferBids`: the ids of the bids on `offer`, each once. */
  function OfferBids(s: Store, offer: OfferId): (r: seq<BidId>)
    requires Valid(s)
    ensures |r| == |OnOffer(s, offer)|
    ensures forall id :: id in r <==> exists b :: b in s.bids && b.id == id && b.offerId == offer
    ensures forall i, j :: 0 <= i < j < |r| ==> r[i] < r[j]
    ensures forall i, j :: 0 <= i < j < |r| ==> r[i] != r[j]
  {
    var bs := OnOffer(s, offer);
    SelectKeepsIdOrder(s.bids, Query(offer, None));
    IdsOfIncrease(bs);
    var r := IdsOf(bs);
    assert forall i :: 0 <= i < |bs| ==> bs[i] in bs;
    r
  }

  /** The ids of `bs`, position by position. */
  function IdsOf(bs: seq<Bid>): (r: seq<BidId>)
    ensures |r| == |bs| && forall i :: 0 <= i < |bs| ==> r[i] == bs[i].id
  {
    seq(|bs|, i requires 0 <= i < |bs| => bs[i].id)
  }

  /** Bids in increasing id order give increasing, hence distinct, ids. */
  lemma IdsOfIncrease(bs: seq<Bid>)
    requires forall i, j :: 0 <= i < j < |bs| ==> bs[i].id < bs[j].id
    ensures forall i, j :: 0 <= i < j < |bs| ==> IdsOf(bs)[i] < IdsOf(bs)[j]
    ensures forall i, j :: 0 <= i < j < |bs| ==> IdsOf(bs)[i] != IdsOf(bs)[j]
  {
  }

  /** `getBidsNumber`: the count query over `offer_id`. */
  function BidsNumber(s: Store, offer: OfferId): (r: nat)
    requires Valid(s)
    ensures r == |OfferBids(s, offer)|
    ensures r == 0 <==> forall b :: b in s.bids ==> b.offerId != offer
  {
    CountIsSelectSize(s.bids, Query(offer, None));
    Count(s.bids, Query(offer, None))
  }

  /** The largest current amount among `bs`. */
  function MaxAmount(bs: seq<Bid>): (r: Amount)
    requires |bs| > 0
    requires forall b :: b in bs ==> WellFormed(b)
    ensures exists b :: b in bs && CurrentAmount(b) == r
    ensures forall b :: b in bs ==> CurrentAmount(b) <= r
  {
    if |bs| == 1 then CurrentAmount(bs[0])
    else
      assert forall b :: b in bs ==> b == bs[0] || b in bs[1..];
      var rest := MaxAmount(bs[1..]);
      if CurrentAmount(bs[0]) >= rest then CurrentAmount(bs[0]) else rest
  }

  /** `getHighestBid`: the amount of a bid on `offer` that no other bid on it
      exceeds, or 0 when the offer has no bids. Ties are not broken: the
      amount is the same whichever top bid the query returns first. */
  function HighestBid(s: Store, offer: OfferId): (r: Amount)
    requires Valid(s)
    ensures (forall b :: b in s.bids ==> b.offerId != offer) ==> r == 0
    ensures (exists b :: b in s.bids && b.offerId == offer) ==>
              exists b :: b in s.bids && b.offerId == offer && CurrentAmount(b) == r
    ensures forall b :: b in s.bids && b.offerId == offer ==> CurrentAmount(b) <= r
  {
    var bs := OnOffer(s, offer);
    if |bs| == 0 then 0 else MaxAmount(bs)
  }

  /** `CurrentUserHasBids`: the count over (`offer_id`, `user_id`) is positive. */
  function UserHasBids(s: Store, offer: OfferId, user: UserId): (r: bool)
    ensures r <==> exists b :: b in s.bids && b.offerId == offer && b.userId == user
  {
    Count(s.bids, Query(offer, Some(user))) > 0
  }

  /** The first of `bs` with the latest creation time. */
  function Latest(bs: seq<Bid>): (r: Bid)
    requires |bs| > 0
    ensures r in bs
    ensures forall b :: b in bs ==> b.created <= r.created
  {
    if |bs| == 1 then bs[0]
    else
      assert forall b :: b in bs ==> b == bs[0] || b in bs[1..];
      var rest := Latest(bs[1..]);
      if bs[0].created >= rest.created then bs[0] else rest
  }

  /** `CurrentUserBid`: the acting user's bid on `offer` sorted first by
      `created` descending, or none when there is no such bid. */
  function CurrentUserBid(s: Store, offer: OfferId, user: UserId): (r: Option<Bid>)
    ensures r.Some? <==> UserHasBids(s, offer, user)
    ensures r.Some? ==> r.value in s.bids && r.value.offerId == offer && r.value.userId == user
    ensures r.Some? ==> forall b :: b in s.bids && b.offerId == offer && b.userId == user ==>
                          b.created <= r.value.created
  {
    var bs := ByBidder(s, offer, user);
    if |bs| == 0 then None else Some(Latest(bs))
  }

  /** The highest id in a non-empty list of revision ids. */
  function MaxId(vs: seq<RevisionId>): (r: RevisionId)
    requires |vs| > 0
    ensures r in vs
    ensures forall v :: v in vs ==> v <= r
  {
    if |vs| == 1 then vs[0]
    else
      assert forall v :: v in vs ==> v == vs[0] || v in vs[1..];
      var rest := MaxId(vs[1..]);
      if vs[0] >= rest then vs[0] else rest
  }

  /** The list without `x` (the `unset` of the loaded revision). */
  function Without(vs: seq<RevisionId>, x: RevisionId): (r: seq<RevisionId>)
    ensures forall v :: v in r <==> v in vs && v != x
  {
    if |vs| == 0 then []
    else (if vs[0] == x then [] else [vs[0]]) + Without(vs[1..], x)
  }

  /** The "last raise" shown in a bidding table row: for a bid with more
      than one revision, the current amount minus the amount of the revision
      with the largest id other than the loaded one; nothing otherwise. */
  function RaiseDelta(b: Bid): (r: Option<Amount>)
    requires WellFormed(b)
    ensures r.Some? <==> |b.revisions| > 1
  {
    if HasRevisions(b) then
      var others := Without(RevisionsList(b), LoadedRevisionId(b));
      assert b.revisions[0].vid in others by {
        assert RevisionsList(b)[0] == b.revisions[0].vid;
      }
      Some(CurrentAmount(b) - RevisionAmount(b, MaxId(others)))
    else None
  }

  /** Since revision ids increase, the largest id other than the loaded
      one is that of the revision saved just before it. */
  lemma PreviousRevisionId(b: Bid)
    requires WellFormed(b) && |b.revisions| > 1
    ensures MaxId(Without(RevisionsList(b), LoadedRevisionId(b))) == b.revisions[|b.revisions| - 2].vid
  {
    var n := |b.revisions|;
    var others := Without(RevisionsList(b), LoadedRevisionId(b));
    var prev := b.revisions[n - 2].vid;
    assert RevisionsList(b)[n - 2] == prev;
    assert prev in others;
    var m := MaxId(others);
    assert m <= prev by {
      var i :| 0 <= i < n && b.revisions[i].vid == m;
      assert i != n - 1;
    }
  }

  /** So the delta is the latest raise: the current amount minus the amount
      of the revision before it. */
  lemma RaiseDeltaIsLastRaise(b: Bid)
    requires WellFormed(b) && |b.revisions| > 1
    ensures RaiseDelta(b) == Some(CurrentAmount(b) - b.revisions[|b.revisions| - 2].amount)
  {
    var n := |b.revisions|;
    var prev := MaxId(Without(RevisionsList(b), LoadedRevisionId(b)));
    assert RaiseDelta(b) == Some(CurrentAmount(b) - RevisionAmount(b, prev));
    PreviousRevisionId(b);
    assert prev == b.revisions[n - 2].vid;
    RevisionAmountAt(b, n - 2);
  }

  /** One row of the bidding table: who bid, when, the current amount, the
      last raise if any, and whether the viewer gets a remove link. */
  datatype Row = Row(bid: BidId, owner: UserId, created: Timestamp, amount: Amount,
                     lastRaise: Option<Amount>, removable: bool)

  /** What a row must show for bid `b` to `viewer`. */
  predicate Shows(row: Row, b: Bid, viewer: UserId)
    requires WellFormed(b)
  {
    && row.bid == b.id
    && row.owner == b.userId
    && row.created == b.created
    && row.amount == CurrentAmount(b)
    && (row.removable <==> viewer == b.userId)
    && (row.lastRaise.Some? <==> |b.revisions| > 1)
    && (row.lastRaise.Some? ==>
          row.lastRaise.value == CurrentAmount(b) - b.revisions[|b.revisions| - 2].amount)
  }

  /** The row built for one bid: the remove link follows delete access. */
  function RowFor(b: Bid, viewer: UserId): (row: Row)
    requires WellFormed(b)
    ensures Shows(row, b, viewer)
  {
    assert |b.revisions| > 1 ==>
        RaiseDelta(b) == Some(CurrentAmount(b) - b.revisions[|b.revisions| - 2].amount) by {
      if |b.revisions| > 1 {
        RaiseDeltaIsLastRaise(b);
      }
    }
    Row(b.id, b.userId, b.created, CurrentAmount(b), RaiseDelta(b),
        BidAccessAllowed("delete", viewer, b))
  }

  /** `getOfferBiddingTable`, without the markup: one row per bid on the
      offer, in query order, each showing its bid to the viewer. */
  method BiddingTable(s: Store, offer: OfferId, viewer: UserId) returns (rows: seq<Row>)
    requires Valid(s)
    ensures |rows| == BidsNumber(s, offer)
    ensures var bs := OnOffer(s, offer);
      |rows| == |bs| && forall i :: 0 <= i < |rows| ==> bs[i] in s.bids && Shows(rows[i], bs[i], viewer)
  {
    var bs := OnOffer(s, offer);
    rows := [];
    var k := 0;
    while k < |bs|
      invariant 0 <= k <= |bs|
      invariant |rows| == k
      invariant forall i :: 0 <= i < k ==> bs[i] in s.bids && Shows(rows[i], bs[i], viewer)
    {
      var b := bs[k];
      assert b in s.bids;
      rows := rows + [RowFor(b, viewer)];
      k := k + 1;
    }
  }
}
