/** The bidding form shown under an offer: what it displays, how it checks
    the submitted amount, and how submitting places or raises the acting
    user's bid, kept only when the bid passes `AllFieldsRequired`. */
module OfferBiddingForm {
  import opened Optional
  import opened BidEntity
  import opened BidStore
  import opened AllFieldsRequired
  import opened OfferEntity

  const RaiseLabel := "Raise my bid"
  const SubmitLabel := "Submit"
  const SuccessMessage := "Your bid was successfully submitted."
  const NumericMessage := "Bid input needs to be numeric !"

  /** The starting price `buildForm` shows: `field_price` for an offer with a
      minimum, "0" for one without; for any other type the variable is never
      assigned. */
  function StartingPrice(o: Offer): (r: Option<string>)
    ensures r.Some? <==> o.offerType == "with_minimum" || o.offerType == "no_minimum"
    ensures o.offerType == "with_minimum" ==> r == Some(o.price)
    ensures o.offerType == "no_minimum" ==> r == Some("0")
  {
    if o.offerType == "with_minimum" then Some(o.price)
    else if o.offerType == "no_minimum" then Some("0")
    else None
  }

  /** The form heading; an unassigned price renders as nothing. */
  function PriceHeading(o: Offer): string {
    "Start bidding at " + StartingPrice(o).GetOr("") + "$"
  }

  /** The form heading and the offer's own price label tell the same story:
      for a minimum-price offer the heading is the label after "Start bidding
      at ", without a minimum they are the same text, and the label is empty
      exactly when the form has no starting price. */
  lemma PriceHeadingMatchesPriceAmount(o: Offer)
    ensures o.offerType == "with_minimum" ==> PriceHeading(o) == "Start bidding at " + PriceAmount(o)
    ensures o.offerType == "no_minimum" ==> PriceHeading(o) == PriceAmount(o)
    ensures StartingPrice(o).None? <==> PriceAmount(o) == ""
  {
    if o.offerType == "with_minimum" {
      assert PriceAmount(o) == o.price + "$";
    }
  }

  /** What `buildForm` puts on the page, markup aside. */
  datatype FormView = FormView(offerId: OfferId, heading: string, minBid: Amount,
                               highestBid: Amount, submitLabel: string)

  /** `buildForm` for `user`: the `min` hint is the highest bid (enforced by
      the browser only), and the button reads "Raise my bid" exactly when the
      user already bid on the offer. */
  function BuildForm(s: Store, o: Offer, user: UserId): (r: FormView)
    requires Valid(s)
    ensures r.offerId == o.id && r.heading == PriceHeading(o)
    ensures r.minBid == r.highestBid
    ensures forall b :: b in s.bids && b.offerId == o.id ==> CurrentAmount(b) <= r.highestBid
    ensures (forall b :: b in s.bids ==> b.offerId != o.id) ==> r.highestBid == 0
    ensures (exists b :: b in s.bids && b.offerId == o.id) ==>
              exists b :: b in s.bids && b.offerId == o.id && CurrentAmount(b) == r.highestBid
    ensures r.submitLabel == RaiseLabel || r.submitLabel == SubmitLabel
    ensures r.submitLabel == RaiseLabel <==> exists b :: b in s.bids && b.offerId == o.id && b.userId == user
  {
    var highest := HighestBid(s, o.id);
    FormView(o.id, PriceHeading(o), highest, highest,
             if UserHasBids(s, o.id, user) then RaiseLabel else SubmitLabel)
  }

  /** The submitted `bid` value: numeric in PHP's sense, or not. */
  datatype RawBid = Numeric(value: Amount) | NonNumeric(text: string)

  datatype FormError = FormError(field: string, message: string)

  /** `validateForm`: a non-numeric bid is an error on the `bid` field. */
  function ValidateForm(raw: RawBid): (r: seq<FormError>)
    ensures r == [] <==> raw.Numeric?
    ensures r != [] ==> r == [FormError("bid", NumericMessage)]
  {
    if raw.NonNumeric? then [FormError("bid", NumericMessage)] else []
  }

  /** A bid entity built by `submitForm` and not yet saved: a fresh bid, or a
      new revision of the stored bid `id` with its revision metadata. */
  datatype PendingBid =
    | NewBid(values: BidValues, now: Timestamp)
    | Raised(id: BidId, values: BidValues, revisionUser: UserId, log: string, now: Timestamp)

  datatype Message = Status(text: string) | Warning(text: string)

  datatype Submission = Submission(store: Store, message: Message)

  /** Decimal digits of `n`, as PHP concatenates an integer into a string. */
  function Decimal(n: nat): (r: string)
    ensures |r| > 0
    ensures forall i :: 0 <= i < |r| ==> '0' <= r[i] <= '9'
  {
    if n < 10 then ["0123456789"[n]] else Decimal(n / 10) + ["0123456789"[n % 10]]
  }

  /** The number a string of decimal digits denotes. */
  function DigitsValue(s: string): int
  {
    if |s| == 0 then 0 else DigitsValue(s[..|s| - 1]) * 10 + (s[|s| - 1] as int - '0' as int)
  }

  /** Reading back the digits `Decimal` writes gives the number written. */
  lemma {:induction false} DecimalRoundTrip(n: nat)
    ensures DigitsValue(Decimal(n)) == n
  {
    var digits := "0123456789";
    assert forall k :: 0 <= k < 10 ==> digits[k] as int - '0' as int == k;
    if n >= 10 {
      DecimalRoundTrip(n / 10);
      var r := Decimal(n);
      assert r[..|r| - 1] == Decimal(n / 10);
      assert r[|r| - 1] == digits[n % 10];
    }
  }

  /** Distinct offers get distinct raise log messages. */
  lemma RevisionLogNamesOffer(a: OfferId, b: OfferId)
    requires RevisionLog(a) == RevisionLog(b)
    ensures a == b
  {
    var prefix := "Bid raised for offer ";
    assert RevisionLog(a)[|prefix|..] == Decimal(a);
    assert RevisionLog(b)[|prefix|..] == Decimal(b);
    DecimalRoundTrip(a);
    DecimalRoundTrip(b);
  }

  /** The revision log message of a raise. */
  function RevisionLog(offer: OfferId): string {
    "Bid raised for offer " + Decimal(offer)
  }

  /** `$bid->save()` for a pending bid whose fields are all set. */
  function Commit(s: Store, p: PendingBid): (r: Store)
    requires Valid(s) && Complete(p.values) && (p.Raised? ==> Load(s, p.id).Some?)
    ensures Valid(r) && r.nextVid == s.nextVid + 1
    ensures p.NewBid? ==>
      && |r.bids| == |s.bids| + 1 && r.bids[..|s.bids|] == s.bids
      && (var b := r.bids[|s.bids|];
          && Load(s, b.id).None?
          && b.userId == p.values.userId.value && b.offerId == p.values.offerId.value
          && b.created == p.now && |b.revisions| == 1 && CurrentAmount(b) == p.values.amount.value)
    ensures p.Raised? ==>
      && |r.bids| == |s.bids|
      && (forall i :: 0 <= i < |s.bids| && s.bids[i].id != p.id ==> r.bids[i] == s.bids[i])
      && Load(r, p.id) == Some(Revised(Load(s, p.id).value, p.values.userId.value, p.values.offerId.value,
                                       Revision(s.nextVid, p.values.amount.value, Some(p.revisionUser), p.log, p.now)))
  {
    match p
    case NewBid(v, now) =>
      Create(s, v.userId.value, v.offerId.value, v.amount.value, now)
    case Raised(id, v, revisionUser, log, now) =>
      SaveRevision(s, id, v.userId.value, v.offerId.value, v.amount.value, revisionUser, log, now)
  }

  /** The save gate: the pending bid is saved only when validation reports
      no violation; otherwise the store is untouched and the first
      violation's message is shown as a warning. */
  function SaveGate(s: Store, p: PendingBid, constraintMessage: string): (r: Submission)
    requires Valid(s) && (p.Raised? ==> Load(s, p.id).Some?)
    ensures Valid(r.store)
    ensures r.store != s <==> Complete(p.values)
    ensures Complete(p.values) ==> r.message == Status(SuccessMessage)
    ensures !Complete(p.values) ==> r.message == Warning(constraintMessage)
    ensures Complete(p.values) ==> r.store == Commit(s, p)
  {
    var violations := Validate(p.values, constraintMessage);
    if |violations| == 0 then Submission(Commit(s, p), Status(SuccessMessage))
    else Submission(s, Warning(violations[0]))
  }

  /** The bid `submitForm` builds for `user` bidding `amount` on `offer`: a
      new revision of the user's latest bid there if there is one, a new bid
      otherwise. Owner, amount and offer are always filled in. */
  function Pending(s: Store, offer: OfferId, user: UserId, amount: Amount, now: Timestamp): (p: PendingBid)
    requires Valid(s)
    ensures p.values == BidValues(Some(user), Some(amount), Some(offer))
    ensures p.Raised? <==> UserHasBids(s, offer, user)
    ensures p.Raised? ==> Load(s, p.id) == CurrentUserBid(s, offer, user)
  {
    var values := BidValues(Some(user), Some(amount), Some(offer));
    if UserHasBids(s, offer, user) then
      var b := CurrentUserBid(s, offer, user).value;
      assert Load(s, b.id) == Some(b) by {
        var k :| 0 <= k < |s.bids| && s.bids[k] == b;
        LoadAt(s, k);
      }
      Raised(b.id, values, user, RevisionLog(offer), now)
    else NewBid(values, now)
  }

  /** `submitForm`: build the pending bid and pass it through the save gate.
      The three values are always set here, so the gate always saves. */
  function SubmitForm(s: Store, offer: OfferId, user: UserId, amount: Amount, now: Timestamp,
                      constraintMessage: string): (r: Submission)
    requires Valid(s)
    ensures Valid(r.store) && r.store != s
    ensures r.message == Status(SuccessMessage)
  {
    SaveGate(s, Pending(s, offer, user, amount, now), constraintMessage)
  }

  /** The outcome of posting the form: the store afterwards, the form
      errors, and the message shown, if any. */
  datatype FormOutcome = FormOutcome(store: Store, errors: seq<FormError>, message: Option<Message>)

  /** Posting the form: a non-numeric amount stops at validation and changes
      nothing; a numeric one is submitted. */
  function PostForm(s: Store, offer: OfferId, user: UserId, raw: RawBid, now: Timestamp,
                    constraintMessage: string): (r: FormOutcome)
    requires Valid(s)
    ensures Valid(r.store)
    ensures raw.NonNumeric? ==> r.store == s && r.message.None? && r.errors == [FormError("bid", NumericMessage)]
    ensures raw.Numeric? ==> r.errors == [] && r.message == Some(Status(SuccessMessage))
                             && r.store == SubmitForm(s, offer, user, raw.value, now, constraintMessage).store
  {
    var errors := ValidateForm(raw);
    if errors != [] then FormOutcome(s, errors, None)
    else
      var sub := SubmitForm(s, offer, user, raw.value, now, constraintMessage);
      FormOutcome(sub.store, [], Some(sub.message))
  }

  /** At most one bid per (offer, bidder) pair. */
  predicate OneBidPerBidder(s: Store) {
    forall i, j :: 0 <= i < j < |s.bids| && s.bids[i].offerId == s.bids[j].offerId ==>
      s.bids[i].userId != s.bids[j].userId
  }

  /** On the raise path the submission is a new revision of the user's
      latest bid on the offer, keeping its owner and offer. */
  lemma RaiseIsRevision(s: Store, offer: OfferId, user: UserId, amount: Amount,
                        now: Timestamp, constraintMessage: string)
    requires Valid(s) && UserHasBids(s, offer, user)
    ensures var b := CurrentUserBid(s, offer, user).value;
      && Load(s, b.id) == Some(b)
      && SubmitForm(s, offer, user, amount, now, constraintMessage).store
         == SaveRevision(s, b.id, user, offer, amount, user, RevisionLog(offer), now)
  {
    var p := Pending(s, offer, user, amount, now);
    assert p.Raised?;
  }

  /** Raising: when `user` already bid on `offer`, submitting revises that
      user's latest bid there: same id, same owner and offer, one more
      revision carrying the new amount, the acting user as revision user and
      the raise log message. No bid is added and no other bid changes. */
  lemma SubmitRaisesLatestBid(s: Store, offer: OfferId, user: UserId, amount: Amount,
                              now: Timestamp, constraintMessage: string)
    requires Valid(s) && UserHasBids(s, offer, user)
    ensures var b := CurrentUserBid(s, offer, user).value;
      var r := SubmitForm(s, offer, user, amount, now, constraintMessage).store;
      && Load(r, b.id) == Some(WithRevision(b, Revision(s.nextVid, amount, Some(user), RevisionLog(offer), now)))
      && |r.bids| == |s.bids|
      && (forall i :: 0 <= i < |s.bids| && s.bids[i].id != b.id ==> r.bids[i] == s.bids[i])
  {
    var b := CurrentUserBid(s, offer, user).value;
    RaiseIsRevision(s, offer, user, amount, now, constraintMessage);
    assert b.(userId := user, offerId := offer) == b;
  }

  /** A raise leaves the user's bid count on the offer, and the offer's bid
      count, as they were. */
  lemma RaiseKeepsCounts(s: Store, offer: OfferId, user: UserId, amount: Amount,
                         now: Timestamp, constraintMessage: string)
    requires Valid(s) && UserHasBids(s, offer, user)
    ensures var r := SubmitForm(s, offer, user, amount, now, constraintMessage).store;
      && Count(r.bids, Query(offer, Some(user))) == Count(s.bids, Query(offer, Some(user)))
      && BidsNumber(r, offer) == BidsNumber(s, offer)
  {
    var b := CurrentUserBid(s, offer, user).value;
    RaiseIsRevision(s, offer, user, amount, now, constraintMessage);
    var r := SaveRevision(s, b.id, user, offer, amount, user, RevisionLog(offer), now);
    SaveRevisionKeepsPairs(s, b.id, user, offer, amount, user, RevisionLog(offer), now);
    SamePairsSameCount(r.bids, s.bids, Query(offer, Some(user)));
    SamePairsSameCount(r.bids, s.bids, Query(offer, None));
    CountIsSelectSize(r.bids, Query(offer, None));
    CountIsSelectSize(s.bids, Query(offer, None));
  }

  /** Placing: when `user` has no bid on `offer`, submitting appends exactly
      one new bid with a fresh id, owned by `user`, on `offer`, created now,
      with a single revision carrying `amount`. Stored bids are untouched. */
  lemma {:induction false} SubmitCreatesBid(s: Store, offer: OfferId, user: UserId, amount: Amount,
                                            now: Timestamp, constraintMessage: string)
    requires Valid(s) && !UserHasBids(s, offer, user)
    ensures var r := SubmitForm(s, offer, user, amount, now, constraintMessage).store;
      && |r.bids| == |s.bids| + 1 && r.bids[..|s.bids|] == s.bids
      && (var b := r.bids[|s.bids|];
          && Load(s, b.id).None?
          && b.userId == user && b.offerId == offer && b.created == now
          && |b.revisions| == 1 && CurrentAmount(b) == amount)
      && Count(r.bids, Query(offer, Some(user))) == 1
      && BidsNumber(r, offer) == BidsNumber(s, offer) + 1
  {
    var r := SubmitForm(s, offer, user, amount, now, constraintMessage).store;
    assert r == Create(s, user, offer, amount, now);
    var b := r.bids[|s.bids|];
    assert r.bids == s.bids + [b];
    CountIsSelectSize(s.bids, Query(offer, Some(user)));
    CountIsSelectSize(r.bids, Query(offer, Some(user)));
    SelectAppend(s.bids, b, Query(offer, Some(user)));
    CountIsSelectSize(s.bids, Query(offer, None));
    CountIsSelectSize(r.bids, Query(offer, None));
    SelectAppend(s.bids, b, Query(offer, None));
  }

  /** Keeping every (offer, owner) pair in place keeps the bidders unique. */
  lemma SamePairsKeepOneBid(s: Store, r: Store)
    requires OneBidPerBidder(s) && |r.bids| == |s.bids|
    requires forall i :: 0 <= i < |s.bids| ==>
               r.bids[i].offerId == s.bids[i].offerId && r.bids[i].userId == s.bids[i].userId
    ensures OneBidPerBidder(r)
  {
  }

  /** Appending a bid for a pair no stored bid has keeps the bidders unique. */
  lemma NewPairKeepsOneBid(s: Store, r: Store, b: Bid)
    requires OneBidPerBidder(s) && r.bids == s.bids + [b]
    requires forall c :: c in s.bids ==> !(c.offerId == b.offerId && c.userId == b.userId)
    ensures OneBidPerBidder(r)
  {
    forall i, j | 0 <= i < j < |r.bids| && r.bids[i].offerId == r.bids[j].offerId
      ensures r.bids[i].userId != r.bids[j].userId
    {
      assert r.bids[i] == s.bids[i] && s.bids[i] in s.bids;
      if j < |s.bids| {
        assert r.bids[j] == s.bids[j];
      }
    }
  }

  /** Submitting never gives a bidder a second bid on the same offer. */
  lemma SubmitKeepsOneBidPerBidder(s: Store, offer: OfferId, user: UserId, amount: Amount,
                                   now: Timestamp, constraintMessage: string)
    requires Valid(s) && OneBidPerBidder(s)
    ensures OneBidPerBidder(SubmitForm(s, offer, user, amount, now, constraintMessage).store)
  {
    var r := SubmitForm(s, offer, user, amount, now, constraintMessage).store;
    if UserHasBids(s, offer, user) {
      var b := CurrentUserBid(s, offer, user).value;
      RaiseIsRevision(s, offer, user, amount, now, constraintMessage);
      SaveRevisionKeepsPairs(s, b.id, user, offer, amount, user, RevisionLog(offer), now);
      SamePairsKeepOneBid(s, r);
    } else {
      SubmitCreatesBid(s, offer, user, amount, now, constraintMessage);
      var b := r.bids[|s.bids|];
      assert r.bids == s.bids + [b];
      NewPairKeepsOneBid(s, r, b);
    }
  }

  /** After a submission the acting user holds a bid on the offer whose
      current amount is the one submitted, so the highest bid is at least
      that amount. */
  lemma SubmittedAmountIsCurrent(s: Store, offer: OfferId, user: UserId, amount: Amount,
                                 now: Timestamp, constraintMessage: string)
    requires Valid(s)
    ensures var r := SubmitForm(s, offer, user, amount, now, constraintMessage).store;
      && (exists b :: b in r.bids && b.offerId == offer && b.userId == user && CurrentAmount(b) == amount)
      && HighestBid(r, offer) >= amount
  {
    var r := SubmitForm(s, offer, user, amount, now, constraintMessage).store;
    if UserHasBids(s, offer, user) {
      SubmitRaisesLatestBid(s, offer, user, amount, now, constraintMessage);
      var b := CurrentUserBid(s, offer, user).value;
      var nb := Load(r, b.id).value;
      assert nb in r.bids && nb.offerId == offer && nb.userId == user && CurrentAmount(nb) == amount;
    } else {
      SubmitCreatesBid(s, offer, user, amount, now, constraintMessage);
      var nb := r.bids[|s.bids|];
      assert nb in r.bids && nb.offerId == offer && nb.userId == user && CurrentAmount(nb) == amount;
    }
  }

  /** Nothing on the server stops a lower amount: a user who bid 10 on an
      offer and then submits 5 revises the bid down, and the offer's highest
      bid falls to 5. The `min` hint on the field is the only floor. */
  lemma LowerSubmissionIsAccepted()
    ensures var s1 := SubmitForm(EmptyStore(), 7, 1, 10, 100, "").store;
      var s2 := SubmitForm(s1, 7, 1, 5, 200, "").store;
      && HighestBid(s1, 7) == 10
      && HighestBid(s2, 7) == 5
  {
    var s0 := EmptyStore();
    var s1 := SubmitForm(s0, 7, 1, 10, 100, "").store;
    SubmitCreatesBid(s0, 7, 1, 10, 100, "");
    var b := s1.bids[0];
    assert s1.bids == [b];
    assert UserHasBids(s1, 7, 1) by {
      assert b in s1.bids;
    }
    var s2 := SubmitForm(s1, 7, 1, 5, 200, "").store;
    SubmitRaisesLatestBid(s1, 7, 1, 5, 200, "");
    assert CurrentUserBid(s1, 7, 1).value == b;
    var nb := Load(s2, b.id).value;
    assert CurrentAmount(nb) == 5;
    assert s2.bids == [nb];
  }
}
