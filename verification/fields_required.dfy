/** The `AllFieldsRequired` entity constraint every bid is subject to: one
    violation, with the constraint's message, per empty field among
    `user_id`, `bid` and `offer_id`. */
module AllFieldsRequired {
  import opened Optional
  import opened BidEntity

  /** The three fields of a bid about to be saved, each possibly empty. */
  datatype BidValues = BidValues(userId: Option<UserId>, amount: Option<Amount>, offerId: Option<OfferId>)

  datatype Field = UserIdField | BidField | OfferIdField

  predicate Complete(v: BidValues) {
    v.userId.Some? && v.amount.Some? && v.offerId.Some?
  }

  /** The fields of `v` that are empty, as a set. */
  function EmptyFields(v: BidValues): set<Field> {
    (if v.userId.None? then {UserIdField} else {})
    + (if v.amount.None? then {BidField} else {})
    + (if v.offerId.None? then {OfferIdField} else {})
  }

  /** What one field contributes to the violation count. */
  function Blank<T>(field: Option<T>): nat {
    if field.None? then 1 else 0
  }

  /** `validate`: the violations added, in the order the fields are checked. */
  function Validate(v: BidValues, message: string): (r: seq<string>)
    ensures |r| <= 3
    ensures |r| == 0 <==> Complete(v)
    ensures forall i :: 0 <= i < |r| ==> r[i] == message
  {
    (if v.userId.None? then [message] else [])
    + (if v.amount.None? then [message] else [])
    + (if v.offerId.None? then [message] else [])
  }

  /** One violation per empty field, no more and no fewer. */
  lemma ViolationPerEmptyField(v: BidValues, message: string)
    ensures |Validate(v, message)| == |EmptyFields(v)|
  {
    var u: set<Field> := if v.userId.None? then {UserIdField} else {};
    var b: set<Field> := if v.amount.None? then {BidField} else {};
    var o: set<Field> := if v.offerId.None? then {OfferIdField} else {};
    assert u !! b && (u + b) !! o;
    assert |u + b| == |u| + |b|;
    assert |u + b + o| == |u + b| + |o|;
  }

  /** The checks are independent: the count is a sum of one term per field,
      each depending on that field alone. */
  lemma ChecksAreIndependent(v: BidValues, message: string)
    ensures |Validate(v, message)| == Blank(v.userId) + Blank(v.amount) + Blank(v.offerId)
  {
  }
}
