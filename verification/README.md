# Bid ledger of the offer/bid modules

A Dafny model of the bidding logic in the `offer` and `bid` Drupal modules.
Users place bids on offers. A bid belongs to one user and one offer. When the
user submits again, a new revision is added to their latest bid rather than a
new bid being created. Each revision keeps its own amount.

The offer entity reads the bid store through these queries:

- the highest current amount;
- the number of bids;
- whether the acting user has a bid, and that user's latest bid;
- the rows of the bidding table, each with the "last raise" delta and a
  remove link shown only to the bid's owner.

The bidding form checks that the amount is numeric. It then places a new bid
or raises the existing one. The result is saved only when the
`AllFieldsRequired` constraint reports no violation.

Framework services become plain values:

- Entity storage and entity queries become an immutable store (`BidStore.Store`):
  - the bids, in id order;
  - an entity-id counter and a revision-id counter.
- The current user, the request time and the constraint's message text are
  parameters.
- Messenger output is a returned `Message` value.
- `is_numeric` becomes the `RawBid` datatype (`Numeric` or `NonNumeric`).

Modules and files:

- `optional.dfy` (`Optional`): `Option`.
- `bid.dfy` (`BidEntity`): the bid entity, its revisions, `hasRevisions` and
  `getRevisionsList`.
- `fields_required.dfy` (`AllFieldsRequired`): the constraint validator.
- `bid_access.dfy` (`BidAccess`): the access control handler.
- `bid_store.dfy` (`BidStore`): the store, entity queries, create and
  save-as-new-revision.
- `offer.dfy` (`OfferEntity`): the offer entity's queries, the price label and
  the bidding table.
- `bidding_form.dfy` (`OfferBiddingForm`): the form display, validation,
  submission and the save gate.

The model follows the code, including these points:

- **No server-side minimum.** A lower amount is accepted and can lower the
  highest bid (`OfferBiddingForm.LowerSubmissionIsAccepted`). The `min`
  attribute on the field is only a browser hint.
- **No status check.** Bidding does not look at the offer's status.
- **No tie-break.** Among equal top amounts, `HighestBid` promises only the
  amount, which is the same whichever bid the query returns first.
- **No highest-bid sentinel.** With no bids, `getHighestBid` returns 0, the
  same value as a real top bid of 0. The trailing `return 2` can never run.
- **Owner-only access.** `update`, `edit` and `delete` fail for anyone but
  the owner. For these operations a non-owner gets a *neutral* result, not a
  *forbidden* one (`allowedIf(false)`). Operations the handler does not name
  are forbidden.

## Model

| member | source | states |
|---|---|---|
| `BidEntity.RevisionsList` | web/modules/custom/bid/src/Entity/Bid.php:120-129 | one id per revision of this bid, no other ids, each once; the model also lists them in increasing (save) order, a modelling choice because the query has no sort |
| `BidEntity.HasRevisions` | web/modules/custom/bid/src/Entity/Bid.php:100-114 | true iff the bid has more than one revision; then the loaded revision's id is among the listed ids |
| `BidEntity.WithRevision` | web/modules/custom/bid/src/Entity/Bid.php:56-71 | a new revision keeps the id, owner, offer, creation time and every earlier revision, including its amount; the added revision becomes the current one; well-formedness is kept when the new id is larger than all earlier ones |
| `BidEntity.RevisionAmount` | web/modules/custom/offer/src/Entity/Offer.php:264-268 | the amount read back is the one stored in a revision with the requested id |
| `AllFieldsRequired.Validate` | web/modules/custom/bid/src/Plugin/Validation/Constraint/AllFieldsRequiredConstraintValidator.php:15-27 | between 0 and 3 violations, each carrying the constraint message; none iff user, amount and offer are all set |
| `AllFieldsRequired.ViolationPerEmptyField` | web/modules/custom/bid/src/Plugin/Validation/Constraint/AllFieldsRequiredConstraintValidator.php:16-26 | the number of violations equals the number of empty fields |
| `AllFieldsRequired.ChecksAreIndependent` | web/modules/custom/bid/src/Plugin/Validation/Constraint/AllFieldsRequiredConstraintValidator.php:16-26 | the count is a sum of one term per field, each depending on that field alone |
| `BidAccess.CheckAccess` | web/modules/custom/bid/src/BidAccessControlHandler.php:22-45 | allowed iff the operation is view, or is update/edit/delete and the account is the owner; forbidden iff the operation is none of the four |
| `BidAccess.BidAccessAllowed` | web/modules/custom/bid/src/Entity/Bid.php:92-94 | with the owner read from the bid's `user_id` reference, access is granted iff the operation is view or an owner operation by the owner |
| `BidAccess.OwnerOperationsAgree` | web/modules/custom/bid/src/BidAccessControlHandler.php:31-41 | update, edit and delete give the same result for the same account and owner |
| `BidAccess.OnlyOwnerMatters` | web/modules/custom/bid/src/BidAccessControlHandler.php:22-45 | two bids with the same owner get the same verdict whatever their offer, amounts or history |
| `BidAccess.NonOwnerMayOnlyView` | web/modules/custom/bid/src/BidAccessControlHandler.php:24-42 | any non-owner is granted view and nothing else |
| `OfferEntity.ListerMayOnlyView` | web/modules/custom/bid/src/BidAccessControlHandler.php:24-42 | the user who listed an offer gets no update, edit or delete rights over other users' bids on it, only view |
| `BidStore.Select` | web/modules/custom/offer/src/Entity/Offer.php:176-178 | a query returns exactly the stored bids that match its offer and, if given, its user |
| `BidStore.Count` | web/modules/custom/offer/src/Entity/Offer.php:164-167 | the count is zero iff no stored bid matches |
| `BidStore.CountIsSelectSize` | web/modules/custom/offer/src/Entity/Offer.php:162-181 | the count query and the listing query agree on the number of matches |
| `BidStore.SelectAppend` | web/modules/custom/offer/src/Form/OfferBiddingForm.php:124-128 | after a new bid is saved, earlier bids match a query as before, and the new bid is added at the end when it matches |
| `BidStore.Load` | web/modules/custom/offer/src/Entity/Offer.php:359-360 | loading finds a bid iff one with that id is stored; the bid returned has that id |
| `BidStore.Create` | web/modules/custom/offer/src/Form/OfferBiddingForm.php:124-128 | saving a created bid keeps the store valid and every earlier bid unchanged; it adds one bid with a fresh id, the given owner, offer and creation time, and a single revision holding the amount |
| `BidStore.SaveRevision` | web/modules/custom/offer/src/Form/OfferBiddingForm.php:115-121 | saving a revision keeps the store valid, keeps every id and every other bid, and stores the bid with the owner and offer set and the new revision appended |
| `BidStore.SaveRevisionKeepsPairs` | web/modules/custom/offer/src/Form/OfferBiddingForm.php:115-118 | re-setting the same owner and offer leaves every stored (offer, owner) pair in place |
| `OfferEntity.PreCreate` | web/modules/custom/offer/src/Entity/Offer.php:138-143 | `user_id` is added and defaults to the acting user; values the caller supplied, `user_id` among them, are kept |
| `OfferEntity.PriceAmount` | web/modules/custom/offer/src/Entity/Offer.php:223-231 | `with_minimum` gives the price followed by `$`; `no_minimum` gives "Start bidding at 0$"; any other type gives the empty string |
| `OfferEntity.OfferBids` | web/modules/custom/offer/src/Entity/Offer.php:175-181 | exactly the ids of the bids on the offer, each once; the model also lists them in increasing id order, a modelling choice because the query has no sort |
| `OfferEntity.BidsNumber` | web/modules/custom/offer/src/Entity/Offer.php:162-170 | equals the length of the offer's bid list; zero iff no bid targets the offer |
| `OfferEntity.HighestBid` | web/modules/custom/offer/src/Entity/Offer.php:186-209 | 0 when the offer has no bids; otherwise the current amount of a bid on the offer that no other bid on it exceeds |
| `OfferEntity.UserHasBids` | web/modules/custom/offer/src/Entity/Offer.php:328-343 | true iff some stored bid has this offer and this user |
| `OfferEntity.CurrentUserBid` | web/modules/custom/offer/src/Entity/Offer.php:349-362 | present iff the user has a bid on the offer; it is a stored bid of that offer and user, with the latest creation time among them |
| `OfferEntity.RaiseDelta` | web/modules/custom/offer/src/Entity/Offer.php:254-270 | a delta is shown iff the bid has more than one revision |
| `OfferEntity.PreviousRevisionId` | web/modules/custom/offer/src/Entity/Offer.php:258-262 | dropping the loaded revision and taking the largest remaining id picks the revision saved just before the current one |
| `OfferEntity.RaiseDeltaIsLastRaise` | web/modules/custom/offer/src/Entity/Offer.php:254-270 | the delta equals the current amount minus the amount of the previous revision |
| `OfferEntity.RowFor` | web/modules/custom/offer/src/Entity/Offer.php:245-309 | a row shows the bid's id, owner, creation time and current amount, plus the last raise iff it has one; the remove link appears iff the viewer may delete, i.e. owns the bid |
| `OfferEntity.BiddingTable` | web/modules/custom/offer/src/Entity/Offer.php:238-322 | exactly one row per bid on the offer (as many as the bid count), in query order, each showing its bid to the viewer |
| `OfferBiddingForm.StartingPrice` | web/modules/custom/offer/src/Form/OfferBiddingForm.php:42-50 | `field_price` for `with_minimum`, "0" for `no_minimum`, and unassigned for any other type |
| `OfferBiddingForm.PriceHeadingMatchesPriceAmount` | web/modules/custom/offer/src/Form/OfferBiddingForm.php:42-62 | the form heading agrees with the offer's price label; the label is empty exactly when the form has no starting price |
| `OfferBiddingForm.BuildForm` | web/modules/custom/offer/src/Form/OfferBiddingForm.php:39-95 | the `min` hint equals the displayed highest bid: 0 without bids, otherwise the current amount of some bid on the offer that no bid on it exceeds; the button reads "Raise my bid" iff the user has a bid on the offer, and "Submit" otherwise |
| `OfferBiddingForm.ValidateForm` | web/modules/custom/offer/src/Form/OfferBiddingForm.php:97-105 | no error iff the bid is numeric; otherwise exactly one error, on field `bid` |
| `OfferBiddingForm.Commit` | web/modules/custom/offer/src/Form/OfferBiddingForm.php:135 | saving a complete pending bid stores that bid and uses one new revision id, keeping the store valid. A new bid is appended with a fresh id, the pending user, offer and amount, and the submission time; earlier bids are kept. A raise replaces the stored bid with the pending owner and offer, plus a new revision carrying the amount, revision user, log and time; every other bid is kept |
| `OfferBiddingForm.SaveGate` | web/modules/custom/offer/src/Form/OfferBiddingForm.php:131-139 | the store changes iff the pending bid has no violation; then the new store is the save of that pending bid (`Commit`) and the success status is shown; otherwise the store is untouched and the constraint's message (the text every violation carries) is shown as a warning |
| `OfferBiddingForm.Pending` | web/modules/custom/offer/src/Form/OfferBiddingForm.php:113-129 | the pending bid carries the acting user, the amount and the offer; it is a raise iff the user has a bid on the offer, and the raise targets that user's latest bid |
| `OfferBiddingForm.SubmitForm` | web/modules/custom/offer/src/Form/OfferBiddingForm.php:108-142 | a submission keeps the store valid, always changes it, and always reports success, because the form fills in all three required fields |
| `OfferBiddingForm.PostForm` | web/modules/custom/offer/src/Form/OfferBiddingForm.php:97-142 | a non-numeric amount leaves the store untouched with one error on `bid`; a numeric one is submitted without errors |
| `OfferBiddingForm.RaiseIsRevision` | web/modules/custom/offer/src/Form/OfferBiddingForm.php:113-121 | when the user has a bid on the offer, submitting saves a new revision of that user's latest bid |
| `OfferBiddingForm.SubmitRaisesLatestBid` | web/modules/custom/offer/src/Form/OfferBiddingForm.php:113-122 | a raise keeps the bid's id, owner and offer and appends one revision holding the amount, the acting user and the log "Bid raised for offer <id>"; no bid is added and no other bid changes |
| `OfferBiddingForm.DecimalRoundTrip` | web/modules/custom/offer/src/Form/OfferBiddingForm.php:119 | the digits written for the offer id in the log message read back as that id |
| `OfferBiddingForm.RevisionLogNamesOffer` | web/modules/custom/offer/src/Form/OfferBiddingForm.php:119 | two raises log the same message only if they are on the same offer |
| `OfferBiddingForm.RaiseKeepsCounts` | web/modules/custom/offer/src/Form/OfferBiddingForm.php:113-122 | a raise leaves the user's bid count on the offer and the offer's bid count unchanged |
| `OfferBiddingForm.SubmitCreatesBid` | web/modules/custom/offer/src/Form/OfferBiddingForm.php:123-129 | a first bid appends exactly one bid with a fresh id, the user, the offer and the amount; the user now has one bid there, and the offer's count grows by one |
| `OfferBiddingForm.SubmitKeepsOneBidPerBidder` | web/modules/custom/offer/src/Form/OfferBiddingForm.php:113-129 | if no user had two bids on one offer before a submission, none does after |
| `OfferBiddingForm.SubmittedAmountIsCurrent` | web/modules/custom/offer/src/Form/OfferBiddingForm.php:108-139 | after a submission the user holds a bid on the offer whose current amount is the one submitted, so the highest bid is at least that amount |
| `OfferBiddingForm.LowerSubmissionIsAccepted` | web/modules/custom/offer/src/Form/OfferBiddingForm.php:65-70 | the server sets no floor: after a bid of 10, submitting 5 revises it and the highest bid falls to 5 |

## Left out

- Rendering is not modelled: SVG markup, `Markup::create`, the renderer service, the dialog link attributes and the empty-table text. A row records which fields exist, not their HTML.
- Relative time formatting (`date.formatter`) is not modelled; a row keeps the raw creation time.
- The owner's display name is not modelled; a row keeps the owner's id.
- Amounts are integers, not floats. PHP's numeric-string coercion and `is_numeric` become the `RawBid` datatype. Subtracting numeric strings becomes integer subtraction.
- The ambient current user, request time and messenger become parameters and return values.
- Access-result cache metadata (`cachePerUser`, `addCacheableDependency`) is not modelled.
- Entity access hooks and admin permissions that could override `checkAccess` are not modelled; `$bid->access(...)` is the handler's verdict alone.
- Entity schema, display options, and the revision and storage tables are not modelled.
- The `changed` timestamp is not modelled.
- The order of a query without a sort is left to the database; the model uses storage order, which is id order. These depend on that choice: `OfferEntity.OfferBids` and `BidEntity.RevisionsList`, which promise increasing ids; `BidStore.SelectKeepsIdOrder`, by which query results come in increasing id order; `BidStore.SelectAppend`, which puts a newly saved bid last; and the order of the bidding table's rows. Counts, membership, "each once", the highest bid and the user's latest bid do not depend on it.
- `CurrentUserBid`: among bids with equal `created`, the model picks the first in storage order. The contract promises only that the result has the latest creation time.
- The first revision of a newly created bid gets framework defaults: no revision user, an empty log, and the request time as revision time.
- `Offer::load` failing is not modelled. A missing offer would be a null dereference in `submitForm`; the model takes the offer id as given.
- The form's `#required` flag on the bid field is not modelled. Drupal checks it before `validateForm`, and an empty value is non-numeric anyway.
- `AllFieldsRequired`: the constraint class that holds its message text is not part of this model; the message is a parameter.
- Other entity and typed-data constraints that `$bid->validate()` may run are not modelled.
- The block plugin that forwards to the bidding table is not modelled: it is framework glue.
- The menu-title count of the user's offers is not modelled: it is UI.
- Deleting bids (the delete form) is not part of the modelled core. Only the access verdict for it is modelled.
- Concurrent submissions are not modelled; each operation is one atomic step on the store.
