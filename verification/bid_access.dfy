/** The bid access control handler as a pure predicate over the operation
    name, the account id and the bid owner's id. */
module BidAccess {
  import opened BidEntity

  /** The framework's access result. `allowedIf(false)` is neutral, not
      forbidden; only an allowed result grants the operation. */
  datatype AccessResult = Allowed | Neutral | Forbidden {
    predicate IsAllowed() {
      Allowed?
    }
  }

  function AllowedIf(condition: bool): AccessResult {
    if condition then Allowed else Neutral
  }

  /** The operations granted to the bid's owner only. */
  predicate OwnerOperation(operation: string) {
    operation == "update" || operation == "edit" || operation == "delete"
  }

  /** `checkAccess`: viewing is open to everyone, updating, editing and
      deleting to the owner, and every other operation is forbidden. */
  function CheckAccess(operation: string, account: UserId, owner: UserId): (r: AccessResult)
    ensures r.IsAllowed() <==> operation == "view" || (OwnerOperation(operation) && account == owner)
    ensures r == Forbidden <==> operation != "view" && !OwnerOperation(operation)
  {
    if operation == "view" then Allowed
    else if operation == "update" then AllowedIf(account == owner)
    else if operation == "edit" then AllowedIf(account == owner)
    else if operation == "delete" then AllowedIf(account == owner)
    else Forbidden
  }

  /** `$bid->access(operation)` for `account`: the handler's verdict with the
      owner read from the bid's `user_id` reference (`getOwnerId`). */
  function BidAccessAllowed(operation: string, account: UserId, b: Bid): (r: bool)
    ensures r <==> operation == "view" || (OwnerOperation(operation) && account == b.userId)
  {
    CheckAccess(operation, account, b.userId).IsAllowed()
  }

  /** `update`, `edit` and `delete` always agree. */
  lemma OwnerOperationsAgree(account: UserId, owner: UserId)
    ensures CheckAccess("update", account, owner) == CheckAccess("edit", account, owner)
    ensures CheckAccess("edit", account, owner) == CheckAccess("delete", account, owner)
  {
  }

  /** Only the owner id of a bid matters: its offer, amount, revisions and
      creation time do not, so the offer's lister has no special right. */
  lemma OnlyOwnerMatters(operation: string, account: UserId, b1: Bid, b2: Bid)
    requires b1.userId == b2.userId
    ensures BidAccessAllowed(operation, account, b1) == BidAccessAllowed(operation, account, b2)
  {
  }

  /** An account other than the owner, the offer's lister included, may view
      the bid and do nothing else with it. */
  lemma NonOwnerMayOnlyView(operation: string, account: UserId, b: Bid)
    requires account != b.userId
    ensures BidAccessAllowed(operation, account, b) <==> operation == "view"
  {
  }
}
