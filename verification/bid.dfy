/** The bid content entity: an owner, a target offer, a creation time and an
    append-only list of revisions. Only the amount field `bid` is revisionable,
    so each revision carries its own amount; the owner (`user_id`) and the
    offer (`offer_id`) are entity-level and shared by all revisions. */
module BidEntity {
  import opened Optional

  type UserId = nat
  type OfferId = nat
  type BidId = nat
  type RevisionId = nat
  /** Bid amounts; the source stores floats, the model uses integers. */
  type Amount = int
  type Timestamp = int

  /** One saved revision: its id, its amount, and the revision metadata. */
  datatype Revision = Revision(
    vid: RevisionId,
    amount: Amount,
    revisionUser: Option<UserId>,
    log: string,
    revisionCreated: Timestamp)

  datatype Bid = Bid(
    id: BidId,
    userId: UserId,
    offerId: OfferId,
    created: Timestamp,
    revisions: seq<Revision>)

  /** What the revision storage guarantees: at least one revision, and
      revision ids strictly increasing in the order they were saved. */
  predicate WellFormed(b: Bid) {
    && |b.revisions| > 0
    && forall i, j :: 0 <= i < j < |b.revisions| ==> b.revisions[i].vid < b.revisions[j].vid
  }

  /** The default revision, the one loading the bid yields: the last one saved. */
  function Current(b: Bid): Revision
    requires WellFormed(b)
  {
    b.revisions[|b.revisions| - 1]
  }

  function CurrentAmount(b: Bid): Amount
    requires WellFormed(b)
  {
    Current(b).amount
  }

  function LoadedRevisionId(b: Bid): RevisionId
    requires WellFormed(b)
  {
    Current(b).vid
  }

  /** `getRevisionsList`: the ids of all revisions of this bid, oldest first. */
  function RevisionsList(b: Bid): (r: seq<RevisionId>)
    ensures |r| == |b.revisions|
    ensures forall v :: v in r <==> exists i :: 0 <= i < |b.revisions| && b.revisions[i].vid == v
    ensures WellFormed(b) ==> forall i, j :: 0 <= i < j < |r| ==> r[i] != r[j]
    ensures WellFormed(b) ==> forall i, j :: 0 <= i < j < |r| ==> r[i] < r[j]
  {
    var r := seq(|b.revisions|, i requires 0 <= i < |b.revisions| => b.revisions[i].vid);
    assert forall i :: 0 <= i < |r| ==> r[i] == b.revisions[i].vid;
    r
  }

  /** `hasRevisions`: the all-revisions count for this bid exceeds one. */
  function HasRevisions(b: Bid): (r: bool)
    ensures r <==> |b.revisions| > 1
    ensures r && WellFormed(b) ==> LoadedRevisionId(b) in RevisionsList(b)
  {
    |RevisionsList(b)| > 1
  }

  /** `loadRevision(vid)` followed by reading `bid`: the amount kept in the
      revision with id `vid`. */
  function RevisionAmount(b: Bid, vid: RevisionId): (r: Amount)
    requires vid in RevisionsList(b)
    ensures exists i :: 0 <= i < |b.revisions| && b.revisions[i].vid == vid && b.revisions[i].amount == r
  {
    AmountIn(b.revisions, vid)
  }

  function AmountIn(rs: seq<Revision>, vid: RevisionId): (r: Amount)
    requires exists i :: 0 <= i < |rs| && rs[i].vid == vid
    ensures exists i :: 0 <= i < |rs| && rs[i].vid == vid && rs[i].amount == r
  {
    if rs[0].vid == vid then rs[0].amount
    else
      assert exists i :: 0 <= i < |rs[1..]| && rs[1..][i].vid == vid by {
        var i :| 0 <= i < |rs| && rs[i].vid == vid;
        assert rs[1..][i - 1] == rs[i];
      }
      var r := AmountIn(rs[1..], vid);
      assert exists i :: 0 <= i < |rs| && rs[i].vid == vid && rs[i].amount == r by {
        var i :| 0 <= i < |rs[1..]| && rs[1..][i].vid == vid && rs[1..][i].amount == r;
        assert rs[i + 1] == rs[1..][i];
      }
      r
  }

  /** In a well-formed bid a revision id names exactly one revision. */
  lemma RevisionAmountAt(b: Bid, k: nat)
    requires WellFormed(b) && k < |b.revisions|
    ensures b.revisions[k].vid in RevisionsList(b)
    ensures RevisionAmount(b, b.revisions[k].vid) == b.revisions[k].amount
  {
    var vid := b.revisions[k].vid;
    assert RevisionsList(b)[k] == vid;
    var i :| 0 <= i < |b.revisions| && b.revisions[i].vid == vid && b.revisions[i].amount == RevisionAmount(b, vid);
    assert i == k;
  }

  /** `setNewRevision(TRUE)` then save: the bid keeps its id, owner, offer and
      creation time, its old revisions stay as they were, and `rev` becomes
      the current revision. */
  function WithRevision(b: Bid, rev: Revision): (r: Bid)
    ensures r.id == b.id && r.userId == b.userId && r.offerId == b.offerId && r.created == b.created
    ensures |r.revisions| == |b.revisions| + 1
    ensures r.revisions[..|b.revisions|] == b.revisions
    ensures r.revisions[|b.revisions|] == rev
    ensures WellFormed(b) && (forall i :: 0 <= i < |b.revisions| ==> b.revisions[i].vid < rev.vid)
            ==> WellFormed(r)
  {
    b.(revisions := b.revisions + [rev])
  }
}
