/** A tracked payment: its status, its record, the expiry policy, and the
    rules that turn wallet transfers into amounts and a status. */
module Payments {

  const SecondsPerMinute := 60
  /** A record is too old after more than this many whole minutes ... */
  const ExpiryMinutes := 30
  /** ... or after more than this many blocks. */
  const ExpiryBlocks := 15
  /** A transfer counts as confirmed when more than this many blocks separate it
      from the payment's creation height. */
  const ConfirmationDepth := 5

  datatype PaymentStatus = Expired | Pending | Received | Confirmed

  /** `XMRPayment`. Timestamps are whole seconds since the Unix epoch; amounts
      are in piconero. */
  datatype XMRPayment = XMRPayment(
    createdTimestamp: int,
    createdBlockHeight: nat,
    status: PaymentStatus,
    amountReceived: nat,
    amountConfirmed: nat,
    amountRequested: nat)

  /** `XMRPayment::default()`: the epoch, height 0, status Expired, no amounts. */
  function Default(): (p: XMRPayment)
    ensures p.status == Expired
  {
    XMRPayment(0, 0, Expired, 0, 0, 0)
  }

  /** The record `allocate_payment` stores: the defaults with creation time,
      height, status Pending and the requested amount filled in. */
  function NewPending(now: int, height: nat, amountRequested: nat): (p: XMRPayment)
    ensures p.status == Pending && p.amountReceived == 0 && p.amountConfirmed == 0
    ensures p.createdTimestamp == now && p.createdBlockHeight == height
    ensures p.amountRequested == amountRequested
  {
    Default().(createdTimestamp := now, createdBlockHeight := height,
               status := Pending, amountRequested := amountRequested)
  }

  /** `Duration::num_minutes`: whole minutes, truncated toward zero. */
  function NumMinutes(seconds: int): (m: int)
    ensures seconds >= 0 ==> 0 <= m && m * SecondsPerMinute <= seconds < m * SecondsPerMinute + SecondsPerMinute
    ensures seconds < 0 ==> m <= 0 && m * SecondsPerMinute - SecondsPerMinute < seconds <= m * SecondsPerMinute
  {
    if seconds >= 0 then seconds / SecondsPerMinute
    else -((-seconds) / SecondsPerMinute)
  }

  /** `XMRPayment::is_expired`, judged at wall-clock time `now` and chain height
      `height`. The height subtraction is unsigned, so it needs
      `height >= createdBlockHeight`. */
  function IsExpired(p: XMRPayment, now: int, height: nat): (r: bool)
    requires p.createdBlockHeight <= height
    ensures r <==> (now - p.createdTimestamp >= (ExpiryMinutes + 1) * SecondsPerMinute
                    || height - p.createdBlockHeight > ExpiryBlocks)
  {
    if NumMinutes(now - p.createdTimestamp) > ExpiryMinutes then true
    else if height - p.createdBlockHeight > ExpiryBlocks then true
    else false
  }

  /** Either window alone expires a record: 31 minutes at the creation height,
      or 16 blocks one second after creation; 10 minutes and 5 blocks does not.
      At exactly 30 minutes (up to 30:59) and 15 blocks the record still holds. */
  lemma ExpiryExamples(p: XMRPayment)
    ensures IsExpired(p, p.createdTimestamp + 31 * 60, p.createdBlockHeight)
    ensures IsExpired(p, p.createdTimestamp + 1, p.createdBlockHeight + 16)
    ensures !IsExpired(p, p.createdTimestamp + 10 * 60, p.createdBlockHeight + 5)
    ensures !IsExpired(p, p.createdTimestamp + 30 * 60 + 59, p.createdBlockHeight + 15)
  {
  }

  /** One transfer reported by `get_bulk_payments`. */
  datatype Transfer = Transfer(amount: nat, blockHeight: nat)

  /** Every transfer lies at or above `created` (the wallet is asked for
      transfers from that height on), so `blockHeight - created` does not underflow. */
  ghost predicate AtOrAbove(ts: seq<Transfer>, created: nat)
  {
    forall k | 0 <= k < |ts| :: ts[k].blockHeight >= created
  }

  predicate IsDeep(t: Transfer, created: nat)
  {
    t.blockHeight - created > ConfirmationDepth
  }

  /** The sum of all transfer amounts. */
  function SumReceived(ts: seq<Transfer>): nat
  {
    if ts == [] then 0 else SumReceived(ts[..|ts| - 1]) + ts[|ts| - 1].amount
  }

  /** The sum of the amounts of the transfers deeper than the confirmation depth,
      measured from the payment's creation height `created`. */
  function SumConfirmed(ts: seq<Transfer>, created: nat): nat
  {
    if ts == [] then 0
    else SumConfirmed(ts[..|ts| - 1], created)
         + (if IsDeep(ts[|ts| - 1], created) then ts[|ts| - 1].amount else 0)
  }

  lemma {:induction false} ConfirmedAtMostReceived(ts: seq<Transfer>, created: nat)
    ensures SumConfirmed(ts, created) <= SumReceived(ts)
  {
    if ts != [] {
      ConfirmedAtMostReceived(ts[..|ts| - 1], created);
    }
  }

  /** When every transfer is deep, everything received is confirmed. */
  lemma {:induction false} AllDeepConfirmsAll(ts: seq<Transfer>, created: nat)
    requires forall k | 0 <= k < |ts| :: IsDeep(ts[k], created)
    ensures SumConfirmed(ts, created) == SumReceived(ts)
  {
    if ts != [] {
      AllDeepConfirmsAll(ts[..|ts| - 1], created);
    }
  }

  /** The status rule of `poll_network`: inclusive thresholds, and the previous
      status kept when neither is met. */
  function NextStatus(prev: PaymentStatus, received: nat, confirmed: nat, requested: nat): PaymentStatus
  {
    if confirmed >= requested then Confirmed
    else if received >= requested then Received
    else prev
  }

  /** The record after a poll that saw transfers `ts`: both amounts replaced by
      fresh sums, the status recomputed, every other field kept. */
  function Reconciled(p: XMRPayment, ts: seq<Transfer>): (q: XMRPayment)
    ensures q.amountReceived == SumReceived(ts)
    ensures q.amountConfirmed == SumConfirmed(ts, p.createdBlockHeight)
    ensures q.amountConfirmed <= q.amountReceived
    ensures q.amountConfirmed >= p.amountRequested ==> q.status == Confirmed
    ensures q.amountConfirmed < p.amountRequested <= q.amountReceived ==> q.status == Received
    ensures q.amountReceived < p.amountRequested ==> q.status == p.status
    ensures q.createdTimestamp == p.createdTimestamp && q.createdBlockHeight == p.createdBlockHeight
    ensures q.amountRequested == p.amountRequested
  {
    var received := SumReceived(ts);
    var confirmed := SumConfirmed(ts, p.createdBlockHeight);
    ConfirmedAtMostReceived(ts, p.createdBlockHeight);
    p.(amountReceived := received, amountConfirmed := confirmed,
       status := NextStatus(p.status, received, confirmed, p.amountRequested))
  }

  /** Polling never sets Pending or Expired: a stored Received or Confirmed
      status never falls back to Pending, and Expired is never produced from a live status. */
  lemma ReconciledStatus(p: XMRPayment, ts: seq<Transfer>)
    ensures Reconciled(p, ts).status in {p.status, Received, Confirmed}
    ensures p.status != Pending ==> Reconciled(p, ts).status != Pending
    ensures p.status != Expired ==> Reconciled(p, ts).status != Expired
  {
  }

  /** The amounts are replaced, not accumulated: the old amounts have no influence,
      so polling again with the same transfers changes nothing. */
  lemma ReconcileReplaces(p: XMRPayment, ts: seq<Transfer>, oldReceived: nat, oldConfirmed: nat)
    ensures Reconciled(p.(amountReceived := oldReceived, amountConfirmed := oldConfirmed), ts) == Reconciled(p, ts)
    ensures Reconciled(Reconciled(p, ts), ts) == Reconciled(p, ts)
  {
  }

  /** When no transfer is deep, nothing is confirmed. */
  lemma {:induction false} AllShallowConfirmsNothing(ts: seq<Transfer>, created: nat)
    requires forall k | 0 <= k < |ts| :: !IsDeep(ts[k], created)
    ensures SumConfirmed(ts, created) == 0
  {
    if ts != [] {
      AllShallowConfirmsNothing(ts[..|ts| - 1], created);
    }
  }

  /** A Confirmed payment with a positive request drops back to Received when a
      later poll sees only shallow transfers whose sum still covers the request. */
  lemma ConfirmedCanFallToReceived(p: XMRPayment, ts: seq<Transfer>)
    requires p.status == Confirmed
    requires 0 < p.amountRequested <= SumReceived(ts)
    requires forall k | 0 <= k < |ts| :: !IsDeep(ts[k], p.createdBlockHeight)
    ensures Reconciled(p, ts).status == Received
  {
    AllShallowConfirmsNothing(ts, p.createdBlockHeight);
  }

  /** A request of zero is met by any poll, even one that saw no transfer. */
  lemma ZeroRequestConfirms(p: XMRPayment, ts: seq<Transfer>)
    requires p.amountRequested == 0
    ensures Reconciled(p, ts).status == Confirmed
  {
  }

  /** Two transfers of 600,000,000 and 500,000,000 piconero at depths 6 and 2
      against a request of 1,000,000,000 leave the payment Received. */
  lemma AggregationExample(p: XMRPayment)
    requires p.amountRequested == 1_000_000_000
    ensures var ts := [Transfer(600_000_000, p.createdBlockHeight + 6), Transfer(500_000_000, p.createdBlockHeight + 2)];
            var q := Reconciled(p, ts);
            q.amountReceived == 1_100_000_000 && q.amountConfirmed == 600_000_000 && q.status == Received
  {
    var ts := [Transfer(600_000_000, p.createdBlockHeight + 6), Transfer(500_000_000, p.createdBlockHeight + 2)];
    assert ts[..1] == [ts[0]];
    assert ts[..1][..0] == [];
    assert SumReceived(ts[..1]) == 600_000_000;
    assert SumConfirmed(ts[..1], p.createdBlockHeight) == 600_000_000;
    assert SumReceived(ts) == 1_100_000_000;
    assert SumConfirmed(ts, p.createdBlockHeight) == 600_000_000;
  }
}
