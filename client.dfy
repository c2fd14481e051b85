/** `XMRClient`: the ledger of pending payments and the chain height, with
    allocation, query and polling. The wallet RPC service is replaced by its
    replies, given as inputs. */
module Client {
  import opened Results
  import opened PaymentIds
  import opened Payments

  type Ledger = map<PaymentID, XMRPayment>

  /** An id may be taken by a new allocation when no record holds it, or when
      the record holding it is expired at `(now, height)`. */
  predicate Available(ledger: Ledger, id: PaymentID, now: int, height: nat)
    requires id in ledger ==> ledger[id].createdBlockHeight <= height
  {
    id !in ledger || IsExpired(ledger[id], now, height)
  }

  /** Every record that a generated candidate collides with was created at or
      below `height`, so the expiry test on it does not underflow. */
  ghost predicate Comparable(ledger: Ledger, replies: seq<Rpc<(string, PaymentID)>>, height: nat)
  {
    forall k | 0 <= k < |replies| && replies[k].Answered? && replies[k].value.1 in ledger ::
      ledger[replies[k].value.1].createdBlockHeight <= height
  }

  /** How an allocation ends, and how many address requests it made. */
  datatype Allocation =
    | Allocated(address: string, id: PaymentID, calls: nat)
    | Failed(error: Error, calls: nat)

  /** The candidate at index `k` is a generated address whose id is held by a
      record that is not expired. */
  predicate Collides(ledger: Ledger, replies: seq<Rpc<(string, PaymentID)>>, k: nat, now: int, height: nat)
    requires k < |replies|
    requires Comparable(ledger, replies, height)
  {
    replies[k].Answered? && !Available(ledger, replies[k].value.1, now, height)
  }

  /** The collision-resolution loop of `allocate_payment`, from the reply at
      index `i` on: the first reply that fails aborts, the first candidate whose id
      is available is accepted, and running out of replies is exhaustion. */
  function ChooseFrom(ledger: Ledger, replies: seq<Rpc<(string, PaymentID)>>, now: int, height: nat, i: nat): (r: Allocation)
    requires i <= |replies|
    requires Comparable(ledger, replies, height)
    ensures i <= r.calls <= |replies|
    ensures r.Allocated? ==> i < r.calls && replies[r.calls - 1] == Answered((r.address, r.id))
                             && Available(ledger, r.id, now, height)
    ensures r.Failed? && r.error == TransportError ==> i < r.calls && replies[r.calls - 1].TransportFailed?
    ensures r.Failed? ==> r.error == TransportError || (r.error == AllocationExhausted && r.calls == |replies|)
    ensures r.Failed? && r.error == AllocationExhausted ==>
              forall k | i <= k < |replies| :: Collides(ledger, replies, k, now, height)
    ensures !(r.Failed? && r.error == AllocationExhausted) ==>
              forall k | i <= k < r.calls - 1 :: Collides(ledger, replies, k, now, height)
    decreases |replies| - i
  {
    if i == |replies| then Failed(AllocationExhausted, i)
    else match replies[i]
      case TransportFailed => Failed(TransportError, i + 1)
      case Answered((address, id)) =>
        if Available(ledger, id, now, height) then Allocated(address, id, i + 1)
        else ChooseFrom(ledger, replies, now, height, i + 1)
  }

  /** The sums of the `for` loop of `poll_network`. `blockHeight - created` is
      an unsigned subtraction, hence the requirement on the transfers. */
  method Aggregate(ts: seq<Transfer>, created: nat) returns (received: nat, confirmed: nat)
    requires AtOrAbove(ts, created)
    ensures received == SumReceived(ts)
    ensures confirmed == SumConfirmed(ts, created)
  {
    received, confirmed := 0, 0;
    for i := 0 to |ts|
      invariant received == SumReceived(ts[..i])
      invariant confirmed == SumConfirmed(ts[..i], created)
    {
      assert ts[..i + 1][..i] == ts[..i];
      var blocksConfirmed := ts[i].blockHeight - created;
      received := received + ts[i].amount;
      if blocksConfirmed > ConfirmationDepth {
        confirmed := confirmed + ts[i].amount;
      }
    }
    assert ts[..|ts|] == ts;
  }

  class XMRClient {
    var pendingPayments: Ledger
    var currentBlockHeight: nat

    /** Every record was created at or below the current height and holds a
        live status. Allocation and polling keep this. */
    ghost predicate Valid()
      reads this
    {
      forall id | id in pendingPayments ::
        pendingPayments[id].createdBlockHeight <= currentBlockHeight
        && pendingPayments[id].status != Expired
    }

    /** Every record was created at the current height. Nothing in the client
        ever changes the height after construction, so allocation keeps this. */
    ghost predicate CreatedAtCurrentHeight()
      reads this
    {
      forall id | id in pendingPayments :: pendingPayments[id].createdBlockHeight == currentBlockHeight
    }

    /** An empty ledger at the height the wallet reported. */
    constructor (height: nat)
      ensures pendingPayments == map[] && currentBlockHeight == height
      ensures Valid() && CreatedAtCurrentHeight()
    {
      pendingPayments := map[];
      currentBlockHeight := height;
    }

    /** `query_payment`: the stored status, or Expired for an id not in the ledger. */
    function QueryPayment(id: PaymentID): (s: PaymentStatus)
      reads this
      ensures id !in pendingPayments ==> s == Expired
      ensures id in pendingPayments ==> s == pendingPayments[id].status
      ensures Valid() ==> (s == Expired <==> id !in pendingPayments)
    {
      match if id in pendingPayments then Some(pendingPayments[id]) else None
      case None => Expired
      case Some(p) => p.status
    }

    /** `allocate_payment`, reading `replies[k]` as the answer to the k-th
        `make_integrated_address` request and `now` as the clock. */
    method AllocatePayment(amountRequested: nat, replies: seq<Rpc<(string, PaymentID)>>, now: int)
      returns (a: Allocation)
      requires Comparable(pendingPayments, replies, currentBlockHeight)
      modifies this
      ensures currentBlockHeight == old(currentBlockHeight)
      ensures a == ChooseFrom(old(pendingPayments), replies, now, currentBlockHeight, 0)
      ensures a.Allocated? ==> a.id !in old(pendingPayments)
                               || IsExpired(old(pendingPayments)[a.id], now, currentBlockHeight)
      ensures a.Allocated? ==>
                pendingPayments == old(pendingPayments)[a.id := NewPending(now, currentBlockHeight, amountRequested)]
      ensures a.Allocated? ==> QueryPayment(a.id) == Pending
      ensures a.Failed? ==> pendingPayments == old(pendingPayments)
      ensures old(Valid()) ==> Valid()
      ensures old(CreatedAtCurrentHeight()) ==> CreatedAtCurrentHeight()
    {
      if |replies| == 0 {
        return Failed(AllocationExhausted, 0);
      }
      if replies[0].TransportFailed? {
        return Failed(TransportError, 1);
      }
      var (address, paymentId) := replies[0].value;
      var conflict := if paymentId in pendingPayments then Some(pendingPayments[paymentId]) else None;
      var height := currentBlockHeight;
      var calls := 1;
      while conflict.Some?
        invariant 1 <= calls <= |replies|
        invariant replies[calls - 1] == Answered((address, paymentId))
        invariant conflict == if paymentId in pendingPayments then Some(pendingPayments[paymentId]) else None
        invariant ChooseFrom(pendingPayments, replies, now, height, 0)
                  == ChooseFrom(pendingPayments, replies, now, height, calls - 1)
        decreases |replies| - calls
      {
        if IsExpired(conflict.value, now, height) {
          break;
        }
        if calls == |replies| {
          return Failed(AllocationExhausted, calls);
        }
        if replies[calls].TransportFailed? {
          return Failed(TransportError, calls + 1);
        }
        address, paymentId := replies[calls].value.0, replies[calls].value.1;
        conflict := if paymentId in pendingPayments then Some(pendingPayments[paymentId]) else None;
        calls := calls + 1;
      }
      pendingPayments := pendingPayments[paymentId := NewPending(now, height, amountRequested)];
      return Allocated(address, paymentId, calls);
    }

    /** `poll_network`, reading `reply` as the answer to `get_bulk_payments`.
        `queried` says whether the wallet was asked at all. */
    method PollNetwork(id: PaymentID, reply: Rpc<seq<Transfer>>) returns (r: Result<PaymentStatus>, queried: bool)
      requires id in pendingPayments && reply.Answered? ==>
                 AtOrAbove(reply.value, pendingPayments[id].createdBlockHeight)
      modifies this
      ensures currentBlockHeight == old(currentBlockHeight)
      ensures id !in old(pendingPayments) ==>
                r == Ok(Expired) && !queried && pendingPayments == old(pendingPayments)
      ensures id in old(pendingPayments) && reply.TransportFailed? ==>
                r == Err(TransportError) && queried && pendingPayments == old(pendingPayments)
      ensures id in old(pendingPayments) && reply.Answered? ==>
                queried && pendingPayments == old(pendingPayments)[id := Reconciled(old(pendingPayments)[id], reply.value)]
                && r == Ok(pendingPayments[id].status)
      ensures r.Ok? ==> r.value == QueryPayment(id)
      ensures old(Valid()) ==> Valid()
      ensures old(CreatedAtCurrentHeight()) ==> CreatedAtCurrentHeight()
    {
      if id !in pendingPayments {
        return Ok(Expired), false;
      }
      var pendingPayment := pendingPayments[id];
      var created := pendingPayment.createdBlockHeight;
      queried := true;
      if reply.TransportFailed? {
        return Err(TransportError), queried;
      }
      var received, confirmed := Aggregate(reply.value, created);
      pendingPayment := pendingPayment.(amountReceived := received, amountConfirmed := confirmed);
      if confirmed >= pendingPayment.amountRequested {
        pendingPayment := pendingPayment.(status := Confirmed);
      } else if received >= pendingPayment.amountRequested {
        pendingPayment := pendingPayment.(status := Received);
      }
      pendingPayments := pendingPayments[id := pendingPayment];
      return Ok(pendingPayment.status), queried;
    }
  }

  /** A valid ledger meets the requirement of every allocation. */
  lemma ValidComparable(c: XMRClient, replies: seq<Rpc<(string, PaymentID)>>)
    requires c.Valid()
    ensures Comparable(c.pendingPayments, replies, c.currentBlockHeight)
  {
  }

  /** Since the height never advances, the block window never expires a record
      the client allocated: whether an id is free again depends on the clock alone. */
  lemma OnlyTheClockExpires(c: XMRClient, id: PaymentID, now: int)
    requires c.CreatedAtCurrentHeight()
    ensures Available(c.pendingPayments, id, now, c.currentBlockHeight) <==>
              (id !in c.pendingPayments
               || now - c.pendingPayments[id].createdTimestamp >= (ExpiryMinutes + 1) * SecondsPerMinute)
  {
  }
}
