# xmr-payment ledger, modelled in Dafny

This project models the payment-tracking core of `xmr-payment`: the ledger of
pending Monero payments that an `XMRClient` keeps, keyed by 8-byte payment ids.

- `allocate_payment` asks the wallet for integrated addresses until one carries an id
  that no live payment holds. It then stores a fresh Pending record.
- `query_payment` reads a stored status. An unknown id reads as Expired.
- `poll_network` asks the wallet for the transfers to one payment id. It sums them into
  received and confirmed amounts, then sets the status by inclusive thresholds.

Files:

- `results.dfy` (module `Results`): `Option`, `Result`, the two error kinds, and
  `Rpc<T>`, which is the reply of one wallet call (answered, or a transport failure).
- `payment_id.dfy` (module `PaymentIds`): `PaymentID` over exactly eight bytes, its
  equality, and its lowercase hex text form. It also has a decoder for that text,
  which is used to prove the text form loses nothing.
- `payment.dfy` (module `Payments`): `PaymentStatus`, the `XMRPayment` record and its
  defaults, `is_expired`, the transfer sums, and `Reconciled`. `Reconciled` is the record
  a successful poll leaves behind.
- `client.dfy` (module `Client`): the class `XMRClient` with the ledger map and the
  block height. `ChooseFrom` specifies the allocation loop. `Aggregate` is the
  summing loop of `poll_network`.

The wallet RPC service becomes inputs:

- `make_integrated_address` becomes a finite sequence of replies. The k-th reply
  answers the k-th request.
- `get_bulk_payments` becomes one reply carrying a list of `(amount, block height)`
  transfers.
- `Utc::now()` becomes an integer `now`, counted in seconds.

The allocation reports how many address requests it made. The poll reports whether it
queried the wallet at all.

In these places the model follows the code:

- The comment at `src/lib.rs:73` says a payment lasts 30 minutes or 15 blocks,
  "whichever is longer". The code expires a record as soon as EITHER window has passed
  (an OR). The model keeps the OR.
- Confirmation depth is counted from the payment's creation height, not from the
  current height.
- When neither threshold is met, the previous status is kept. It is not reset to
  Pending. So a Confirmed payment can fall back to Received
  (`ConfirmedCanFallToReceived`), but nothing ever returns it to Pending.
- `Expired` is a member of the status enum. It is the status's default and the answer
  for an unknown id. No poll or allocation ever stores it.

One consequence of the code: `current_block_height` is set once when the client is
created and is never updated. So every record the client allocates is created at the
current height, and the 15-block window can never expire it
(`XMRClient.CreatedAtCurrentHeight`, `OnlyTheClockExpires`).

## Model

`IsDeep` (the depth test at `src/lib.rs:174`), `SumReceived` and `SumConfirmed` (the sums at
`src/lib.rs:173-175`), `NextStatus` (the status rule at `src/lib.rs:181-185`) and `Available`
(the loop test at `src/lib.rs:118-120`) are helpers used only in specifications. They have no
contracts of their own. The rows of `Reconciled`, `Aggregate` and `ChooseFrom` state what they mean.

| member | source | states |
|---|---|---|
| PaymentIds.Equal | src/lib.rs:30-36 | two ids are equal exactly when all 8 bytes agree, and this is the equality the ledger's keys use |
| PaymentIds.HexDigit | src/lib.rs:14 | a nibble becomes one lowercase hex digit, and reading that digit back gives the nibble |
| PaymentIds.HexEncode | src/lib.rs:14 | the text is twice as long as the bytes, with two digits per byte, high nibble first |
| PaymentIds.ToHex | src/lib.rs:12-16 | an id is displayed as exactly 16 lowercase hex characters, with characters 2i and 2i+1 being the high and low nibbles of byte i |
| PaymentIds.DigitValue | src/main.rs:32 | a character has a hex value exactly when it is a digit, a lowercase letter a-f or an uppercase letter A-F, and that value is below 16 |
| PaymentIds.HexDecode | src/main.rs:32 | a decoded text gives half as many bytes as it has characters |
| PaymentIds.HexDecodeDefined | src/main.rs:32 | a text decodes exactly when it has even length and every character is a hex digit of either case |
| PaymentIds.ParseId | src/main.rs:32 | a text parses to an id exactly when it has 16 characters, each a hex digit of either case |
| PaymentIds.HexDecodeEncode | src/lib.rs:14 | decoding the hex encoding of any byte string gives it back |
| PaymentIds.ParseToHex | src/lib.rs:12-16 | parsing the displayed text of an id gives the id back |
| PaymentIds.ToHexInjective | src/lib.rs:12-16 | two ids with the same displayed text are the same id |
| PaymentIds.LowerDigitRoundTrip | src/lib.rs:14 | a lowercase hex digit is the digit of its own value |
| PaymentIds.HexEncodeDecode | src/lib.rs:14 | encoding the bytes of a decodable lowercase hex text gives the text back |
| PaymentIds.ToHexParse | src/lib.rs:12-16 | every text of 16 lowercase hex digits parses to an id whose displayed form is that text |
| Payments.Default | src/lib.rs:44-63 | the default record has status Expired |
| Payments.NewPending | src/lib.rs:128-134 | the allocated record is Pending, has zero received and confirmed amounts, and carries the given time, height and requested amount |
| Payments.NumMinutes | src/lib.rs:79 | elapsed seconds become whole minutes truncated toward zero, within one minute of the exact value on the side of zero |
| Payments.IsExpired | src/lib.rs:77-86 | expired exactly when at least 31 whole minutes (31*60 seconds) have elapsed, OR more than 15 blocks separate the height from the creation height; both comparisons are strict |
| Payments.ExpiryExamples | src/lib.rs:77-86 | 31 minutes alone expires a record, and so do 16 blocks alone; 10 minutes with 5 blocks does not, and neither do 30:59 with 15 blocks |
| Payments.ConfirmedAtMostReceived | src/lib.rs:171-177 | the confirmed sum never exceeds the received sum |
| Payments.AllDeepConfirmsAll | src/lib.rs:171-177 | when every transfer is more than 5 blocks above the creation height, the confirmed sum equals the received sum |
| Payments.Reconciled | src/lib.rs:169-186 | after a poll, received is the sum of all amounts and confirmed is the sum of the deep ones (confirmed <= received); the status is Confirmed if confirmed >= requested, else Received if received >= requested, else unchanged; the creation time, creation height and requested amount are kept |
| Payments.ReconciledStatus | src/lib.rs:181-186 | a poll leaves the old status, Received or Confirmed; it never moves a payment back to Pending and never produces Expired from a live status |
| Payments.ReconcileReplaces | src/lib.rs:179-180 | the old amounts do not influence the result (replacement, not addition), so polling twice with the same transfers is the same as polling once |
| Payments.AllShallowConfirmsNothing | src/lib.rs:171-177 | when no transfer is more than 5 blocks above the creation height, the confirmed sum is zero |
| Payments.ConfirmedCanFallToReceived | src/lib.rs:181-186 | a Confirmed payment with a positive request becomes Received when a later poll sees only transfers at most 5 blocks deep whose sum covers the request |
| Payments.ZeroRequestConfirms | src/lib.rs:181-182 | a request of zero is Confirmed by any poll, even one that saw no transfers |
| Payments.AggregationExample | src/lib.rs:169-186 | transfers of 600,000,000 at depth 6 and 500,000,000 at depth 2, against a request of 1,000,000,000, give received 1,100,000,000, confirmed 600,000,000 and status Received |
| Client.ChooseFrom | src/lib.rs:115-125 | the allocation loop accepts the first generated candidate whose id is absent or held by an expired record; every candidate it skipped is a live collision; a failed reply aborts it with a transport error; running out of replies is exhaustion, and then every reply was a live collision |
| Client.Aggregate | src/lib.rs:169-177 | the loop's received total is the sum of all transfer amounts, and its confirmed total is the sum of those more than 5 blocks above the creation height |
| Client.ValidComparable | src/lib.rs:117-120 | in a valid ledger, the expiry test of every collision is defined at the current height |
| Client.OnlyTheClockExpires | src/lib.rs:82 | when every record was created at the current height, an id is free again exactly when it is absent or its record is at least 31 minutes old |
| Client.XMRClient.constructor | src/lib.rs:104-108 | a new client has an empty ledger at the wallet's height |
| Client.XMRClient.QueryPayment | src/lib.rs:142-151 | an absent id reads as Expired; a present id reads as its stored status; in a valid ledger, Expired is read exactly for absent ids |
| Client.XMRClient.AllocatePayment | src/lib.rs:113-136 | the outcome is the one ChooseFrom specifies, judged at the height snapshot; on success the id was absent or its record was expired; the id now maps to a fresh Pending record with the requested amount, zero amounts and the snapshot height, and every other key is unchanged; on failure the ledger is unchanged; the validity and creation-height invariants are preserved |
| Client.XMRClient.PollNetwork | src/lib.rs:155-187 | an absent id returns Expired without querying the wallet and changes nothing; a transport failure returns an error and changes nothing; otherwise the result is Ok, only the polled key changes, and it changes to the reconciled record; the returned status is the stored one; the invariants are preserved |

## Left out

- `XMRClient::new` (`src/lib.rs:92-109`) connects to the RPC daemon and opens the wallet. Only its result is modelled: the constructor takes the wallet's height.
- `make_integrated_address` and `get_bulk_payments` are RPC calls. They become inputs, and the address string is opaque. The `min_height = created_bheight` argument at `src/lib.rs:166` is represented by the requirement `AtOrAbove` on the reply. The reply is assumed to carry only the polled id's transfers.
- Client.XMRClient.AllocatePayment: the source loops without bound. The model reads a finite sequence of replies and adds an `AllocationExhausted` outcome for when the sequence runs out.
- Client.XMRClient.AllocatePayment: on the path where the candidate id is held by an expired record, the code as written blocks at the insert. The `break` at `src/lib.rs:121` leaves `conflict` holding the read guard that `get` took on that key's shard at `src/lib.rs:116` or `src/lib.rs:124`. That guard lives to the end of the function, so the `insert` of the same key at `src/lib.rs:128` waits for a write lock it can never get. The model gives the evidently intended result instead: it overwrites the expired record and returns `Allocated`. This follows from DashMap's documented locking rules and has not been reproduced.
- `Utc::now()` and chrono's `Duration`: time is an integer number of seconds, and one reading `now` serves a whole call. The source reads the clock again in every `is_expired` call and at the insert. Sub-second precision is not modelled.
- u64 arithmetic: amounts and heights are unbounded naturals. The two unsigned subtractions (`src/lib.rs:82`, `src/lib.rs:172`) would underflow, so they are preconditions instead: `Comparable` for allocation and `AtOrAbove` for polling. The sums at `src/lib.rs:173-175` are not bounded, so a u64 overflow there is not modelled.
- `DashMap` locking, the `AtomicU64` orderings and `unsafe impl Send/Sync` (`src/lib.rs:67-71`) are concurrency. The model is one sequential map and one counter.
- The `Hash` impl (`src/lib.rs:38-42`): the ledger is a Dafny map keyed by value, and `Equal` shows that value equality is byte equality.
- The `From` conversions to and from the wallet library's `PaymentId` (`src/lib.rs:18-28`) only wrap a foreign type.
- The debug `println!` in `poll_network` (`src/lib.rs:168`) is output only.
- `src/main.rs` is a demo driver (tokio task, `Arc`, hard-coded RPC URL and wallet file). Only its use of `from_hex` informs `ParseId`, which accepts digits of either case.
