/** Failure-carrying values shared by the ledger model. */
module Results {

  datatype Option<+T> = None | Some(value: T)

  /** The two ways an operation of the client can fail. */
  datatype Error =
    | TransportError       // a wallet RPC call failed (the `?` on an RPC result)
    | AllocationExhausted  // the finite stream of fresh addresses ran out

  datatype Result<+T> = Ok(value: T) | Err(error: Error)

  /** The reply of one call to the wallet RPC service. */
  datatype Rpc<+T> = Answered(value: T) | TransportFailed
}
