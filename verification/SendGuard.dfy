/** The provider wrapper that retries a send only when nothing was broadcast. */
module SendGuards {
  import opened Wrappers
  import opened NonceManagers

  datatype Request =
    | SendTransaction(nonce: nat, data: string)
    | SendRawTransaction(nonce: nat, data: string)
    | OtherRequest(name: string)

  /** An error of the Ledger plugin, raised before the broadcast, or any other one. */
  datatype RequestError = LedgerError(message: string) | RpcError(message: string)

  predicate IsPreBroadcastLedgerError(error: RequestError) {
    error.LedgerError?
  }

  function Repeat<T>(x: T, count: nat): seq<T> {
    if count == 0 then [] else Repeat(x, count - 1) + [x]
  }

  /** What one request may have broadcast: on success the transaction, and on a Ledger error nothing.
      Any other error may be raised before or after the broadcast. */
  predicate Effect(before: seq<Request>, after: seq<Request>, args: Request, r: Result<string, RequestError>) {
    if args.OtherRequest? then after == before
    else
      match r
      case Success(_) => after == before + [args]
      case Failure(LedgerError(_)) => after == before
      case Failure(RpcError(_)) => after == before || after == before + [args]
  }

  /** The wrapped provider. */
  class Provider {
    ghost var requests: seq<Request>
    ghost var broadcasts: seq<Request>

    method Request(args: Request) returns (r: Result<string, RequestError>)
      modifies this
      ensures requests == old(requests) + [args]
      ensures Effect(old(broadcasts), broadcasts, args, r)
    {
      var hash: string, works: bool, ledger: bool, sent: bool := *, *, *, *;
      requests := requests + [args];
      if works || (sent && !ledger) {
        broadcasts := broadcasts + if args.OtherRequest? then [] else [args];
      }
      r := if works then Success(hash) else if ledger then Failure(LedgerError(hash)) else Failure(RpcError(hash));
    }
  }

  /** The operator, who confirms finitely often, and never when input is not interactive. */
  class Operator {
    const interactive: bool
    var patience: nat
    ghost var confirmed: nat
    ghost var refused: nat

    constructor (interactive: bool, patience: nat)
      ensures this.interactive == interactive && this.patience == patience && confirmed == 0 && refused == 0
    {
      this.interactive := interactive;
      this.patience := patience;
      confirmed := 0;
      refused := 0;
    }

    method ConfirmRetry() returns (yes: bool)
      modifies this
      ensures yes ==> interactive && patience < old(patience) && confirmed == old(confirmed) + 1 && refused == old(refused)
      ensures !yes ==> patience == old(patience) && confirmed == old(confirmed) && refused == old(refused) + 1
    {
      yes := *;
      if yes && interactive && patience > 0 {
        patience := patience - 1;
        confirmed := confirmed + 1;
        return true;
      }
      refused := refused + 1;
      return false;
    }
  }

  class SendGuardProvider {
    const wrapped: Provider
    const io: Operator

    constructor (wrapped: Provider, io: Operator)
      ensures this.wrapped == wrapped && this.io == io
    {
      this.wrapped := wrapped;
      this.io := io;
    }

    /** However often it is retried, a request is broadcast at most once; every retry asks for the
        identical request, was confirmed by the operator, and followed a failed Ledger signature.
        A Ledger error reaches the caller of eth_sendTransaction only when the operator refused. */
    method Request(args: Request) returns (r: Result<string, RequestError>)
      modifies wrapped, io
      ensures Effect(old(wrapped.broadcasts), wrapped.broadcasts, args, r)
      ensures io.confirmed >= old(io.confirmed)
      ensures wrapped.requests == old(wrapped.requests) + Repeat(args, io.confirmed - old(io.confirmed) + 1)
      ensures !args.SendTransaction? ==> io.confirmed == old(io.confirmed)
      ensures io.refused
           == old(io.refused) + if args.SendTransaction? && r.Failure? && IsPreBroadcastLedgerError(r.error) then 1 else 0
    {
      if args.OtherRequest? {
        r := wrapped.Request(args);
        assert Repeat(args, 1) == [args];
        return;
      }
      while true
        invariant wrapped.broadcasts == old(wrapped.broadcasts)
        invariant io.confirmed >= old(io.confirmed)
        invariant !args.SendTransaction? ==> io.confirmed == old(io.confirmed)
        invariant io.refused == old(io.refused)
        invariant wrapped.requests == old(wrapped.requests) + Repeat(args, io.confirmed - old(io.confirmed))
        decreases io.patience
      {
        ghost var tries := io.confirmed - old(io.confirmed);
        assert (old(wrapped.requests) + Repeat(args, tries)) + [args] == old(wrapped.requests) + Repeat(args, tries + 1);
        r := wrapped.Request(args);
        if r.Success? || !args.SendTransaction? || !IsPreBroadcastLedgerError(r.error) {
          return;
        }
        var retry := io.ConfirmRetry();
        if !retry {
          return;
        }
      }
    }
  }

  /** Transactions with the nonces from `start` on. */
  function Sends(start: nat, payloads: seq<string>): (r: seq<Request>)
    ensures |r| == |payloads|
    ensures forall i | 0 <= i < |payloads| :: r[i] == SendTransaction(start + i, payloads[i])
  {
    if payloads == [] then []
    else
      var n := |payloads| - 1;
      Sends(start, payloads[..n]) + [SendTransaction(start + n, payloads[n])]
  }

  /** A run of sends, each with the next nonce, that aborts at the first error. What is broadcast
      is a gap-free range of nonces from the start nonce, one per payload in order. A run that has
      not aborted has broadcast every payload; one that aborts at send `done` has broadcast
      the earlier ones, and that one at most once. */
  method SendAll(nm: NonceManager, guard: SendGuardProvider, payloads: seq<string>) returns (done: nat)
    modifies nm, guard.wrapped, guard.io
    ensures done <= |payloads|
    ensures nm.nonce == old(nm.nonce) + if done == |payloads| then done else done + 1
    ensures done == |payloads| ==>
              guard.wrapped.broadcasts == old(guard.wrapped.broadcasts) + Sends(old(nm.nonce), payloads)
    ensures done < |payloads| ==>
              || guard.wrapped.broadcasts == old(guard.wrapped.broadcasts) + Sends(old(nm.nonce), payloads[..done])
              || guard.wrapped.broadcasts == old(guard.wrapped.broadcasts) + Sends(old(nm.nonce), payloads[..done + 1])
  {
    ghost var start, before := nm.nonce, guard.wrapped.broadcasts;
    done := 0;
    while done < |payloads|
      invariant done <= |payloads| && nm.nonce == start + done
      invariant guard.wrapped.broadcasts == before + Sends(start, payloads[..done])
    {
      SendsOneMore(start, payloads, done, before);
      var nonce := nm.Override();
      var r := guard.Request(SendTransaction(nonce, payloads[done]));
      if r.Failure? {
        return;
      }
      done := done + 1;
    }
    assert payloads[..done] == payloads;
  }

  lemma SendsOneMore(start: nat, payloads: seq<string>, done: nat, before: seq<Request>)
    requires done < |payloads|
    ensures (before + Sends(start, payloads[..done])) + [SendTransaction(start + done, payloads[done])]
         == before + Sends(start, payloads[..done + 1])
  {
    assert payloads[..done + 1][..done] == payloads[..done];
  }
}
