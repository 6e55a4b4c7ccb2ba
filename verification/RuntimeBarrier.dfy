/** `execute` as the program it is: store transactions around one call of the protected operation. */
module RuntimeBarriers {
  import opened Basics
  import opened JsonValues
  import opened RuntimeModels
  import opened Barrier
  import opened RuntimeStores
  import T = Transactions
  import Runs

  /** What the protected operation does when it is called. */
  datatype Operation = Yields(result: PyValue) | Throws(name: string)

  /** Clock readings of the transactions a call may perform. */
  datatype Readings = Readings(submit: nat, claim: nat, complete: nat, record: nat)

  datatype Alone = Alone(tables: Tables, call: Call)

  function Stepped(a: Alone, lease: nat, step: CallStep): Alone {
    Alone(Performed(a.tables, lease, StoreOp(a.call, step)), Advanced(a.tables, lease, a.call, step))
  }

  /** A call whose steps nobody interrupts; steps that are not its next one do nothing. */
  function Uninterrupted(t: Tables, lease: nat, request: Request, policy: PolicyDecision, operation: Operation,
                         at: Readings): Alone {
    var a0 := Alone(t, Call(request, policy, None, false, Ready));
    var a1 := Stepped(a0, lease, DoSubmit(at.submit));
    var a2 := Stepped(a1, lease, DoClaim(at.claim));
    var a3 := Stepped(a2, lease, if operation.Yields? then OperationReturns(operation.result) else OperationRaises(operation.name));
    var a4 := Stepped(a3, lease, DoComplete(at.complete));
    Stepped(a4, lease, DoRecord(at.record))
  }

  class RuntimeBarrier {
    const store: RuntimeStore

    constructor (store: RuntimeStore)
      ensures this.store == store
    {
      this.store := store;
    }

    /** Marks the action unknown if the store lets it; either way the call fails. */
    method RecordUnknown(id: string, digest: Digest, name: string, now: nat)
      modifies store
      ensures store.Contents() == Runs.Apply(old(store.Contents()), store.lease, Runs.MarkUnknown(id, digest, name, now))
    {
      var _ := store.MarkUnknown(id, digest, name, now);
    }

    /** Runs the operation only on a granted claim; returns its result only if the store kept it. */
    method Execute(request: Request, policy: PolicyDecision, operation: Operation, at: Readings)
      returns (outcome: Phase, invoked: bool)
      modifies store
      ensures var alone := Uninterrupted(old(store.Contents()), store.lease, request, policy, operation, at);
              store.Contents() == alone.tables && outcome == alone.call.phase && invoked == alone.call.granted
      ensures outcome.Done? || outcome.Failed?
    {
      hide T.Submit, T.Claim, T.Complete, T.MarkUnknown, RuntimeStore.Contents;
      var digest := RequestDigest(request);
      var submitted := store.Submit(request, policy, at.submit);
      if submitted.Raised? {
        return Failed(Refused(submitted.error)), false;
      }
      var id := submitted.value.actionId;
      var claim := store.Claim(id, digest, at.claim);
      if claim.Raised? {
        return Failed(Refused(claim.error)), false;
      }
      if claim.value.Replay? {
        return Done(Loaded(claim.value.result), true), false;
      }
      invoked := true;
      if operation.Throws? {
        RecordUnknown(id, digest, operation.name, at.record);
        return Failed(OperationFailed(operation.name)), invoked;
      }
      if operation.result.Opaque? {
        RecordUnknown(id, digest, "TypeError", at.record);
        return Failed(Uncertain), invoked;
      }
      var stored := store.Complete(id, digest, Loaded(operation.result.json), at.complete);
      if stored.Raised? {
        RecordUnknown(id, digest, "RuntimeError", at.record);
        return Failed(Uncertain), invoked;
      }
      return Done(operation.result, false), invoked;
    }
  }
}
