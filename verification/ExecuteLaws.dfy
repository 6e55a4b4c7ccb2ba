/** What a caller of `execute` gets, case by case, when nobody else acts meanwhile. */
module ExecuteLaws {
  import opened Basics
  import opened JsonValues
  import opened RuntimeModels
  import opened Barrier
  import opened RuntimeBarriers
  import ClaimLaws
  import TransactionLaws
  import T = Transactions
  import Runs

  /** The call's submission returned this row, leaving these tables. */
  predicate Submits(t: Tables, request: Request, policy: PolicyDecision, now: nat, t1: Tables, id: string) {
    var tx := T.Submit(t, request, policy, now);
    tx.reply.Returned? && tx.reply.value.actionId == id && tx.tables == t1
  }

  /** A submission that is refused ends the call: nothing changes, and the operation is not run. */
  lemma RefusedSubmissions(t: Tables, lease: nat, request: Request, policy: PolicyDecision, operation: Operation, at: Readings)
    requires T.Submit(t, request, policy, at.submit).reply.Raised?
    ensures var a := Uninterrupted(t, lease, request, policy, operation, at);
            a.call.phase == Failed(Refused(T.Submit(t, request, policy, at.submit).reply.error)) && !a.call.granted && a.tables == t
  {
    hide T.RefreshState;
    var a1 := Stepped(Alone(t, Call(request, policy, None, false, Ready)), lease, DoSubmit(at.submit));
    assert a1 == Alone(t, Call(request, policy, None, false, Failed(Refused(T.Submit(t, request, policy, at.submit).reply.error))));
    hide T.Submit;
  }

  /** The call once its claim was answered. */
  function Claimed(t: Tables, lease: nat, request: Request, policy: PolicyDecision, at: Readings): Alone {
    Stepped(Stepped(Alone(t, Call(request, policy, None, false, Ready)), lease, DoSubmit(at.submit)), lease, DoClaim(at.claim))
  }

  /** After a returned submission, the claim decides whether the operation is run. */
  lemma AfterClaim(t: Tables, lease: nat, request: Request, policy: PolicyDecision, operation: Operation, at: Readings, t1: Tables, id: string)
    requires Submits(t, request, policy, at.submit, t1, id)
    ensures var claim := T.Claim(t1, lease, id, RequestDigest(request), at.claim);
            var a2 := Claimed(t, lease, request, policy, at);
            && a2.tables == claim.tables
            && a2.call == Call(request, policy, Some(id), claim.reply.Returned? && claim.reply.value.Execute?,
                               if claim.reply.Raised? then Failed(Refused(claim.reply.error))
                               else if claim.reply.value.Replay? then Done(Encodable(claim.reply.value.result, 0), true)
                               else Running)
  {
    hide T.Submit, T.Claim;
  }

  /** What is left to do then. */
  function Finished(a: Alone, lease: nat, operation: Operation, at: Readings): Alone {
    var a3 := Stepped(a, lease, if operation.Yields? then OperationReturns(operation.result) else OperationRaises(operation.name));
    Stepped(Stepped(a3, lease, DoComplete(at.complete)), lease, DoRecord(at.record))
  }

  lemma UninterruptedFinishes(t: Tables, lease: nat, request: Request, policy: PolicyDecision, operation: Operation, at: Readings)
    ensures Uninterrupted(t, lease, request, policy, operation, at)
         == Finished(Claimed(t, lease, request, policy, at), lease, operation, at)
  {
    hide Stepped;
  }

  lemma EndedCallsStay(a: Alone, lease: nat, operation: Operation, at: Readings)
    requires a.call.phase.Done? || a.call.phase.Failed?
    ensures Finished(a, lease, operation, at) == a
  {
    hide T.Complete, T.MarkUnknown;
  }

  /** A running call whose operation yields an encodable value stores it and is done. */
  lemma RunningCallsReturn(a: Alone, lease: nat, operation: Operation, at: Readings)
    requires a.call.phase.Running? && a.call.actionId.Some? && operation.Yields? && operation.result.Encodable?
    ensures var tx := T.Complete(a.tables, a.call.actionId.value, RequestDigest(a.call.request), Encodable(operation.result.json, 0), at.complete);
            tx.reply.Returned? ==>
              Finished(a, lease, operation, at) == Alone(tx.tables, a.call.(phase := Done(operation.result, false)))
  {
    hide T.Complete, T.MarkUnknown, RequestDigest;
  }

  /** A running call whose operation raises, or yields what cannot be stored, records that and fails. */
  lemma RunningCallsFail(a: Alone, lease: nat, operation: Operation, at: Readings)
    requires a.call.phase.Running? && a.call.actionId.Some? && (operation.Throws? || operation.result.Opaque?)
    ensures var name := if operation.Throws? then operation.name else "TypeError";
            var tx := T.MarkUnknown(a.tables, a.call.actionId.value, RequestDigest(a.call.request), name, at.record);
            Finished(a, lease, operation, at)
            == Alone(tx.tables, a.call.(phase := Failed(if operation.Throws? then OperationFailed(operation.name) else Uncertain)))
  {
    hide T.Complete, T.MarkUnknown, RequestDigest;
  }

  /** A refused claim ends the call, and the operation is not run. */
  lemma RefusedClaims(t: Tables, lease: nat, request: Request, policy: PolicyDecision, operation: Operation, at: Readings, t1: Tables, id: string)
    requires Submits(t, request, policy, at.submit, t1, id)
    requires T.Claim(t1, lease, id, RequestDigest(request), at.claim).reply.Raised?
    ensures var claim := T.Claim(t1, lease, id, RequestDigest(request), at.claim);
            var a := Uninterrupted(t, lease, request, policy, operation, at);
            a.call.phase == Failed(Refused(claim.reply.error)) && !a.call.granted && a.tables == claim.tables
  {
    AfterClaim(t, lease, request, policy, operation, at, t1, id);
    UninterruptedFinishes(t, lease, request, policy, operation, at);
    EndedCallsStay(Claimed(t, lease, request, policy, at), lease, operation, at);
    hide T.Submit, T.Claim, Claimed, Finished, Uninterrupted;
  }

  /** A succeeded action's result is returned as stored, and the operation is not run again. */
  lemma SucceededCallsReplay(t: Tables, lease: nat, request: Request, policy: PolicyDecision, operation: Operation, at: Readings, t1: Tables, id: string)
    requires Submits(t, request, policy, at.submit, t1, id)
    requires id in t1.actions && t1.actions[id].status == Succeeded && t1.actions[id].digest == RequestDigest(request)
    ensures var a := Uninterrupted(t, lease, request, policy, operation, at);
            && a.call.phase == Done(Encodable(match t1.actions[id].result case None => Null case Some(json) => json, 0), true)
            && !a.call.granted && a.tables.actions == t1.actions
  {
    AfterClaim(t, lease, request, policy, operation, at, t1, id);
    ClaimLaws.SucceededReplays(t1, lease, id, at.claim);
    UninterruptedFinishes(t, lease, request, policy, operation, at);
    EndedCallsStay(Claimed(t, lease, request, policy, at), lease, operation, at);
    hide T.Submit, T.Claim, Claimed, Finished, Uninterrupted;
  }

  /** A granted call whose operation yields an encodable value returns it, and the action has succeeded with it. */
  lemma GrantedCallsReturn(t: Tables, lease: nat, request: Request, policy: PolicyDecision, operation: Operation, at: Readings, t1: Tables, id: string)
    requires Submits(t, request, policy, at.submit, t1, id) && ClaimLaws.Claimable(t1, id, RequestDigest(request), at.claim)
    requires operation.Yields? && operation.result.Encodable?
    ensures var a := Uninterrupted(t, lease, request, policy, operation, at);
            && a.call.phase == Done(operation.result, false) && a.call.granted
            && id in a.tables.actions && a.tables.actions[id].status == Succeeded && a.tables.actions[id].result == Some(operation.result.json)
  {
    var digest := RequestDigest(request);
    ClaimLaws.ClaimGrantedExactly(t1, lease, id, digest, at.claim);
    ClaimLaws.GrantedClaimStarts(t1, lease, id, digest, at.claim);
    AfterClaim(t, lease, request, policy, operation, at, t1, id);
    var t2 := T.Claim(t1, lease, id, digest, at.claim).tables;
    TransactionLaws.CompletesExactly(t2, id, digest, Encodable(operation.result.json, 0), at.complete);
    UninterruptedFinishes(t, lease, request, policy, operation, at);
    RunningCallsReturn(Claimed(t, lease, request, policy, at), lease, operation, at);
    hide T.Submit, T.Claim, T.Complete, Claimed, Finished, Uninterrupted, RequestDigest, TransactionLaws.OneReceipt;
  }

  /** A granted call whose operation raises, or yields what cannot be stored, fails, and the action's outcome is unknown. */
  lemma GrantedCallsFail(t: Tables, lease: nat, request: Request, policy: PolicyDecision, operation: Operation, at: Readings, t1: Tables, id: string)
    requires Submits(t, request, policy, at.submit, t1, id) && ClaimLaws.Claimable(t1, id, RequestDigest(request), at.claim)
    requires operation.Throws? || operation.result.Opaque?
    ensures var a := Uninterrupted(t, lease, request, policy, operation, at);
            var name := if operation.Throws? then operation.name else "TypeError";
            && a.call.phase == Failed(if operation.Throws? then OperationFailed(operation.name) else Uncertain) && a.call.granted
            && id in a.tables.actions
            && (if Blank(name) then a.tables.actions[id].status == Executing
                else a.tables.actions[id].status == Unknown && a.tables.actions[id].error == Some(name))
  {
    var digest := RequestDigest(request);
    ClaimLaws.ClaimGrantedExactly(t1, lease, id, digest, at.claim);
    ClaimLaws.GrantedClaimStarts(t1, lease, id, digest, at.claim);
    AfterClaim(t, lease, request, policy, operation, at, t1, id);
    var t2 := T.Claim(t1, lease, id, digest, at.claim).tables;
    TransactionLaws.MarksUnknownExactly(t2, id, digest, if operation.Throws? then operation.name else "TypeError", at.record);
    UninterruptedFinishes(t, lease, request, policy, operation, at);
    RunningCallsFail(Claimed(t, lease, request, policy, at), lease, operation, at);
    hide T.Submit, T.Claim, T.MarkUnknown, Claimed, Finished, Uninterrupted, RequestDigest, TransactionLaws.OneReceipt;
  }
}
