/**
 * The store itself: tables updated in place, one method per transaction. Each method is proved against the
 * function of the same name in `Transactions`.
 */
module RuntimeStores {
  import opened Basics
  import opened JsonValues
  import opened RuntimeModels
  import opened ReceiptChain
  import T = Transactions

  class RuntimeStore {
    const lease: nat
    var actions: map<string, Action>
    var index: map<ActionKey, string>
    var receipts: seq<Receipt>
    var pauses: map<Scope, Pause>
    var limits: map<string, Limit>
    var usage: map<Bucket, Usage>
    var reservations: seq<Reservation>
    var controls: seq<ControlReceipt>

    /** The committed contents of the database. */
    function Contents(): Tables
      reads this
    {
      Tables(actions, index, receipts, pauses, limits, usage, reservations, controls)
    }

    constructor (lease: nat)
      requires lease >= 1
      ensures this.lease == lease && Contents() == EMPTY_TABLES
    {
      this.lease := lease;
      actions, index, receipts, pauses := map[], map[], [], map[];
      limits, usage, reservations, controls := map[], map[], [], [];
    }

    /** ROLLBACK to the contents at BEGIN. */
    method Rollback(before: Tables)
      modifies this
      ensures Contents() == before
    {
      actions, index, receipts, pauses := before.actions, before.index, before.receipts, before.pauses;
      limits, usage, reservations, controls := before.limits, before.usage, before.reservations, before.controls;
    }

    method AppendReceipt(id: string, event: Event, now: nat, digest: Digest, actor: Option<string>, detail: Option<Text>)
      modifies this`receipts
      ensures receipts == T.AppendReceipt(old(receipts), id, event, now, digest, actor, detail)
    {
      var previous := if receipts == [] then None else Some(receipts[|receipts| - 1].receiptHash);
      var hash := Hash(id, event, now, digest, actor, detail, previous);
      receipts := receipts + [Receipt(|receipts| + 1, id, event, now, digest, actor, detail, previous, hash)];
    }

    method AppendControl(event: ControlEvent, now: nat, actor: string, scope: Json, detail: Text)
      modifies this`controls
      ensures controls == T.AppendControl(old(controls), event, now, actor, scope, detail)
    {
      var previous := if controls == [] then None else Some(controls[|controls| - 1].receiptHash);
      var hash := ControlHash(event, now, actor, scope, detail, previous);
      controls := controls + [ControlReceipt(|controls| + 1, event, now, actor, scope, detail, previous, hash)];
    }

    /** INSERT or UPDATE of one action row. */
    method Write(id: string, row: Action)
      modifies this`actions, this`index
      ensures actions == old(actions)[id := row] && index == old(index)[RowKey(row) := id]
    {
      actions := actions[id := row];
      index := index[RowKey(row) := id];
    }

    method RefreshExpiry(id: string, now: nat)
      requires id in actions
      modifies this
      ensures Contents() == T.RefreshExpiry(old(Contents()), id, now)
    {
      var row := actions[id];
      if T.ApprovalIsLate(row, now) {
        Write(id, row.(status := Expired, updatedAt := now));
        AppendReceipt(id, ApprovalLapsed, now, row.digest, T.RUNTIME, None);
      }
    }

    method RefreshState(id: string, now: nat)
      requires id in actions
      modifies this
      ensures Contents() == T.RefreshState(old(Contents()), id, now) && id in actions
    {
      RefreshExpiry(id, now);
      var row := actions[id];
      if T.LeaseIsLate(row, now) {
        Write(id, row.(status := Unknown, updatedAt := now, error := Some(T.LEASE_LOST), leaseExpiresAt := None));
        AppendReceipt(id, ExecutionAbandoned, now, row.digest, T.RUNTIME, Some(Raw(T.LEASE_LOST)));
      }
    }

    method Submit(request: Request, decision: PolicyDecision, now: nat) returns (r: Outcome<Action, Error>)
      modifies this
      ensures T.Tx(Contents(), r) == T.Submit(old(Contents()), request, decision, now)
    {
      var before := Contents();
      if !ValidRequest(request) || !ValidPolicyDecision(decision) || decision.policyVersion != request.policyVersion {
        return Raised(InvalidValue);
      }
      var found := T.FindByKey(before, RequestKey(request));
      if found.Some? {
        RefreshState(found.value, now);
        if actions[found.value].digest != RequestDigest(request) {
          Rollback(before);
          return Raised(BindingMismatch);
        }
        return Returned(actions[found.value]);
      }
      if request.actionId in actions {
        return Raised(IntegrityViolation);
      }
      var row := T.NewRow(request, decision, now);
      Write(request.actionId, row);
      AppendReceipt(request.actionId, T.PolicyEvent(decision.effect), now, row.digest, T.POLICY, Some(Raw(T.PolicyDetail(decision))));
      return Returned(row);
    }

    method DecideLocked(id: string, decision: Decision, actor: string, reason: Option<string>, now: nat)
      returns (r: Outcome<Action, Error>)
      requires id in actions
      modifies this
      ensures T.Tx(Contents(), r) == T.Decided(old(Contents()), id, decision, actor, reason, now)
    {
      var row := actions[id];
      var target := if decision.Approve? then Approved else Rejected;
      if row.status == target { return Returned(row); }
      if row.status == Expired { return Raised(ApprovalExpired(row)); }
      if row.status != Pending { return Raised(InvalidState(row.status)); }
      Write(id, row.(status := target, updatedAt := now, decidedBy := Some(actor), decisionReason := reason));
      AppendReceipt(id, if decision.Approve? then ApprovalGranted else Event.ApprovalRejected, now, row.digest, Some(actor), T.TextOf(reason));
      return Returned(actions[id]);
    }

    method Decide(id: string, decision: Decision, actor: string, reason: Option<string>, now: nat)
      returns (r: Outcome<Action, Error>)
      modifies this
      ensures T.Tx(Contents(), r) == T.Decide(old(Contents()), id, decision, actor, reason, now)
    {
      if Blank(actor) { return Raised(InvalidValue); }
      var before := Contents();
      if id !in actions { return Raised(UnknownId(id)); }
      RefreshState(id, now);
      r := DecideLocked(id, decision, actor, reason, now);
      if r.Raised? { Rollback(before); }
    }

    method DecideAuthorized(id: string, decision: Decision, auth: Authorization, reason: Option<string>, now: nat)
      returns (r: Outcome<Action, Error>)
      modifies this
      ensures T.Tx(Contents(), r) == T.DecideAuthorized(old(Contents()), id, decision, auth, reason, now)
    {
      var before := Contents();
      if id !in actions { return Raised(UnknownId(id)); }
      RefreshState(id, now);
      var refusal := T.Refusal(actions[id], decision, auth);
      if refusal.Some? {
        Rollback(before);
        return Raised(refusal.value);
      }
      r := DecideLocked(id, decision, auth.actor, reason, now);
      if r.Raised? { Rollback(before); }
    }

    method SetPause(actor: string, reason: string, namespace: Option<string>, tool: Option<string>, now: nat)
      returns (r: Outcome<Pause, Error>)
      modifies this
      ensures T.Tx(Contents(), r) == T.SetPause(old(Contents()), actor, reason, namespace, tool, now)
    {
      if !T.ValidControl(actor, reason, namespace, tool) { return Raised(InvalidValue); }
      var scope := T.ScopeOf(namespace, tool);
      pauses := pauses[scope := Pause(now, actor, reason)];
      AppendControl(PauseSet, now, actor, ScopeJson(scope), Raw(reason));
      return Returned(pauses[scope]);
    }

    method ClearPause(actor: string, reason: string, namespace: Option<string>, tool: Option<string>, now: nat)
      returns (r: Outcome<bool, Error>)
      modifies this
      ensures T.Tx(Contents(), r) == T.ClearPause(old(Contents()), actor, reason, namespace, tool, now)
    {
      if !T.ValidControl(actor, reason, namespace, tool) { return Raised(InvalidValue); }
      var scope := T.ScopeOf(namespace, tool);
      if scope !in pauses { return Returned(false); }
      pauses := pauses - {scope};
      AppendControl(PauseCleared, now, actor, ScopeJson(scope), Raw(reason));
      return Returned(true);
    }

    method ConfigureLimit(limitId: string, spec: T.LimitSpec, actor: string, reason: string, now: nat)
      returns (r: Outcome<Limit, Error>)
      modifies this
      ensures T.Tx(Contents(), r) == T.ConfigureLimit(old(Contents()), limitId, spec, actor, reason, now)
    {
      if !T.ValidLimit(limitId, spec, actor, reason) { return Raised(InvalidValue); }
      var limit: Limit := LimitRow(T.ScopeOf(spec.namespace, spec.tool), spec.window, T.Positive(spec.maxActions),
                                   spec.valueArgument, T.Positive(spec.maxValue), true, now, actor, reason);
      if limitId in limits && !T.SameShape(limits[limitId], limit) { return Raised(InvalidValue); }
      limits := limits[limitId := limit];
      AppendControl(LimitConfigured, now, actor, ScopeJson(limit.scope), Encoded(T.LimitDetail(limitId, limit)));
      return Returned(limit);
    }

    method DisableLimit(limitId: string, actor: string, reason: string, now: nat) returns (r: Outcome<Limit, Error>)
      modifies this
      ensures T.Tx(Contents(), r) == T.DisableLimit(old(Contents()), limitId, actor, reason, now)
    {
      if !Label(limitId) || !Label(actor) || !Label(reason) { return Raised(InvalidValue); }
      if limitId !in limits { return Raised(UnknownId(limitId)); }
      if !limits[limitId].enabled { return Returned(limits[limitId]); }
      limits := limits[limitId := limits[limitId].(enabled := false, updatedAt := now, updatedBy := actor, reason := reason)];
      AppendControl(LimitDisabled, now, actor, ScopeJson(limits[limitId].scope),
                    Encoded(Obj(map["limit_id" := Str(limitId), "reason" := Str(reason)])));
      return Returned(limits[limitId]);
    }

    /** Asks every matching limit in order; stops at the first refusal. */
    method PlanReservations(id: string, row: Action, now: nat) returns (plan: Outcome<seq<Reservation>, Error>)
      ensures plan == T.Plan(Contents(), T.MatchingLimits(limits, row), id, row, now)
    {
      hide T.MatchingLimits, T.Admit;
      var ids := T.MatchingLimits(limits, row);
      var admitted: seq<Reservation> := [];
      for i := 0 to |ids|
        invariant T.Plan(Contents(), ids[..i], id, row, now) == Returned(admitted)
      {
        assert ids[..i + 1][..i] == ids[..i];
        var next := T.Admit(usage, ids[i], limits[ids[i]], id, row, now);
        if next.Raised? {
          PlanKeepsRefusal(Contents(), ids, i + 1, id, row, now);
          return Raised(next.error);
        }
        admitted := admitted + [next.value];
      }
      assert ids[..|ids|] == ids;
      return Returned(admitted);
    }

    method BookReservations(plan: seq<Reservation>)
      modifies this`usage, this`reservations
      ensures T.Books(usage, reservations) == T.BookAll(T.Books(old(usage), old(reservations)), plan)
    {
      for i := 0 to |plan|
        invariant T.Books(usage, reservations) == T.BookAll(T.Books(old(usage), old(reservations)), plan[..i])
      {
        assert plan[..i + 1][..i] == plan[..i];
        var r := plan[i];
        var used := T.UsedIn(usage, r.bucket);
        usage := usage[r.bucket := Usage(used.actions + r.actions, used.value + r.value)];
        reservations := reservations + [r];
      }
      assert plan[..|plan|] == plan;
    }

    /** Books a reservation with every matching limit, or with none if one refuses. */
    method ReserveLimitCapacity(id: string, row: Action, now: nat) returns (blocked: Option<Error>)
      modifies this`usage, this`reservations
      ensures var plan := T.Plan(old(Contents()), T.MatchingLimits(limits, row), id, row, now);
              if plan.Raised? then blocked == Some(plan.error) && Contents() == old(Contents())
              else blocked == None
                   && Contents() == T.WithBooks(old(Contents()), T.BookAll(T.Books(old(usage), old(reservations)), plan.value))
    {
      var plan := PlanReservations(id, row, now);
      if plan.Raised? { return Some(plan.error); }
      BookReservations(plan.value);
      return None;
    }

    /** Gives back what an action's open reservations hold. */
    method ReleaseLimitCapacity(id: string, now: nat)
      modifies this`usage, this`reservations
      ensures T.Books(usage, reservations) == T.Release(T.Books(old(usage), old(reservations)), id, now, |old(reservations)|)
    {
      for i := 0 to |reservations|
        invariant |reservations| == |old(reservations)|
        invariant T.Books(usage, reservations) == T.Release(T.Books(old(usage), old(reservations)), id, now, i)
      {
        var r := reservations[i];
        if T.Held(r, id) {
          if r.bucket in usage {
            usage := usage[r.bucket := Usage(usage[r.bucket].actions - r.actions, usage[r.bucket].value - r.value)];
          }
          reservations := reservations[i := r.(releasedAt := Some(now))];
        }
      }
    }

    method Claim(id: string, digest: Digest, now: nat) returns (r: Outcome<Grant, Error>)
      modifies this
      ensures T.Tx(Contents(), r) == T.Claim(old(Contents()), lease, id, digest, now)
    {
      var before := Contents();
      if id !in actions { return Raised(UnknownId(id)); }
      RefreshState(id, now);
      var row := actions[id];
      if row.digest != digest {
        Rollback(before);
        return Raised(BindingMismatch);
      }
      if row.status == Succeeded {
        AppendReceipt(id, ResultReplayed, now, digest, T.RUNTIME, None);
        return Returned(Replay(row, if row.result.Some? then row.result.value else Null));
      }
      if row.status != Approved {
        Rollback(before);
        return Raised(T.ClaimRefusal(row));
      }
      var pause := T.MatchingPause(pauses, row);
      if pause.Some? {
        var reason := pauses[pause.value].reason;
        AppendReceipt(id, PauseBlocked, now, digest, T.RUNTIME, Some(Encoded(T.PauseDetail(pause.value, reason))));
        return Raised(PauseActive(row, pause.value, reason));
      }
      var blocked := ReserveLimitCapacity(id, row, now);
      if blocked.Some? {
        AppendReceipt(id, LimitBlocked, now, digest, T.RUNTIME, Some(Encoded(T.BlockDetail(blocked.value))));
        return Raised(blocked.value);
      }
      Write(id, row.(status := Executing, updatedAt := now, leaseExpiresAt := Some(now + lease)));
      AppendReceipt(id, ExecutionStarted, now, digest, T.RUNTIME, None);
      return Returned(Execute(actions[id]));
    }

    method Complete(id: string, digest: Digest, result: PyValue, now: nat) returns (r: Outcome<Action, Error>)
      modifies this
      ensures T.Tx(Contents(), r) == T.Complete(old(Contents()), id, digest, result, now)
    {
      if result.Opaque? { return Raised(InvalidValue); }
      if id !in actions { return Raised(UnknownId(id)); }
      var row := actions[id];
      if row.digest != digest { return Raised(BindingMismatch); }
      if row.status != Executing { return Raised(InvalidState(row.status)); }
      Write(id, row.(status := Succeeded, updatedAt := now, result := Some(result.json), error := None, leaseExpiresAt := None));
      AppendReceipt(id, ExecutionSucceeded, now, digest, T.RUNTIME, None);
      return Returned(actions[id]);
    }

    method MarkUnknown(id: string, digest: Digest, error: string, now: nat) returns (r: Outcome<Action, Error>)
      modifies this
      ensures T.Tx(Contents(), r) == T.MarkUnknown(old(Contents()), id, digest, error, now)
    {
      if Blank(error) { return Raised(InvalidValue); }
      if id !in actions { return Raised(UnknownId(id)); }
      var row := actions[id];
      if row.digest != digest { return Raised(BindingMismatch); }
      if row.status != Executing { return Raised(InvalidState(row.status)); }
      Write(id, row.(status := Unknown, updatedAt := now, error := Some(error), leaseExpiresAt := None));
      AppendReceipt(id, ExecutionUnknown, now, digest, T.RUNTIME, Some(Raw(error)));
      return Returned(actions[id]);
    }

    method Reconcile(id: string, outcome: Reconciliation, actor: string, reason: string, result: PyValue, now: nat)
      returns (r: Outcome<Action, Error>)
      modifies this
      ensures T.Tx(Contents(), r) == T.Reconcile(old(Contents()), id, outcome, actor, reason, result, now)
    {
      if Blank(actor) || Blank(reason) || (outcome.NotCommitted? && result != Loaded(Null)) || result.Opaque? {
        return Raised(InvalidValue);
      }
      var before := Contents();
      if id !in actions { return Raised(UnknownId(id)); }
      RefreshState(id, now);
      var row := actions[id];
      if row.status != Unknown {
        Rollback(before);
        return Raised(InvalidState(row.status));
      }
      var row1 := T.ReconciledRow(row, outcome, if outcome.Committed? then Some(result.json) else None, now);
      if row1.None? {
        Rollback(before);
        return Raised(InvalidState(row.status));
      }
      if outcome.NotCommitted? {
        ReleaseLimitCapacity(id, now);
      }
      Write(id, row1.value);
      AppendReceipt(id, if outcome.Committed? then ReconciledCommitted else ReconciledNotCommitted, now, row.digest,
                    Some(actor), Some(Raw(reason)));
      return Returned(actions[id]);
    }

    method GetAction(id: string, now: nat) returns (r: Outcome<Action, Error>)
      modifies this
      ensures T.Tx(Contents(), r) == T.GetAction(old(Contents()), id, now)
    {
      if id !in actions { return Raised(UnknownId(id)); }
      RefreshState(id, now);
      return Returned(actions[id]);
    }

    method ListActions(status: Option<Status>, now: nat) returns (r: Outcome<seq<Action>, Error>)
      modifies this
      ensures T.Tx(Contents(), r) == T.ListActions(old(Contents()), status, now)
    {
      ghost var before := Contents();
      var ids := T.CreationOrder(actions);
      for i := 0 to |ids|
        invariant forall id | id in before.actions :: id in actions
        invariant Contents() == T.RefreshAll(before, ids[..i], now)
      {
        assert ids[..i + 1][..i] == ids[..i];
        RefreshState(ids[i], now);
      }
      assert ids[..|ids|] == ids;
      return Returned(T.WithStatus(Contents(), ids, status));
    }

    /** True exactly when every receipt is linked to its predecessor and hashes to its own columns. */
    method VerifyReceiptChain() returns (intact: bool)
      ensures intact <==> WellLinked(receipts)
    {
      var previous: Option<Hash> := None;
      for i := 0 to |receipts|
        invariant previous == LastHash(receipts[..i])
        invariant WellLinked(receipts[..i])
      {
        assert receipts[..i + 1][..i] == receipts[..i];
        if receipts[i].previousHash != previous || receipts[i].receiptHash != HashOf(receipts[i]) {
          return false;
        }
        forall j | 0 <= j < i + 1 ensures receipts[..i + 1][..j] == receipts[..j] {}
        forall j | 0 <= j < i ensures receipts[..i][j] == receipts[j] && receipts[..i][..j] == receipts[..j] {}
        previous := Some(receipts[i].receiptHash);
      }
      assert receipts[..|receipts|] == receipts;
      return true;
    }

    method VerifyControlReceiptChain() returns (intact: bool)
      ensures intact <==> ControlsLinked(controls)
    {
      var previous: Option<ControlHash> := None;
      for i := 0 to |controls|
        invariant previous == LastControlHash(controls[..i])
        invariant ControlsLinked(controls[..i])
      {
        assert controls[..i + 1][..i] == controls[..i];
        if controls[i].previousHash != previous || controls[i].receiptHash != ControlHashOf(controls[i]) {
          return false;
        }
        forall j | 0 <= j < i + 1 ensures controls[..i + 1][..j] == controls[..j] {}
        forall j | 0 <= j < i ensures controls[..i][j] == controls[j] && controls[..i][..j] == controls[..j] {}
        previous := Some(controls[i].receiptHash);
      }
      assert controls[..|controls|] == controls;
      return true;
    }
  }

  /** A refusal found among the first limits is the refusal of them all. */
  lemma {:induction false} PlanKeepsRefusal(t: Tables, ids: seq<string>, n: nat, id: string, row: Action, now: nat)
    requires forall i | 0 <= i < |ids| :: ids[i] in t.limits
    requires n <= |ids| && T.Plan(t, ids[..n], id, row, now).Raised?
    ensures T.Plan(t, ids, id, row, now) == T.Plan(t, ids[..n], id, row, now)
  {
    if n < |ids| {
      assert ids[..|ids| - 1][..n] == ids[..n];
      PlanKeepsRefusal(t, ids[..|ids| - 1], n, id, row, now);
    } else {
      assert ids[..n] == ids;
    }
  }
}
