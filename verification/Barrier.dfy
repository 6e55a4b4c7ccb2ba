/**
 * The client protocol around the store. Every call of `execute` is a small program whose steps interleave
 * freely with the steps of all other calls and with anything an operator does; a call may stop anywhere.
 */
module Barrier {
  import opened Basics
  import opened JsonValues
  import opened RuntimeModels
  import opened Lifecycle
  import opened LifeWords
  import opened Limits
  import opened StoreInvariant
  import T = Transactions
  import Runs

  datatype Failure = Refused(error: Error) | OperationFailed(name: string) | Uncertain | Crashed

  datatype Phase =
    | Ready
    | Submitted
    | Running
    | Finishing(result: PyValue)
    | Recording(name: string, failure: Failure)
    | Done(value: PyValue, replayed: bool)
    | Failed(failure: Failure)

  /** One call of `execute`; `granted` once a claim let it run the operation. */
  datatype Call = Call(request: Request, policy: PolicyDecision, actionId: Option<string>, granted: bool, phase: Phase)

  datatype CallStep =
    | DoSubmit(now: nat)
    | DoClaim(now: nat)
    | OperationReturns(result: PyValue)
    | OperationRaises(name: string)
    | DoComplete(now: nat)
    | DoRecord(now: nat)
    | DoCrash

  /** The transaction a step of a call performs, if any. */
  function StoreOp(call: Call, step: CallStep): Option<Runs.Op> {
    var digest := RequestDigest(call.request);
    if step.DoSubmit? && call.phase.Ready? then Some(Runs.Submit(call.request, call.policy, step.now))
    else if call.actionId.None? then None
    else if step.DoClaim? && call.phase.Submitted? then Some(Runs.Claim(call.actionId.value, digest, step.now))
    else if step.DoComplete? && call.phase.Finishing? && call.phase.result.Encodable? then
      Some(Runs.Complete(call.actionId.value, digest, Loaded(call.phase.result.json), step.now))
    else if step.DoRecord? && call.phase.Recording? then
      Some(Runs.MarkUnknown(call.actionId.value, digest, call.phase.name, step.now))
    else None
  }

  /** What a step leaves of the call, given the tables it acted on. */
  function Advanced(t: Tables, lease: nat, call: Call, step: CallStep): Call {
    var digest := RequestDigest(call.request);
    match step
    case DoSubmit(now) =>
      if !call.phase.Ready? then call
      else
        var reply := T.Submit(t, call.request, call.policy, now).reply;
        if reply.Raised? then call.(phase := Failed(Refused(reply.error)))
        else call.(actionId := Some(reply.value.actionId), phase := Submitted)
    case DoClaim(now) =>
      if !call.phase.Submitted? || call.actionId.None? then call
      else
        var reply := T.Claim(t, lease, call.actionId.value, digest, now).reply;
        if reply.Raised? then call.(phase := Failed(Refused(reply.error)))
        else if reply.value.Replay? then call.(phase := Done(Loaded(reply.value.result), true))
        else call.(granted := true, phase := Running)
    case OperationReturns(result) =>
      if call.phase.Running? then call.(phase := Finishing(result)) else call
    case OperationRaises(name) =>
      if call.phase.Running? then call.(phase := Recording(name, OperationFailed(name))) else call
    case DoComplete(now) =>
      if !call.phase.Finishing? || call.actionId.None? then call
      else if call.phase.result.Opaque? then call.(phase := Recording("TypeError", Uncertain))
      else
        var reply := T.Complete(t, call.actionId.value, digest, Loaded(call.phase.result.json), now).reply;
        if reply.Raised? then call.(phase := Recording("RuntimeError", Uncertain))
        else call.(phase := Done(call.phase.result, false))
    case DoRecord(now) =>
      if call.phase.Recording? then call.(phase := Failed(call.phase.failure)) else call
    case DoCrash =>
      if call.phase.Done? || call.phase.Failed? then call else call.(phase := Failed(Crashed))
  }

  function Performed(t: Tables, lease: nat, op: Option<Runs.Op>): Tables {
    if op.Some? then Runs.Apply(t, lease, op.value) else t
  }

  datatype System = System(tables: Tables, calls: seq<Call>)

  datatype Event =
    | Begin(request: Request, policy: PolicyDecision)
    | Step(call: nat, step: CallStep)
    | Operate(op: Runs.Op)

  function OpOf(s: System, event: Event): Option<Runs.Op> {
    match event
    case Begin(_, _) => None
    case Step(i, step) => if i < |s.calls| then StoreOp(s.calls[i], step) else None
    case Operate(op) => Some(op)
  }

  function Next(s: System, lease: nat, event: Event): System {
    var tables := Performed(s.tables, lease, OpOf(s, event));
    match event
    case Begin(request, policy) => System(tables, s.calls + [Call(request, policy, None, false, Ready)])
    case Step(i, step) =>
      System(tables, if i < |s.calls| then s.calls[i := Advanced(s.tables, lease, s.calls[i], step)] else s.calls)
    case Operate(op) => System(tables, s.calls)
  }

  function Execution(lease: nat, events: seq<Event>): System {
    if events == [] then System(EMPTY_TABLES, [])
    else Next(Execution(lease, events[..|events| - 1]), lease, events[|events| - 1])
  }

  /** The transactions of an execution, in order. */
  function StoreOps(lease: nat, events: seq<Event>): seq<Runs.Op> {
    if events == [] then []
    else
      var earlier := events[..|events| - 1];
      var op := OpOf(Execution(lease, earlier), events[|events| - 1]);
      StoreOps(lease, earlier) + if op.Some? then [op.value] else []
  }

  /** Seen from the store, an execution is a run: all that holds of runs holds here. */
  lemma {:induction false} ExecutionIsRun(lease: nat, events: seq<Event>)
    ensures Execution(lease, events).tables == Runs.Run(lease, StoreOps(lease, events))
  {
    if events != [] {
      var earlier := events[..|events| - 1];
      ExecutionIsRun(lease, earlier);
      var op := OpOf(Execution(lease, earlier), events[|events| - 1]);
      if op.Some? {
        assert StoreOps(lease, events)[..|StoreOps(lease, events)| - 1] == StoreOps(lease, earlier);
      } else {
        assert StoreOps(lease, events) == StoreOps(lease, earlier);
      }
    }
  }

  // ---------- the invariant of an execution ----------

  predicate SoundCall(t: Tables, call: Call) {
    && (call.actionId.Some? ==> call.actionId.value in t.actions && t.actions[call.actionId.value].digest == RequestDigest(call.request))
    && (call.phase.Done? ==>
          && call.actionId.Some? && call.phase.value.Encodable?
          && t.actions[call.actionId.value].status == Succeeded
          && t.actions[call.actionId.value].result == Some(call.phase.value.json))
    && (call.phase.Ready? || call.phase.Submitted? ==> !call.granted)
    && (call.granted ==> call.actionId.Some?)
  }

  /** A call that returned its own operation's result. */
  predicate Original(call: Call) {
    call.phase.Done? && !call.phase.replayed
  }

  predicate DistinctOriginals(calls: seq<Call>) {
    forall i, j | 0 <= i < j < |calls| && Original(calls[i]) && Original(calls[j]) :: calls[i].actionId != calls[j].actionId
  }

  function Grants(calls: seq<Call>, id: string): nat {
    if calls == [] then 0
    else Grants(calls[..|calls| - 1], id) + if calls[|calls| - 1].granted && calls[|calls| - 1].actionId == Some(id) then 1 else 0
  }

  function Starts(t: Tables, id: string): nat {
    CountOf(Own(t.receipts, id), ExecutionStarted)
  }

  ghost predicate SoundSystem(s: System) {
    && Inv(s.tables)
    && (forall call <- s.calls :: SoundCall(s.tables, call))
    && DistinctOriginals(s.calls)
    && (forall id :: Grants(s.calls, id) <= Starts(s.tables, id))
  }

  lemma PerformedKeeps(t: Tables, lease: nat, op: Option<Runs.Op>)
    requires Inv(t)
    ensures Inv(Performed(t, lease, op)) && Grows(t, Performed(t, lease, op))
  {
    GrowsReflexive(t);
    hide Inv, Grows, Runs.Apply;
    if op.Some? {
      ApplyKeeps(t, lease, op.value);
    }
  }

  lemma SoundCallGrows(a: Tables, b: Tables, call: Call)
    requires Grows(a, b) && SoundCall(a, call)
    ensures SoundCall(b, call)
  {
  }

  lemma {:induction false} OwnGrows(a: seq<Receipt>, b: seq<Receipt>, id: string)
    requires a <= b
    ensures CountOf(Own(a, id), ExecutionStarted) <= CountOf(Own(b, id), ExecutionStarted)
  {
    if a == b {
    } else {
      var shorter := b[..|b| - 1];
      assert a <= shorter;
      OwnGrows(a, shorter, id);
      CountAppended(shorter, b[|b| - 1], id);
      assert b == shorter + [b[|b| - 1]];
    }
  }

  lemma CountAppended(receipts: seq<Receipt>, r: Receipt, id: string)
    ensures CountOf(Own(receipts + [r], id), ExecutionStarted)
         == CountOf(Own(receipts, id), ExecutionStarted) + if r.actionId == id && r.event == ExecutionStarted then 1 else 0
  {
    OwnAppended(receipts, r, id);
    assert (Own(receipts, id) + [r])[..|Own(receipts, id)|] == Own(receipts, id);
  }

  lemma {:induction false} GrantsUpdated(calls: seq<Call>, i: nat, call: Call, id: string)
    requires i < |calls|
    ensures Grants(calls[i := call], id) == Grants(calls, id)
              - (if calls[i].granted && calls[i].actionId == Some(id) then 1 else 0)
              + (if call.granted && call.actionId == Some(id) then 1 else 0)
  {
    var n := |calls| - 1;
    if i < n {
      assert calls[i := call][..n] == calls[..n][i := call];
      GrantsUpdated(calls[..n], i, call, id);
    } else {
      assert calls[i := call][..n] == calls[..n];
    }
  }

  // ---------- the steps of a call ----------

  /** A submission returns a row of the request's own digest. */
  lemma SubmitBinds(t: Tables, request: Request, policy: PolicyDecision, now: nat)
    requires Inv(t)
    ensures var tx := T.Submit(t, request, policy, now);
            tx.reply.Returned? ==>
              tx.reply.value.actionId in tx.tables.actions
              && tx.tables.actions[tx.reply.value.actionId].digest == RequestDigest(request)
  {
    hide Inv, Own, Fold, T.RefreshState;
    var found := T.FindByKey(t, RequestKey(request));
    if found.Some? {
      RefreshKeeps(t, found.value, now);
      RowFacts(T.RefreshState(t, found.value, now), found.value);
    }
  }

  /** A replay returns the stored result of a succeeded row and leaves it as it is. */
  lemma ReplayReturnsResult(t: Tables, lease: nat, id: string, digest: Digest, now: nat)
    requires Inv(t)
    ensures var tx := T.Claim(t, lease, id, digest, now);
            tx.reply.Returned? && tx.reply.value.Replay? ==>
              id in tx.tables.actions && tx.tables.actions[id].status == Succeeded
              && tx.tables.actions[id].result == Some(tx.reply.value.result)
  {
    hide Inv, Own, Fold, T.RefreshState, T.ClaimApproved;
    if id in t.actions {
      RefreshKeeps(t, id, now);
      RowFacts(T.RefreshState(t, id, now), id);
      ClaimApprovedGrants(T.RefreshState(t, id, now), lease, id, now);
    }
  }

  lemma ClaimApprovedGrants(t: Tables, lease: nat, id: string, now: nat)
    requires id in t.actions
    ensures var reply := T.ClaimApproved(t, lease, id, now).reply;
            reply.Returned? ==> reply.value.Execute?
  {
    hide T.MatchingPause, T.MatchingLimits, T.Plan, T.BookAll;
  }

  /** A granted claim adds one start to the action's log. */
  lemma GrantIsStart(t: Tables, lease: nat, id: string, digest: Digest, now: nat)
    requires Inv(t)
    ensures var tx := T.Claim(t, lease, id, digest, now);
            tx.reply.Returned? && tx.reply.value.Execute? ==>
              && Starts(t, id) + 1 <= Starts(tx.tables, id)
  {
    hide Inv, Own, T.RefreshState, T.MatchingPause, T.MatchingLimits, T.Plan, T.BookAll, CountOf;
    var tx := T.Claim(t, lease, id, digest, now);
    if tx.reply.Returned? && tx.reply.value.Execute? {
      var t1 := T.RefreshState(t, id, now);
      RefreshKeeps(t, id, now);
      OwnGrows(t.receipts, t1.receipts, id);
      var r := tx.tables.receipts[|t1.receipts|];
      assert tx.tables.receipts == t1.receipts + [r];
      CountAppended(t1.receipts, r, id);
    }
  }

  /** An accepted completion found the row executing and left it succeeded with the result. */
  lemma CompletionStores(t: Tables, id: string, digest: Digest, result: Json, now: nat)
    ensures var tx := T.Complete(t, id, digest, Loaded(result), now);
            tx.reply.Returned? ==>
              && id in t.actions && t.actions[id].status == Executing
              && id in tx.tables.actions && tx.tables.actions[id].status == Succeeded && tx.tables.actions[id].result == Some(result)
  {
  }

  /** A step keeps its call sound, grants only with a start, and is original only by ending an execution. */
  predicate StepSound(t: Tables, t1: Tables, call: Call, call1: Call) {
    && SoundCall(t1, call1)
    && (call.granted ==> call1.granted && call1.actionId == call.actionId)
    && (call1.granted && !call.granted ==> call1.actionId.Some? && Starts(t, call1.actionId.value) + 1 <= Starts(t1, call1.actionId.value))
    && (Original(call) ==> call1 == call)
    && (Original(call1) && !Original(call) ==>
          call1.actionId.Some? && call1.actionId.value in t.actions && t.actions[call1.actionId.value].status == Executing)
  }

  lemma SubmitStepSound(t: Tables, lease: nat, call: Call, now: nat)
    requires Inv(t) && SoundCall(t, call) && call.phase.Ready?
    ensures StepSound(t, Performed(t, lease, StoreOp(call, DoSubmit(now))), call, Advanced(t, lease, call, DoSubmit(now)))
  {
    hide Inv, Starts, T.Submit, Grows;
    SubmitBinds(t, call.request, call.policy, now);
    PerformedKeeps(t, lease, StoreOp(call, DoSubmit(now)));
    SoundCallGrows(t, Performed(t, lease, StoreOp(call, DoSubmit(now))), call);
  }

  lemma ClaimStepSound(t: Tables, lease: nat, call: Call, now: nat)
    requires Inv(t) && SoundCall(t, call) && call.phase.Submitted? && call.actionId.Some?
    ensures StepSound(t, Performed(t, lease, StoreOp(call, DoClaim(now))), call, Advanced(t, lease, call, DoClaim(now)))
  {
    hide Inv, Starts, T.Claim, Grows;
    ReplayReturnsResult(t, lease, call.actionId.value, RequestDigest(call.request), now);
    GrantIsStart(t, lease, call.actionId.value, RequestDigest(call.request), now);
    PerformedKeeps(t, lease, StoreOp(call, DoClaim(now)));
    SoundCallGrows(t, Performed(t, lease, StoreOp(call, DoClaim(now))), call);
  }

  lemma CompleteStepSound(t: Tables, lease: nat, call: Call, now: nat)
    requires Inv(t) && SoundCall(t, call) && call.phase.Finishing? && call.phase.result.Encodable? && call.actionId.Some?
    ensures StepSound(t, Performed(t, lease, StoreOp(call, DoComplete(now))), call, Advanced(t, lease, call, DoComplete(now)))
  {
    hide Inv, Starts, T.Complete, Grows;
    CompletionStores(t, call.actionId.value, RequestDigest(call.request), call.phase.result.json, now);
    PerformedKeeps(t, lease, StoreOp(call, DoComplete(now)));
    SoundCallGrows(t, Performed(t, lease, StoreOp(call, DoComplete(now))), call);
  }

  /** Steps that touch no store, or only record an unknown outcome. */
  lemma OtherStepSound(t: Tables, lease: nat, call: Call, step: CallStep)
    requires Inv(t) && SoundCall(t, call)
    requires step.OperationReturns? || step.OperationRaises? || step.DoRecord? || step.DoCrash?
          || (step.DoSubmit? && !call.phase.Ready?) || (step.DoClaim? && (!call.phase.Submitted? || call.actionId.None?))
          || (step.DoComplete? && (!call.phase.Finishing? || call.phase.result.Opaque? || call.actionId.None?))
    ensures StepSound(t, Performed(t, lease, StoreOp(call, step)), call, Advanced(t, lease, call, step))
  {
    hide Inv, Starts, T.MarkUnknown, T.Submit, T.Claim, T.Complete, Runs.Apply, Grows;
    PerformedKeeps(t, lease, StoreOp(call, step));
    SoundCallGrows(t, Performed(t, lease, StoreOp(call, step)), call);
  }

  lemma AdvancedIsSound(t: Tables, lease: nat, call: Call, step: CallStep)
    requires Inv(t) && SoundCall(t, call)
    ensures StepSound(t, Performed(t, lease, StoreOp(call, step)), call, Advanced(t, lease, call, step))
  {
    hide Inv, StepSound, Performed, StoreOp, Advanced;
    if step.DoSubmit? && call.phase.Ready? {
      SubmitStepSound(t, lease, call, step.now);
    } else if step.DoClaim? && call.phase.Submitted? && call.actionId.Some? {
      ClaimStepSound(t, lease, call, step.now);
    } else if step.DoComplete? && call.phase.Finishing? && call.phase.result.Encodable? && call.actionId.Some? {
      CompleteStepSound(t, lease, call, step.now);
    } else {
      OtherStepSound(t, lease, call, step);
    }
  }

  // ---------- the steps of an execution ----------

  lemma CallsGrow(a: Tables, b: Tables, calls: seq<Call>)
    requires Grows(a, b) && forall call <- calls :: SoundCall(a, call)
    ensures forall call <- calls :: SoundCall(b, call)
    ensures forall id :: Starts(a, id) <= Starts(b, id)
  {
    hide Grows, SoundCall;
    forall call | call in calls ensures SoundCall(b, call) {
      SoundCallGrows(a, b, call);
    }
    LogsGrow(a, b);
    forall id ensures Starts(a, id) <= Starts(b, id) {
      OwnGrows(a.receipts, b.receipts, id);
    }
  }

  lemma LogsGrow(a: Tables, b: Tables)
    requires Grows(a, b)
    ensures a.receipts <= b.receipts
  {
  }

  lemma StepKeepsOriginals(t: Tables, t1: Tables, calls: seq<Call>, i: nat, call1: Call)
    requires i < |calls| && DistinctOriginals(calls) && (forall call <- calls :: SoundCall(t, call)) && StepSound(t, t1, calls[i], call1)
    ensures DistinctOriginals(calls[i := call1])
  {
    hide Starts;
    if Original(call1) && !Original(calls[i]) {
      forall j | 0 <= j < |calls| && j != i && Original(calls[j]) ensures calls[j].actionId != call1.actionId {
        assert SoundCall(t, calls[j]);
      }
    }
  }

  lemma StepKeepsGrants(t: Tables, t1: Tables, calls: seq<Call>, i: nat, call1: Call)
    requires i < |calls| && StepSound(t, t1, calls[i], call1)
    requires forall id :: Grants(calls, id) <= Starts(t, id) <= Starts(t1, id)
    ensures forall id :: Grants(calls[i := call1], id) <= Starts(t1, id)
  {
    hide Starts, Grants, SoundCall;
    forall id ensures Grants(calls[i := call1], id) <= Starts(t1, id) {
      GrantsUpdated(calls, i, call1, id);
      assert Grants(calls, id) <= Starts(t, id) <= Starts(t1, id);
    }
  }

  lemma NextKeeps(s: System, lease: nat, event: Event)
    requires SoundSystem(s)
    ensures SoundSystem(Next(s, lease, event)) && Grows(s.tables, Next(s, lease, event).tables)
  {
    hide Inv, Grows, Starts, Grants, SoundCall, DistinctOriginals, StepSound, Performed, Advanced, StoreOp;
    var s1 := Next(s, lease, event);
    PerformedKeeps(s.tables, lease, OpOf(s, event));
    CallsGrow(s.tables, s1.tables, s.calls);
    match event
    case Begin(request, policy) => BeginKeeps(s1.tables, s.calls, request, policy);
    case Operate(_) =>
    case Step(i, step) =>
      if i < |s.calls| {
        AdvancedIsSound(s.tables, lease, s.calls[i], step);
        StepSoundCall(s.tables, s1.tables, s.calls[i], s1.calls[i]);
        StepKeepsOriginals(s.tables, s1.tables, s.calls, i, s1.calls[i]);
        StepKeepsGrants(s.tables, s1.tables, s.calls, i, s1.calls[i]);
      }
  }

  lemma StepSoundCall(t: Tables, t1: Tables, call: Call, call1: Call)
    requires StepSound(t, t1, call, call1)
    ensures SoundCall(t1, call1)
  {
  }

  lemma BeginKeeps(t: Tables, calls: seq<Call>, request: Request, policy: PolicyDecision)
    requires DistinctOriginals(calls) && (forall id :: Grants(calls, id) <= Starts(t, id))
    ensures var call := Call(request, policy, None, false, Ready);
            SoundCall(t, call) && DistinctOriginals(calls + [call]) && forall id :: Grants(calls + [call], id) <= Starts(t, id)
  {
    var call := Call(request, policy, None, false, Ready);
    assert (calls + [call])[..|calls|] == calls;
    hide Starts;
    forall id ensures Grants(calls + [call], id) <= Starts(t, id) {
      assert Grants(calls + [call], id) == Grants(calls, id);
    }
  }

  lemma {:induction false} ExecutionKeeps(lease: nat, events: seq<Event>)
    ensures SoundSystem(Execution(lease, events))
  {
    hide SoundSystem, Next;
    if events == [] {
      EmptySystem();
    } else {
      ExecutionKeeps(lease, events[..|events| - 1]);
      NextKeeps(Execution(lease, events[..|events| - 1]), lease, events[|events| - 1]);
    }
  }

  lemma EmptySystem()
    ensures SoundSystem(System(EMPTY_TABLES, []))
  {
    EmptyInv();
  }

  // ---------- what calls can rely on ----------

  /**
   * All calls that return for one key return one value, up to the JSON normalisation of the first result,
   * and at most one of them ran the operation whose result that is.
   */
  lemma Agreement(lease: nat, events: seq<Event>, i: nat, j: nat)
    requires var calls := Execution(lease, events).calls;
             && i < |calls| && j < |calls| && calls[i].phase.Done? && calls[j].phase.Done?
             && RequestKey(calls[i].request) == RequestKey(calls[j].request)
    ensures var calls := Execution(lease, events).calls;
            && calls[i].phase.value.Encodable? && calls[j].phase.value.Encodable?
            && calls[i].phase.value.json == calls[j].phase.value.json
            && (!calls[i].phase.replayed && !calls[j].phase.replayed ==> i == j)
  {
    ExecutionKeeps(lease, events);
    var s := Execution(lease, events);
    hide Inv, Starts, Execution;
    assert SoundCall(s.tables, s.calls[i]) && SoundCall(s.tables, s.calls[j]);
    SameKeySameRow(s.tables, s.calls[i], s.calls[j]);
  }

  lemma SameKeySameRow(t: Tables, a: Call, b: Call)
    requires Inv(t) && SoundCall(t, a) && SoundCall(t, b) && a.actionId.Some? && b.actionId.Some?
    requires RequestKey(a.request) == RequestKey(b.request)
    ensures a.actionId == b.actionId
  {
    hide Inv, Own, Fold;
    RowFacts(t, a.actionId.value);
    RowFacts(t, b.actionId.value);
  }

  lemma {:induction false} ExecutionGrows(lease: nat, events: seq<Event>, n: nat)
    requires n <= |events|
    ensures Grows(Execution(lease, events[..n]).tables, Execution(lease, events).tables)
  {
    hide SoundSystem, Grows, Next;
    if n == |events| {
      assert events[..n] == events;
      GrowsReflexive(Execution(lease, events).tables);
    } else {
      var shorter := events[..|events| - 1];
      assert shorter[..n] == events[..n];
      ExecutionGrows(lease, shorter, n);
      ExecutionKeeps(lease, shorter);
      NextKeeps(Execution(lease, shorter), lease, events[|events| - 1]);
      GrowsTransitive(Execution(lease, events[..n]).tables, Execution(lease, shorter).tables, Execution(lease, events).tables);
    }
  }

  /** A returned result stays the stored result of its action, whatever happens afterwards. */
  lemma ResultIsForever(lease: nat, events: seq<Event>, n: nat, i: nat)
    requires n <= |events|
    requires var calls := Execution(lease, events[..n]).calls; i < |calls| && calls[i].phase.Done?
    ensures var call, t := Execution(lease, events[..n]).calls[i], Execution(lease, events).tables;
            && call.actionId.Some? && call.phase.value.Encodable? && call.actionId.value in t.actions
            && t.actions[call.actionId.value].status == Succeeded
            && t.actions[call.actionId.value].result == Some(call.phase.value.json)
  {
    ExecutionKeeps(lease, events[..n]);
    ExecutionGrows(lease, events, n);
    hide Inv, Execution, Starts;
    assert SoundCall(Execution(lease, events[..n]).tables, Execution(lease, events[..n]).calls[i]);
  }

  /** The operation of an action is let run at most once for every run proven not to have happened, plus one. */
  lemma OperationsAreBounded(lease: nat, events: seq<Event>, id: string)
    ensures var s := Execution(lease, events);
            Grants(s.calls, id) <= 1 + CountOf(Own(s.tables.receipts, id), ReconciledNotCommitted)
  {
    ExecutionKeeps(lease, events);
    var s := Execution(lease, events);
    hide Execution, Grants, SoundCall, DistinctOriginals, Fold, Own, CountOf;
    if id in s.tables.actions {
      BoundedStarts(s.tables, id);
    } else {
      NoRowNoStarts(s.tables, id);
    }
    assert Grants(s.calls, id) <= Starts(s.tables, id);
  }

  lemma BoundedStarts(t: Tables, id: string)
    requires Inv(t) && id in t.actions
    ensures Starts(t, id) <= 1 + CountOf(Own(t.receipts, id), ReconciledNotCommitted)
  {
    hide Inv, Fold, Own, CountOf;
    RowFacts(t, id);
    StartsAreCovered(t.actions[id].approvalTtl, Own(t.receipts, id));
  }

  lemma NoRowNoStarts(t: Tables, id: string)
    requires Inv(t) && id !in t.actions
    ensures Starts(t, id) == 0
  {
    ReceiptsHaveRows(t);
    hide Inv;
    OwnIsEmpty(t.receipts, id);
  }

  /** Only the exact request that was submitted runs: a granted call's request is the one its action was created for. */
  lemma GrantedCallsAreBound(lease: nat, events: seq<Event>, i: nat)
    requires i < |Execution(lease, events).calls| && Execution(lease, events).calls[i].granted
    ensures var s := Execution(lease, events);
            var call := s.calls[i];
            && call.actionId.Some? && call.actionId.value in s.tables.actions
            && (var row := s.tables.actions[call.actionId.value];
                && row.namespace == call.request.namespace && row.tool == call.request.tool
                && row.arguments == call.request.arguments && row.key == call.request.key
                && row.policyVersion == call.request.policyVersion && row.organization == call.request.organization
                && row.requester == call.request.requester)
  {
    ExecutionKeeps(lease, events);
    var s := Execution(lease, events);
    hide Inv, Execution, Starts, Own, Fold;
    assert SoundCall(s.tables, s.calls[i]);
    RowFacts(s.tables, s.calls[i].actionId.value);
  }
}
