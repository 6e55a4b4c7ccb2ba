/** Delegation between the actions of one run: which lists are accepted, and which of their actions may execute. */
module Delegation {
  import opened Basics
  import opened AgentActions

  datatype ContractError = NoActions | DuplicateIds | SelfDelegation | MissingParent | Cycle

  predicate Distinct(actions: seq<ActionRequest>) {
    forall i, j | 0 <= i < j < |actions| :: actions[i].id != actions[j].id
  }

  /** `{action.action_id: action for action in actions}` */
  function ById(actions: seq<ActionRequest>): (byId: map<string, ActionRequest>)
    ensures forall id | id in byId :: byId[id].id == id && byId[id] in actions
    ensures forall a <- actions :: a.id in byId
    ensures Distinct(actions) ==> forall a <- actions :: byId[a.id] == a
  {
    if actions == [] then map[]
    else
      var last := actions[|actions| - 1];
      assert forall a <- actions :: a == last || a in actions[..|actions| - 1];
      ById(actions[..|actions| - 1])[last.id := last]
  }

  lemma ByIdTakesOneMore(actions: seq<ActionRequest>, k: nat)
    requires k < |actions|
    ensures ById(actions[..k + 1]) == ById(actions[..k])[actions[k].id := actions[k]]
  {
    var more := actions[..k + 1];
    assert more[..|more| - 1] == actions[..k] && more[|more| - 1] == actions[k];
  }

  predicate ParentsExist(actions: seq<ActionRequest>) {
    forall a <- actions | a.parent.Some? :: a.parent.value in ById(actions)
  }

  /** The ancestor `n` steps above an action, if the chain is that long. */
  function Ancestor(byId: map<string, ActionRequest>, id: string, n: nat): Option<string> {
    if n == 0 then Some(id)
    else
      var below := Ancestor(byId, id, n - 1);
      if below.None? || below.value !in byId then None else byId[below.value].parent
  }

  /** Some number of steps up leads back to the start. */
  ghost predicate ComesBack(byId: map<string, ActionRequest>, id: string) {
    exists n: nat | n >= 1 :: Ancestor(byId, id, n) == Some(id)
  }

  /** The chain has a last ancestor. */
  ghost predicate Ends(byId: map<string, ActionRequest>, id: string) {
    exists n: nat :: Ancestor(byId, id, n).None?
  }

  /** `other` is among the first `n` actions of the chain. */
  ghost predicate Passed(byId: map<string, ActionRequest>, id: string, n: nat, other: string) {
    exists i: nat | i < n :: Ancestor(byId, id, i) == Some(other)
  }

  /** No action is its own ancestor. */
  ghost predicate Acyclic(actions: seq<ActionRequest>) {
    forall a <- actions :: !ComesBack(ById(actions), a.id)
  }

  ghost predicate Forest(actions: seq<ActionRequest>) {
    actions != [] && Distinct(actions) && ParentsExist(actions) && Acyclic(actions)
  }

  // ---------- chains of ancestors ----------

  lemma {:induction false} ChainsCompose(byId: map<string, ActionRequest>, id: string, n: nat, m: nat)
    requires Ancestor(byId, id, n).Some?
    ensures Ancestor(byId, id, n + m) == Ancestor(byId, Ancestor(byId, id, n).value, m)
  {
    if m > 0 {
      ChainsCompose(byId, id, n, m - 1);
    }
  }

  lemma {:induction false} ChainsStayEnded(byId: map<string, ActionRequest>, id: string, n: nat, m: nat)
    requires n <= m && Ancestor(byId, id, n).None?
    ensures Ancestor(byId, id, m).None?
  {
    if n < m {
      ChainsStayEnded(byId, id, n, m - 1);
    }
  }

  /** A chain that ends never meets its start again. */
  lemma EndedChainsDoNotReturn(byId: map<string, ActionRequest>, id: string)
    requires Ends(byId, id)
    ensures !ComesBack(byId, id)
  {
    if ComesBack(byId, id) {
      var end: nat :| Ancestor(byId, id, end).None?;
      var n: nat :| n >= 1 && Ancestor(byId, id, n) == Some(id);
      ReturningChainsGoOn(byId, id, end, n);
    }
  }

  lemma {:induction false} ReturningChainsGoOn(byId: map<string, ActionRequest>, id: string, m: nat, n: nat)
    requires Ancestor(byId, id, n) == Some(id) && n >= 1
    ensures Ancestor(byId, id, m).Some?
    decreases m
  {
    if Ancestor(byId, id, m).None? {
      if m <= n {
        ChainsStayEnded(byId, id, m, n);
      } else {
        ChainsCompose(byId, id, n, m - n);
        ReturningChainsGoOn(byId, id, m - n, n);
      }
    }
  }

  /** A chain that meets one action twice passes a cycle there. */
  lemma MeetingTwiceIsACycle(actions: seq<ActionRequest>, id: string, n: nat, met: string)
    requires Passed(ById(actions), id, n, met) && Ancestor(ById(actions), id, n) == Some(met) && met in ById(actions)
    ensures !Acyclic(actions)
  {
    hide ById;
    var byId := ById(actions);
    var i: nat :| i < n && Ancestor(byId, id, i) == Some(met);
    ChainsCompose(byId, id, i, n - i);
    hide Ancestor;
    assert ComesBack(byId, met);
    assert byId[met] in actions;
  }

  // ---------- accepting a list ----------

  /** Walks up from `action` until the chain ends, comes back to an action passed before, or names a missing one. */
  method Walk(actions: seq<ActionRequest>, byId: map<string, ActionRequest>, action: ActionRequest)
    returns (error: Option<ContractError>)
    requires byId == ById(actions) && Distinct(actions) && action in actions && action.parent.Some? && action.parent.value in byId
    ensures match error
            case None => Ends(byId, action.id)
            case Some(Cycle) => !Acyclic(actions)
            case Some(MissingParent) => !ParentsExist(actions)
            case _ => false
  {
    hide ById, Acyclic;
    var visited := {action.id};
    var current := byId[action.parent.value];
    ghost var n: nat := 1;
    assert Ancestor(byId, action.id, 0) == Some(action.id) && Ancestor(byId, action.id, n) == Some(current.id);
    assert Passed(byId, action.id, n, action.id);
    while current.parent.Some?
      invariant n >= 1 && Ancestor(byId, action.id, n) == Some(current.id)
      invariant current in actions && byId[current.id] == current
      invariant visited <= byId.Keys
      invariant forall id | id in visited :: Passed(byId, action.id, n, id)
      decreases |byId.Keys - visited|
    {
      if current.id in visited {
        MeetingTwiceIsACycle(actions, action.id, n, current.id);
        return Some(Cycle);
      }
      assert byId.Keys - (visited + {current.id}) == byId.Keys - visited - {current.id};
      visited := visited + {current.id};
      if current.parent.value !in byId {
        return Some(MissingParent);
      }
      current := byId[current.parent.value];
      n := n + 1;
    }
    assert Ancestor(byId, action.id, n + 1).None?;
    return None;
  }

  lemma OneStepUp(byId: map<string, ActionRequest>, id: string)
    requires id in byId
    ensures byId[id].parent == Some(id) ==> ComesBack(byId, id)
    ensures byId[id].parent.None? ==> Ends(byId, id)
  {
    assert Ancestor(byId, id, 0) == Some(id);
    assert Ancestor(byId, id, 1) == byId[id].parent;
  }

  /** The set of ids met so far, and whether one was met twice. */
  method FindDuplicates(actions: seq<ActionRequest>) returns (duplicates: set<string>)
    ensures duplicates == {} <==> Distinct(actions)
    ensures forall id | id in duplicates :: exists i, j | 0 <= i < j < |actions| :: actions[i].id == id == actions[j].id
  {
    var seen: set<string> := {};
    duplicates := {};
    for k := 0 to |actions|
      invariant forall id :: id in seen <==> exists i | 0 <= i < k :: actions[i].id == id
      invariant duplicates == {} <==> Distinct(actions[..k])
      invariant forall id | id in duplicates :: exists i, j | 0 <= i < j < k :: actions[i].id == id == actions[j].id
    {
      if actions[k].id in seen {
        var i :| 0 <= i < k && actions[i].id == actions[k].id;
        assert actions[..k + 1][i].id == actions[..k + 1][k].id;
        duplicates := duplicates + {actions[k].id};
      } else {
        assert forall i | 0 <= i < k :: actions[..k + 1][i] == actions[..k][i] && actions[i].id in seen;
      }
      seen := seen + {actions[k].id};
    }
    assert actions[..|actions|] == actions;
  }

  /** Accepts exactly the non-empty forests with unique ids, and says truthfully what is wrong with any other list. */
  method ValidateActions(actions: seq<ActionRequest>) returns (r: Outcome<seq<ActionRequest>, ContractError>)
    ensures r.Returned? <==> Forest(actions)
    ensures r.Returned? ==> r.value == actions
    ensures r.Raised? ==>
              match r.error
              case NoActions => actions == []
              case DuplicateIds => !Distinct(actions)
              case SelfDelegation => exists a <- actions :: a.parent == Some(a.id)
              case MissingParent => !ParentsExist(actions)
              case Cycle => !Acyclic(actions)
  {
    hide ById, Ancestor, Ends, ComesBack;
    if actions == [] {
      return Raised(NoActions);
    }
    var duplicates := FindDuplicates(actions);
    if duplicates != {} {
      return Raised(DuplicateIds);
    }
    var byId := ById(actions);
    for k := 0 to |actions|
      invariant forall i | 0 <= i < k && actions[i].parent.Some? :: actions[i].parent.value in byId
      invariant forall i | 0 <= i < k :: Ends(byId, actions[i].id)
    {
      var action := actions[k];
      if action.parent.Some? {
        if action.parent.value == action.id {
          OneStepUp(byId, action.id);
          return Raised(SelfDelegation);
        }
        if action.parent.value !in byId {
          return Raised(MissingParent);
        }
        var error := Walk(actions, byId, action);
        if error.Some? {
          return Raised(error.value);
        }
      } else {
        OneStepUp(byId, action.id);
      }
    }
    forall a <- actions ensures !ComesBack(byId, a.id) {
      var i :| 0 <= i < |actions| && actions[i] == a;
      EndedChainsDoNotReturn(byId, actions[i].id);
    }
    return Returned(actions);
  }

  // ---------- resolving approvals ----------

  /** What a reviewer said: approved, perhaps with replaced arguments, or rejected. */
  datatype Verdict = Approve(replacement: Option<ActionRequest>) | Reject

  /** Every gated action has been decided. */
  predicate Decided(actions: seq<ActionRequest>, verdicts: map<string, Verdict>) {
    forall a <- actions | a.gated :: a.id in verdicts
  }

  /** The gate of this action, if it has one, was approved. */
  predicate GateOpen(a: ActionRequest, verdicts: map<string, Verdict>) {
    a.gated ==> a.id in verdicts && verdicts[a.id].Approve?
  }

  /** Every ancestor's gate is open. */
  ghost predicate AncestorsOpen(byId: map<string, ActionRequest>, a: ActionRequest, verdicts: map<string, Verdict>) {
    forall n: nat | n >= 1 && Ancestor(byId, a.id, n).Some? && Ancestor(byId, a.id, n).value in byId ::
      GateOpen(byId[Ancestor(byId, a.id, n).value], verdicts)
  }

  function Executed(a: ActionRequest, verdicts: map<string, Verdict>): ActionRequest {
    if a.gated && a.id in verdicts && verdicts[a.id].Approve? && verdicts[a.id].replacement.Some? then verdicts[a.id].replacement.value else a
  }

  /** In their order, the actions whose own gate and every ancestor's gate are open, as the reviewer left them. */
  ghost function Executable(actions: seq<ActionRequest>, byId: map<string, ActionRequest>,
                            verdicts: map<string, Verdict>): seq<ActionRequest> {
    if actions == [] then []
    else
      var last := actions[|actions| - 1];
      Executable(actions[..|actions| - 1], byId, verdicts)
      + if GateOpen(last, verdicts) && AncestorsOpen(byId, last, verdicts) then [Executed(last, verdicts)] else []
  }

  /** Without cycles every step of a chain meets a new action, and there are finitely many. */
  lemma {:induction false} ForestChainsEnd(actions: seq<ActionRequest>, a: ActionRequest, n: nat, met: set<string>)
    returns (end: nat)
    requires Forest(actions) && a in actions
    requires forall id | id in met :: Passed(ById(actions), a.id, n, id)
    requires met <= ById(actions).Keys
    ensures Ancestor(ById(actions), a.id, end).None?
    decreases |ById(actions).Keys - met|
  {
    hide ById, Acyclic;
    var byId := ById(actions);
    var here := Ancestor(byId, a.id, n);
    if here.None? || here.value !in byId {
      end := n + 1;
    } else {
      if here.value in met {
        MeetingTwiceIsACycle(actions, a.id, n, here.value);
      }
      assert byId.Keys - (met + {here.value}) == byId.Keys - met - {here.value};
      end := ForestChainsEnd(actions, a, n + 1, met + {here.value});
    }
  }

  /** Walks the ancestors of an action on an accepted list; the walk ends. */
  method AncestorsAllowed(actions: seq<ActionRequest>, byId: map<string, ActionRequest>, a: ActionRequest,
                          verdicts: map<string, Verdict>)
    returns (allowed: bool)
    requires Forest(actions) && byId == ById(actions) && a in actions && Decided(actions, verdicts)
    ensures allowed <==> AncestorsOpen(byId, a, verdicts)
  {
    hide ById;
    var parent := a.parent;
    ghost var n: nat := 1;
    ghost var end := ForestChainsEnd(actions, a, 0, {});
    assert Ancestor(byId, a.id, 0) == Some(a.id);
    while parent.Some?
      invariant n >= 1 && Ancestor(byId, a.id, n) == parent
      invariant parent.Some? ==> parent.value in byId
      invariant forall i: nat | 1 <= i < n && Ancestor(byId, a.id, i).Some? && Ancestor(byId, a.id, i).value in byId ::
                  GateOpen(byId[Ancestor(byId, a.id, i).value], verdicts)
      decreases end - n
    {
      if end <= n {
        ChainsStayEnded(byId, a.id, end, n);
      }
      var action := byId[parent.value];
      if action.gated && !verdicts[action.id].Approve? {
        return false;
      }
      parent := action.parent;
      n := n + 1;
    }
    forall i: nat | i >= n ensures Ancestor(byId, a.id, i).None? {
      ChainsStayEnded(byId, a.id, n, i);
    }
    return true;
  }

  method ResolveApprovals(actions: seq<ActionRequest>, verdicts: map<string, Verdict>)
    returns (executable: seq<ActionRequest>)
    requires Forest(actions) && Decided(actions, verdicts)
    ensures executable == Executable(actions, ById(actions), verdicts)
  {
    hide ById, AncestorsOpen, Forest;
    var byId := ById(actions);
    if !exists a :: a in actions && a.gated {
      NothingGatedMeansAll(actions, actions, verdicts);
      return actions;
    }
    executable := [];
    for k := 0 to |actions|
      invariant executable == Executable(actions[..k], byId, verdicts)
    {
      assert actions[..k + 1][..k] == actions[..k];
      var allowed := AncestorsAllowed(actions, byId, actions[k], verdicts);
      if allowed {
        if !actions[k].gated {
          executable := executable + [actions[k]];
        } else if verdicts[actions[k].id].Approve? {
          var replacement := verdicts[actions[k].id].replacement;
          executable := executable + [if replacement.Some? then replacement.value else actions[k]];
        }
      }
    }
    assert actions[..|actions|] == actions;
  }

  lemma {:induction false} NothingGatedMeansAll(actions: seq<ActionRequest>, some: seq<ActionRequest>,
                                                verdicts: map<string, Verdict>)
    requires forall a <- actions :: !a.gated
    requires forall a <- some :: a in actions
    ensures Executable(some, ById(actions), verdicts) == some
  {
    hide ById;
    if some != [] {
      NothingGatedMeansAll(actions, some[..|some| - 1], verdicts);
    }
  }

  /** An action executes exactly when its own gate and every gated ancestor's were approved; its identity is its own. */
  lemma {:induction false} ExecutesExactly(actions: seq<ActionRequest>, some: seq<ActionRequest>,
                                           verdicts: map<string, Verdict>, a: ActionRequest)
    requires Distinct(some) && a in some
    requires forall id | id in verdicts && verdicts[id].Approve? && verdicts[id].replacement.Some? :: verdicts[id].replacement.value.id == id
    ensures (exists e <- Executable(some, ById(actions), verdicts) :: e.id == a.id)
       <==> GateOpen(a, verdicts) && AncestorsOpen(ById(actions), a, verdicts)
    ensures Executed(a, verdicts).id == a.id
  {
    hide AncestorsOpen, ById;
    var before, last := some[..|some| - 1], some[|some| - 1];
    ExecutableIsFromList(actions, before, verdicts);
    if a == last {
      assert forall b <- before :: b.id != a.id;
      assert Executed(a, verdicts) in [Executed(a, verdicts)];
    } else {
      assert a in before && last.id != a.id;
      ExecutesExactly(actions, before, verdicts, a);
    }
  }

  /** Each executable action has the id of a listed one. */
  lemma {:induction false} ExecutableIsFromList(actions: seq<ActionRequest>, some: seq<ActionRequest>,
                                                verdicts: map<string, Verdict>)
    requires forall id | id in verdicts && verdicts[id].Approve? && verdicts[id].replacement.Some? :: verdicts[id].replacement.value.id == id
    ensures forall e <- Executable(some, ById(actions), verdicts) :: exists b <- some :: b.id == e.id
  {
    if some == [] {
      assert Executable(some, ById(actions), verdicts) == [];
    } else {
      hide AncestorsOpen, ById, GateOpen;
      var before, last := some[..|some| - 1], some[|some| - 1];
      ExecutableIsFromList(actions, before, verdicts);
      forall e <- Executable(some, ById(actions), verdicts) ensures exists b <- some :: b.id == e.id {
        if e in Executable(before, ById(actions), verdicts) {
          var b :| b in before && b.id == e.id;
          assert b in some;
        } else {
          assert e == Executed(last, verdicts) && last in some;
        }
      }
    }
  }
}
