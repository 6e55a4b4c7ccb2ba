/**
 * What reviewers say decides what a run executes, and what each move of a run does. The laws speak of moves, tasks and
 * the journal.
 */
module ReplayLaws {
  import opened Basics
  import opened AgentActions
  import opened Delegation
  import opened Replays

  // ---------- what reviewers said ----------

  /** The decision is about a listed gate that is still undecided while the run waits; a replacement keeps id and tool. */
  predicate Accepted(lab: Lab, n: nat, id: string, verdict: Verdict) {
    && n in lab.handles && lab.handles[n].phase.Waiting? && id !in lab.handles[n].verdicts
    && (exists a :: a in lab.handles[n].actions && a.id == id && a.gated)
    && (verdict.Approve? && verdict.replacement.Some? ==>
          && verdict.replacement.value.id == id
          && forall a <- lab.handles[n].actions | a.id == id :: a.tool == verdict.replacement.value.tool)
  }

  /** What holds of every handle: an accepted list, verdicts on its gates, and tasks under their own ids. */
  ghost predicate WellKept(h: Handle) {
    && Forest(h.actions)
    && (forall id | id in h.verdicts && h.verdicts[id].Approve? && h.verdicts[id].replacement.Some? ::
          h.verdicts[id].replacement.value.id == id)
    && (forall id | id in h.tasks :: h.tasks[id].id == id)
  }

  ghost predicate AllWellKept(lab: Lab) {
    forall n | n in lab.handles :: WellKept(lab.handles[n])
  }

  /** A decision is recorded exactly when it is accepted, and exactly as it was given. */
  lemma DecisionsAreRecorded(lab: Lab, n: nat, id: string, verdict: Verdict)
    requires AllWellKept(lab) && n in lab.handles
    ensures var after := Next(lab, Decide(n, id, verdict));
            && after.shared == lab.shared
            && after.handles == lab.handles[n := if Accepted(lab, n, id, verdict)
                                                then lab.handles[n].(verdicts := lab.handles[n].verdicts[id := verdict])
                                                else lab.handles[n]]
  {
    ListedOnce(lab.handles[n].actions, id);
    hide ById, Forest;
  }

  /** The handle waits and lists the action as a gated one. */
  predicate Waits(h: Handle, id: string) {
    h.phase.Waiting? && exists a :: a in h.actions && a.id == id && a.gated
  }

  /** The reviewer is told so exactly when the decision is accepted; a gate decided before, and a changed identity, are told apart. */
  lemma DecisionsAreAnswered(lab: Lab, n: nat, id: string, verdict: Verdict)
    requires AllWellKept(lab) && n in lab.handles
    ensures var h := lab.handles[n];
            var reply := match verdict case Approve(replacement) => Approving(h, id, replacement).1 case Reject => Rejecting(h, id).1;
            && (reply == Returned(()) <==> Accepted(lab, n, id, verdict))
            && (reply == Raised(NotPending) <==> !Waits(h, id))
            && (reply == Raised(AlreadyDecided) <==> Waits(h, id) && id in h.verdicts)
            && (reply == Raised(IdentityChanged) <==> Waits(h, id) && id !in h.verdicts && !Accepted(lab, n, id, verdict))
  {
    ListedOnce(lab.handles[n].actions, id);
    hide ById, Forest;
  }

  /** The index of an accepted list finds exactly the listed actions. */
  lemma ListedOnce(actions: seq<ActionRequest>, id: string)
    requires Distinct(actions)
    ensures id in ById(actions) <==> exists a :: a in actions && a.id == id
    ensures id in ById(actions) ==> forall a <- actions | a.id == id :: a == ById(actions)[id]
  {
    hide ById;
  }

  lemma StartKeeps(h: Handle, completed: set<(string, string)>)
    requires WellKept(h)
    ensures WellKept(Starting(h, completed))
  {
    hide Forest, Executable, Acyclic;
  }

  lemma NextKeeps(lab: Lab, move: Move)
    requires AllWellKept(lab)
    ensures AllWellKept(Next(lab, move))
  {
    hide WellKept, Forest, Executable, ById, Lookup, Call;
    if move.Decide? && move.handle in lab.handles {
      DecisionsAreRecorded(lab, move.handle, move.id, move.verdict);
      if Accepted(lab, move.handle, move.id, move.verdict) {
        DecidingKeeps(lab.handles[move.handle], move.id, move.verdict);
      }
      hide Next;
    } else if move.Start? && move.handle in lab.handles {
      StartKeeps(lab.handles[move.handle], lab.shared.completed);
      hide Starting;
    } else if move.Begin? && Forest(move.actions) {
      BegunIsKept(move.run, move.actions);
    } else if move.handle in lab.handles {
      FewerTasksKeep(lab.handles[move.handle], Next(lab, move).handles[move.handle]);
    }
  }

  lemma DecidingKeeps(h: Handle, id: string, verdict: Verdict)
    requires WellKept(h) && (verdict.Approve? && verdict.replacement.Some? ==> verdict.replacement.value.id == id)
    ensures WellKept(h.(verdicts := h.verdicts[id := verdict]))
  {
    hide Forest;
  }

  lemma BegunIsKept(run: string, actions: seq<ActionRequest>)
    requires Forest(actions)
    ensures WellKept(Begun(run, actions))
  {
    hide Forest;
  }

  lemma FewerTasksKeep(h: Handle, later: Handle)
    requires WellKept(h) && later.actions == h.actions && later.verdicts == h.verdicts
    requires forall id | id in later.tasks :: id in h.tasks && later.tasks[id] == h.tasks[id]
    ensures WellKept(later)
  {
    hide Forest;
  }

  lemma {:induction false} ReachedIsKept(faults: map<string, Faults>, moves: seq<Move>)
    ensures AllWellKept(Reached(faults, moves))
  {
    if moves != [] {
      ReachedIsKept(faults, moves[..|moves| - 1]);
      NextKeeps(Reached(faults, moves[..|moves| - 1]), moves[|moves| - 1]);
      hide Next, AllWellKept;
    }
  }

  /** A handle keeps its run, its list and every verdict it has. */
  lemma NextKeepsVerdicts(lab: Lab, move: Move, n: nat)
    requires AllWellKept(lab) && n in lab.handles
    ensures var after := Next(lab, move);
            && n in after.handles && after.handles[n].run == lab.handles[n].run && after.handles[n].actions == lab.handles[n].actions
            && forall id | id in lab.handles[n].verdicts ::
                 id in after.handles[n].verdicts && after.handles[n].verdicts[id] == lab.handles[n].verdicts[id]
  {
    hide WellKept, Forest, Executable, ById, Lookup, Call;
    if move.Decide? && move.handle in lab.handles {
      DecisionsAreRecorded(lab, move.handle, move.id, move.verdict);
      hide Next;
    }
  }

  lemma {:induction false} VerdictsStay(faults: map<string, Faults>, moves: seq<Move>, k: nat, n: nat)
    requires k <= |moves| && n in Reached(faults, moves[..k]).handles
    ensures var earlier, lab := Reached(faults, moves[..k]), Reached(faults, moves);
            && n in lab.handles && lab.handles[n].run == earlier.handles[n].run && lab.handles[n].actions == earlier.handles[n].actions
            && forall id | id in earlier.handles[n].verdicts ::
                 id in lab.handles[n].verdicts && lab.handles[n].verdicts[id] == earlier.handles[n].verdicts[id]
  {
    if k == |moves| {
      assert moves[..k] == moves;
    } else {
      var shorter := moves[..|moves| - 1];
      assert shorter[..k] == moves[..k];
      VerdictsStay(faults, shorter, k, n);
      ReachedIsKept(faults, shorter);
      NextKeepsVerdicts(Reached(faults, shorter), moves[|moves| - 1], n);
      hide Next, AllWellKept;
    }
  }

  /** An accepted decision is the verdict on its gate from then on. */
  lemma AcceptedIsFinal(faults: map<string, Faults>, moves: seq<Move>, k: nat, n: nat, id: string, verdict: Verdict)
    requires k < |moves| && moves[k] == Decide(n, id, verdict) && Accepted(Reached(faults, moves[..k]), n, id, verdict)
    ensures var lab := Reached(faults, moves);
            n in lab.handles && id in lab.handles[n].verdicts && lab.handles[n].verdicts[id] == verdict
  {
    ReachedIsKept(faults, moves[..k]);
    DecisionsAreRecorded(Reached(faults, moves[..k]), n, id, verdict);
    assert moves[..k + 1][..k] == moves[..k];
    VerdictsStay(faults, moves, k + 1, n);
    hide Next, AllWellKept;
  }

  // ---------- what is executed ----------

  /** Where an executable action comes from: a listed one whose gates are open, as its reviewer left it. */
  lemma {:induction false} ExecutableComesFrom(byId: map<string, ActionRequest>, some: seq<ActionRequest>, verdicts: map<string, Verdict>,
                                               e: ActionRequest) returns (a: ActionRequest)
    requires e in Executable(some, byId, verdicts)
    ensures a in some && e == Executed(a, verdicts) && GateOpen(a, verdicts) && AncestorsOpen(byId, a, verdicts)
  {
    var before, last := some[..|some| - 1], some[|some| - 1];
    if e in Executable(before, byId, verdicts) {
      a := ExecutableComesFrom(byId, before, verdicts, e);
    } else {
      a := last;
    }
  }

  /** Every task is a listed action with open gates, as its reviewer left it. */
  lemma TasksComeFrom(faults: map<string, Faults>, moves: seq<Move>, n: nat, id: string) returns (a: ActionRequest)
    requires n in Reached(faults, moves).handles && id in Reached(faults, moves).handles[n].tasks
    ensures var h := Reached(faults, moves).handles[n];
            && a in h.actions && a.id == id && h.tasks[id] == Executed(a, h.verdicts)
            && GateOpen(a, h.verdicts) && AncestorsOpen(ById(h.actions), a, h.verdicts)
  {
    ReachedIsKept(faults, moves);
    ReachedIsPermitted(faults, moves);
    hide Reached, AncestorsOpen, Executable, ById, Forest;
    var h := Reached(faults, moves).handles[n];
    assert WellKept(h) && Permits(h, h.tasks[id]);
    a := ExecutableComesFrom(ById(h.actions), h.actions, h.verdicts, h.tasks[id]);
  }

  /** The action is this one, or delegated to by it through some number of steps. */
  ghost predicate IsOrDescends(actions: seq<ActionRequest>, a: ActionRequest, id: string) {
    exists steps: nat :: Ancestor(ById(actions), a.id, steps) == Some(id)
  }

  /** Running a handle's task for this id would change nothing shared. */
  ghost predicate RunsNothing(lab: Lab, n: nat, id: string) {
    && n in lab.handles && id !in lab.handles[n].tasks
    && forall hook :: Next(lab, Run(n, id, hook)).shared == lab.shared
  }

  /** After an accepted rejection the handle never has a task for the action or for anything it delegated, and commits nothing for them. */
  lemma RejectedNeverRuns(faults: map<string, Faults>, moves: seq<Move>, k: nat, n: nat, id: string, a: ActionRequest)
    requires k < |moves| && moves[k] == Decide(n, id, Reject) && Accepted(Reached(faults, moves[..k]), n, id, Reject)
    requires a in Reached(faults, moves[..k]).handles[n].actions && IsOrDescends(Reached(faults, moves[..k]).handles[n].actions, a, id)
    ensures RunsNothing(Reached(faults, moves), n, a.id)
  {
    var actions := Reached(faults, moves[..k]).handles[n].actions;
    AcceptedIsFinal(faults, moves, k, n, id, Reject);
    VerdictsStay(faults, moves, k, n);
    ReachedIsKept(faults, moves[..k]);
    var lab := Reached(faults, moves);
    var h := lab.handles[n];
    RejectedGateIsShut(actions, h.verdicts, id, a);
    if a.id in h.tasks {
      var b := TasksComeFrom(faults, moves, n, a.id);
      ListedOnce(h.actions, a.id);
    }
    NoTaskNoRun(lab, n, a.id);
  }

  lemma RejectedGateIsShut(actions: seq<ActionRequest>, verdicts: map<string, Verdict>, id: string, a: ActionRequest)
    requires Forest(actions) && a in actions && IsOrDescends(actions, a, id) && id in verdicts && verdicts[id].Reject?
    requires exists b :: b in actions && b.id == id && b.gated
    ensures !(GateOpen(a, verdicts) && AncestorsOpen(ById(actions), a, verdicts))
  {
    ListedOnce(actions, id);
    ListedOnce(actions, a.id);
    hide ById;
    var byId := ById(actions);
    var steps: nat :| Ancestor(byId, a.id, steps) == Some(id);
    assert byId[id].gated && byId[id].id == id;
  }

  lemma NoTaskNoRun(lab: Lab, n: nat, id: string)
    requires n in lab.handles && id !in lab.handles[n].tasks
    ensures RunsNothing(lab, n, id)
  {
  }

  /** What running a handle's task for this id may add to the journal: nothing, or the commit of this action. */
  ghost predicate RunsAtMost(lab: Lab, n: nat, id: string, action: ActionRequest) {
    n in lab.handles && forall hook ::
      var journal := Next(lab, Run(n, id, hook)).shared.journal;
      journal == lab.shared.journal || journal == lab.shared.journal + [Commit(lab.handles[n].run, DigestOf(action))]
  }

  lemma TasksRunAsTheyAre(lab: Lab, n: nat, id: string, action: ActionRequest)
    requires n in lab.handles && (id in lab.handles[n].tasks ==> lab.handles[n].tasks[id] == action)
    ensures RunsAtMost(lab, n, id, action)
  {
  }

  /** After an accepted approval the handle's task for the id, if any, is the replacement given, or else the original. */
  lemma ApprovedRunsAsSaid(faults: map<string, Faults>, moves: seq<Move>, k: nat, n: nat, id: string, replacement: Option<ActionRequest>,
                           original: ActionRequest)
    requires k < |moves| && moves[k] == Decide(n, id, Approve(replacement)) && Accepted(Reached(faults, moves[..k]), n, id, Approve(replacement))
    requires original in Reached(faults, moves[..k]).handles[n].actions && original.id == id
    ensures var lab := Reached(faults, moves);
            var said := match replacement case None => original case Some(r) => r;
            && n in lab.handles && (id in lab.handles[n].tasks ==> lab.handles[n].tasks[id] == said)
            && RunsAtMost(lab, n, id, said)
  {
    hide Reached, ById, AllWellKept, Next, RunsAtMost, AncestorsOpen, Accepted;
    AcceptedIsFinal(faults, moves, k, n, id, Approve(replacement));
    AcceptedHandle(faults, moves[..k], n, id, Approve(replacement));
    VerdictsStay(faults, moves, k, n);
    var lab := Reached(faults, moves);
    var said := match replacement case None => original case Some(r) => r;
    GatedOnce(faults, moves[..k], n, id, Approve(replacement), original);
    if id in lab.handles[n].tasks {
      var a := TasksComeFrom(faults, moves, n, id);
      OnlyOneListed(faults, moves, n, a, original);
    }
    TasksRunAsTheyAre(lab, n, id, said);
  }

  lemma AcceptedHandle(faults: map<string, Faults>, moves: seq<Move>, n: nat, id: string, verdict: Verdict)
    requires Accepted(Reached(faults, moves), n, id, verdict)
    ensures n in Reached(faults, moves).handles
  {
  }

  lemma OnlyOneListed(faults: map<string, Faults>, moves: seq<Move>, n: nat, a: ActionRequest, b: ActionRequest)
    requires n in Reached(faults, moves).handles && a in Reached(faults, moves).handles[n].actions && b in Reached(faults, moves).handles[n].actions
    requires a.id == b.id
    ensures a == b
  {
    ReachedIsKept(faults, moves);
    ListedOnce(Reached(faults, moves).handles[n].actions, a.id);
    hide Reached, ById;
  }

  lemma GatedOnce(faults: map<string, Faults>, moves: seq<Move>, n: nat, id: string, verdict: Verdict, original: ActionRequest)
    requires Accepted(Reached(faults, moves), n, id, verdict) && original in Reached(faults, moves).handles[n].actions && original.id == id
    ensures original.gated
  {
    ReachedIsKept(faults, moves);
    ListedOnce(Reached(faults, moves).handles[n].actions, id);
    hide Reached, ById;
  }

  // ---------- moves ----------

  /** Starting, once every gate is decided, makes a task of exactly the listed actions that may execute and were not executed yet. */
  lemma StartsExactly(lab: Lab, n: nat, a: ActionRequest)
    requires AllWellKept(lab) && n in lab.handles && lab.handles[n].phase.Waiting? && a in lab.handles[n].actions
    requires forall b <- lab.handles[n].actions | b.gated :: b.id in lab.handles[n].verdicts
    ensures var h, after := lab.handles[n], Next(lab, Start(n)).handles[n];
            && after.phase == Executing
            && (a.id in after.tasks
                <==> GateOpen(a, h.verdicts) && AncestorsOpen(ById(h.actions), a, h.verdicts) && (h.run, a.id) !in lab.shared.completed)
  {
    hide *;
    var h := lab.handles[n];
    KeptFacts(lab, n);
    ExecutesExactly(h.actions, h.actions, h.verdicts, a);
    IndexedIds(Executable(h.actions, ById(h.actions), h.verdicts), a.id);
    StartMakesTasks(h, lab.shared.completed);
    NextStart(lab, n);
  }

  lemma KeptFacts(lab: Lab, n: nat)
    requires AllWellKept(lab) && n in lab.handles
    ensures var h := lab.handles[n];
            && Distinct(h.actions)
            && forall id | id in h.verdicts && h.verdicts[id].Approve? && h.verdicts[id].replacement.Some? ::
                 h.verdicts[id].replacement.value.id == id
  {
    assert WellKept(lab.handles[n]);
  }

  lemma IndexedIds(actions: seq<ActionRequest>, id: string)
    ensures id in ById(actions) <==> exists e <- actions :: e.id == id
  {
    hide ById;
  }

  lemma StartMakesTasks(h: Handle, completed: set<(string, string)>)
    requires h.phase.Waiting? && forall b <- h.actions | b.gated :: b.id in h.verdicts
    ensures var after := Starting(h, completed);
            && after.phase == Executing
            && forall id :: id in after.tasks <==> id in ById(Executable(h.actions, ById(h.actions), h.verdicts)) && (h.run, id) !in completed
  {
    hide Executable, ById;
  }

  /** An undecided gate keeps the run waiting. */
  lemma UndecidedWaits(lab: Lab, n: nat, a: ActionRequest)
    requires n in lab.handles && lab.handles[n].phase.Waiting? && a in lab.handles[n].actions && a.gated && a.id !in lab.handles[n].verdicts
    ensures Next(lab, Start(n)) == lab
  {
    hide Executable, ById;
    assert Next(lab, Start(n)).handles == lab.handles;
  }

  /** One call of the effect: the fault to be injected decides first, then the commit, then the fault after it. */
  lemma CallsExactly(journal: seq<Commit>, faults: Faults, run: string, action: ActionRequest, hook: Hook)
    ensures var (after, left, reply) := Call(journal, faults, run, action, hook);
            && (faults.before > 0 ==>
                  after == journal && left == Faults(faults.before - 1, faults.after) && reply == Raised(AmbiguousEffect))
            && (faults.before == 0 && hook != Commits ==>
                  after == journal && left == faults && reply == if hook == Raises then Raised(HookError) else Returned(()))
            && (faults.before == 0 && hook == Commits ==>
                  && after == journal + [Commit(run, ActionDigest(action.id, action.tool, action.arguments))]
                  && left == Faults(0, if faults.after > 0 then faults.after - 1 else 0)
                  && reply == if faults.after > 0 then Raised(AmbiguousEffect) else Returned(()))
  {
  }

  /**
   * Running a task calls the effect once and ends it. Unless the hook raised, the action counts as executed; the
   * first failure starts to stop the run, with an unknown outcome if the effect was ambiguous.
   */
  lemma RunsExactly(lab: Lab, n: nat, id: string, hook: Hook)
    requires n in lab.handles && id in lab.handles[n].tasks && (lab.handles[n].phase.Executing? || lab.handles[n].phase.Stopping?)
    ensures var h, faults := lab.handles[n], if lab.handles[n].run in lab.faults then lab.faults[lab.handles[n].run] else Faults(0, 0);
            var after := Next(lab, Run(n, id, hook));
            var (journal, left, reply) := Call(lab.shared.journal, faults, h.run, h.tasks[id], hook);
            && after.shared.journal == journal && after.faults == lab.faults[h.run := left]
            && after.shared.completed == (if reply == Raised(HookError) then lab.shared.completed else lab.shared.completed + {(h.run, id)})
            && after.handles[n].tasks == h.tasks - {id}
            && after.handles[n].phase == (if reply.Returned? || h.phase.Stopping? then h.phase
                                          else Stopping(if reply == Raised(AmbiguousEffect) then UnknownOutcome else FailedRun))
  {
  }

  /** A run ends completed when its tasks are done; stopped, it ends as it was stopped and drops the tasks left. */
  lemma EndsExactly(lab: Lab, n: nat)
    requires n in lab.handles
    ensures var h, after := lab.handles[n], Next(lab, End(n)).handles[n];
            && Next(lab, End(n)).shared == lab.shared
            && match h.phase
               case Executing => after == if h.tasks == map[] then h.(phase := Done(Completed)) else h
               case Stopping(status) => after == h.(phase := Done(status), tasks := map[])
               case _ => after == h
  {
  }

  // ---------- reconciliation ----------

  /** The journal holds a commit of this action of this run at position `i`. */
  predicate CommittedAt(journal: seq<Commit>, run: string, id: string, i: int) {
    0 <= i < |journal| && journal[i].run == run && journal[i].effect.id == id
  }

  ghost predicate NeverCommitted(journal: seq<Commit>, run: string, id: string) {
    forall i :: !CommittedAt(journal, run, id, i)
  }

  /** It was committed once, and with this very digest. */
  ghost predicate CommittedOnceAs(journal: seq<Commit>, run: string, action: ActionRequest) {
    exists i :: CommittedAt(journal, run, action.id, i) && journal[i].effect == DigestOf(action)
                && forall j :: CommittedAt(journal, run, action.id, j) ==> j == i
  }

  lemma {:induction false} ObservedByPosition(journal: seq<Commit>, run: string, id: string)
    ensures Observed(journal, run, id) == [] <==> NeverCommitted(journal, run, id)
    ensures |Observed(journal, run, id)| == 1 ==>
              exists i :: CommittedAt(journal, run, id, i) && journal[i].effect == Observed(journal, run, id)[0]
                          && forall j :: CommittedAt(journal, run, id, j) ==> j == i
    ensures |Observed(journal, run, id)| > 1 ==>
              exists i, j :: i < j && CommittedAt(journal, run, id, i) && CommittedAt(journal, run, id, j)
  {
    if journal != [] {
      var n := |journal| - 1;
      var before := journal[..n];
      ObservedByPosition(before, run, id);
      assert forall i | 0 <= i < n :: CommittedAt(before, run, id, i) <==> CommittedAt(journal, run, id, i);
      if !CommittedAt(journal, run, id, n) {
        assert Observed(journal, run, id) == Observed(before, run, id);
        assert forall i :: CommittedAt(before, run, id, i) <==> CommittedAt(journal, run, id, i);
      } else {
        assert Observed(journal, run, id) == Observed(before, run, id) + [journal[n].effect];
        if |Observed(before, run, id)| >= 1 {
          var i :| CommittedAt(before, run, id, i);
          assert i < n && CommittedAt(journal, run, id, i);
        }
      }
    }
  }

  /** The lookup tells the truth about the journal, if it is available. */
  lemma LooksUpExactly(journal: seq<Commit>, run: string, action: ActionRequest, available: bool)
    ensures var e := Lookup(journal, run, action, available);
            && e.actionId == action.id && e.expected == DigestOf(action)
            && (e.status == Unavailable <==> !available)
            && (e.status == NotCommitted <==> available && NeverCommitted(journal, run, action.id))
            && (e.status == Committed <==> available && CommittedOnceAs(journal, run, action))
  {
    ObservedByPosition(journal, run, action.id);
    hide Observed;
    if CommittedOnceAs(journal, run, action) {
      var i :| CommittedAt(journal, run, action.id, i) && journal[i].effect == DigestOf(action)
               && forall j :: CommittedAt(journal, run, action.id, j) ==> j == i;
    }
  }

  /**
   * Reconciling answers with what it answered before, or looks an action of an ended run of unknown outcome up; a commit
   * found counts the action as executed, none found lets a replay execute it again.
   */
  lemma ReconcilesExactly(h: Handle, shared: Shared, id: string, available: bool, action: ActionRequest)
    requires Forest(h.actions) && action in h.actions && action.id == id
    ensures var (after, left, reply) := Reconciling(h, shared, id, available);
            if id in h.cached then after == h && left == shared && reply == Returned(h.cached[id])
            else if h.phase != Done(UnknownOutcome) then after == h && left == shared && reply.Raised?
            else
              var evidence := Lookup(shared.journal, h.run, action, available);
              && reply == Returned(evidence) && after == h.(cached := h.cached[id := evidence]) && left.journal == shared.journal
              && left.completed == (match evidence.status
                                    case Committed => shared.completed + {(h.run, id)}
                                    case NotCommitted => shared.completed - {(h.run, id)}
                                    case _ => shared.completed)
  {
    ListedOnce(h.actions, id);
    hide ById, Lookup, Acyclic;
  }

  lemma ObservedOnceIsAlone(journal: seq<Commit>, run: string, id: string, i: nat, j: nat)
    requires |Observed(journal, run, id)| <= 1 && i < j < |journal| && journal[i].run == run && journal[i].effect.id == id
    ensures journal[j].run != run || journal[j].effect.id != id
  {
    ObservedByPosition(journal, run, id);
    hide Observed;
    assert CommittedAt(journal, run, id, i);
    assert |Observed(journal, run, id)| == 1;
    var only :| CommittedAt(journal, run, id, only) && forall k :: CommittedAt(journal, run, id, k) ==> k == only;
    assert !CommittedAt(journal, run, id, j);
  }

  /** While handles of one run do not overlap, no two entries of the journal are commits of one action of one run. */
  lemma NoTwoCommits(faults: map<string, Faults>, moves: seq<Move>, i: nat, j: nat)
    requires NeverOverlaps(faults, moves) && i < j < |Reached(faults, moves).shared.journal|
    ensures var journal := Reached(faults, moves).shared.journal;
            journal[i].run != journal[j].run || journal[i].effect.id != journal[j].effect.id
  {
    hide *;
    var journal := Reached(faults, moves).shared.journal;
    CommittedAtMostOnce(faults, moves, journal[i].run, journal[i].effect.id);
    ObservedOnceIsAlone(journal, journal[i].run, journal[i].effect.id, i, j);
  }
}
