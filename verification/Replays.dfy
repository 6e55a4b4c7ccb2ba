/**
 * Runs of the reference adapter and the effect they share: executing, cancelling, reconciling and replaying. What
 * was executed is remembered per run and action; the effect's journal is the record of what was committed.
 */
module Replays {
  import opened Basics
  import opened AgentActions
  import opened Delegation

  /** A committed effect. */
  datatype Commit = Commit(run: string, effect: ActionDigest)

  /** What outlives a run: the adapter's completed set and the journal of committed effects. */
  datatype Shared = Shared(completed: set<(string, string)>, journal: seq<Commit>)

  /** One-shot failures still to be injected, before and after the commit. */
  datatype Faults = Faults(before: nat, after: nat)

  /** What the injected commit does: it commits, finds its effect already committed, or raises. */
  datatype Hook = Commits | AlreadyCommitted | Raises

  datatype EffectError = AmbiguousEffect | HookError

  datatype RunStatus = Completed | Cancelled | TimedOut | UnknownOutcome | FailedRun

  /** `Stopping` lasts while the tasks that are left are being cancelled; one of them may still finish. */
  datatype Phase = Waiting | Executing | Stopping(status: RunStatus) | Done(status: RunStatus)

  datatype Handle = Handle(
    run: string, actions: seq<ActionRequest>, verdicts: map<string, Verdict>, phase: Phase,
    tasks: map<string, ActionRequest>, cached: map<string, Evidence>)

  datatype RunError = NotPending | AlreadyDecided | IdentityChanged | NotTerminal | NotUnknown | NoSuchAction | Contract(error: ContractError)

  // ---------- the effect ----------

  /** One call of the effect; nothing else happens between its commit and its failure. */
  function Call(journal: seq<Commit>, faults: Faults, run: string, action: ActionRequest, hook: Hook): (seq<Commit>,
    Faults, Outcome<(), EffectError>) {
    if faults.before > 0 then (journal, faults.(before := faults.before - 1), Raised(AmbiguousEffect))
    else
      match hook
      case Raises => (journal, faults, Raised(HookError))
      case AlreadyCommitted => (journal, faults, Returned(()))
      case Commits =>
        var after := journal + [Commit(run, DigestOf(action))];
        if faults.after > 0 then (after, faults.(after := faults.after - 1), Raised(AmbiguousEffect)) else (after, faults, Returned(()))
  }

  /** Digests of what the journal holds for one action of one run. */
  function Observed(journal: seq<Commit>, run: string, id: string): seq<ActionDigest> {
    if journal == [] then []
    else
      var last := journal[|journal| - 1];
      Observed(journal[..|journal| - 1], run, id) + if last.run == run && last.effect.id == id then [last.effect] else []
  }

  function Lookup(journal: seq<Commit>, run: string, action: ActionRequest, available: bool): Evidence {
    var observed := Observed(journal, run, action.id);
    if !available then Evidence(action.id, Unavailable, DigestOf(action), [])
    else if observed == [] then Evidence(action.id, NotCommitted, DigestOf(action), [])
    else if observed == [DigestOf(action)] then Evidence(action.id, Committed, DigestOf(action), observed)
    else Evidence(action.id, Conflict, DigestOf(action), observed)
  }

  // ---------- one run ----------

  function Begun(run: string, actions: seq<ActionRequest>): Handle {
    Handle(run, actions, map[], Waiting, map[], map[])
  }

  /** Approvals are taken once, and a replacement keeps the action's identity and tool. */
  function Approving(h: Handle, id: string, replacement: Option<ActionRequest>): (Handle, Outcome<(), RunError>) {
    if !h.phase.Waiting? || id !in ById(h.actions) || !ById(h.actions)[id].gated then (h, Raised(NotPending))
    else if id in h.verdicts then (h, Raised(AlreadyDecided))
    else if replacement.Some? && (replacement.value.id != id || replacement.value.tool != ById(h.actions)[id].tool) then
      (h, Raised(IdentityChanged))
    else (h.(verdicts := h.verdicts[id := Approve(replacement)]), Returned(()))
  }

  function Rejecting(h: Handle, id: string): (Handle, Outcome<(), RunError>) {
    if !h.phase.Waiting? || id !in ById(h.actions) || !ById(h.actions)[id].gated then (h, Raised(NotPending))
    else if id in h.verdicts then (h, Raised(AlreadyDecided))
    else (h.(verdicts := h.verdicts[id := Reject]), Returned(()))
  }

  /** Once every gate is decided, a task for each executable action not yet executed in this run. */
  ghost function Starting(h: Handle, completed: set<(string, string)>): Handle {
    if !h.phase.Waiting? || !Decided(h.actions, h.verdicts) then h
    else
      h.(phase := Executing, tasks := Unexecuted(ById(Executable(h.actions, ById(h.actions), h.verdicts)), h.run, completed))
  }

  function Unexecuted(actions: map<string, ActionRequest>, run: string, completed: set<(string, string)>): map<string,
    ActionRequest> {
    map id | id in actions && (run, id) !in completed :: actions[id]
  }

  lemma UnexecutedTakesOneMore(actions: seq<ActionRequest>, k: nat, run: string, completed: set<(string, string)>)
    requires k < |actions|
    ensures var before := Unexecuted(ById(actions[..k]), run, completed);
            Unexecuted(ById(actions[..k + 1]), run, completed)
            == if (run, actions[k].id) in completed then before else before[actions[k].id := actions[k]]
  {
    hide ById;
    ByIdTakesOneMore(actions, k);
  }

  /** One task runs to its end. An ambiguous effect counts as executed, and ends the run. */
  function Running(h: Handle, shared: Shared, faults: Faults, id: string, hook: Hook): (Handle, Shared, Faults) {
    if id !in h.tasks || !(h.phase.Executing? || h.phase.Stopping?) then (h, shared, faults)
    else
      var (journal, faults1, reply) := Call(shared.journal, faults, h.run, h.tasks[id], hook);
      var failure := if reply == Raised(HookError) then FailedRun else UnknownOutcome;
      (h.(tasks := h.tasks - {id}, phase := if reply.Raised? && h.phase.Executing? then Stopping(failure) else h.phase),
       Shared(if reply == Raised(HookError) then shared.completed else shared.completed + {(h.run, id)}, journal), faults1)
  }

  /** The tasks that are left are cancelled before they commit. */
  function Ending(h: Handle): Handle {
    match h.phase
    case Executing => if h.tasks == map[] then h.(phase := Done(Completed)) else h
    case Stopping(status) => h.(phase := Done(status), tasks := map[])
    case _ => h
  }

  function Interrupting(h: Handle, status: RunStatus): Handle {
    if h.phase.Done? then h else h.(phase := Stopping(status))
  }

  function Reconciling(h: Handle, shared: Shared, id: string, available: bool): (Handle, Shared,
    Outcome<Evidence, RunError>) {
    if id in h.cached then (h, shared, Returned(h.cached[id]))
    else if !h.phase.Done? then (h, shared, Raised(NotTerminal))
    else if h.phase.status != UnknownOutcome then (h, shared, Raised(NotUnknown))
    else if id !in ById(h.actions) then (h, shared, Raised(NoSuchAction))
    else
      var evidence := Lookup(shared.journal, h.run, ById(h.actions)[id], available);
      var completed := match evidence.status
        case Committed => shared.completed + {(h.run, id)}
        case NotCommitted => shared.completed - {(h.run, id)}
        case _ => shared.completed;
      (h.(cached := h.cached[id := evidence]), shared.(completed := completed), Returned(evidence))
  }

  // ---------- any number of runs ----------

  datatype Lab = Lab(shared: Shared, faults: map<string, Faults>, handles: map<nat, Handle>)

  datatype Move =
    | Begin(handle: nat, run: string, actions: seq<ActionRequest>)
    | Decide(handle: nat, id: string, verdict: Verdict)
    | Start(handle: nat)
    | Run(handle: nat, id: string, hook: Hook)
    | End(handle: nat)
    | Interrupt(handle: nat, status: RunStatus)
    | Reconcile(handle: nat, id: string, available: bool)

  function FaultsOf(lab: Lab, run: string): Faults {
    if run in lab.faults then lab.faults[run] else Faults(0, 0)
  }

  ghost function Next(lab: Lab, move: Move): Lab {
    if move.Begin? then
      if move.handle in lab.handles || !Forest(move.actions) then lab
      else lab.(handles := lab.handles[move.handle := Begun(move.run, move.actions)])
    else if move.handle !in lab.handles then lab
    else
      var h := lab.handles[move.handle];
      match move
      case Decide(n, id, verdict) =>
        lab.(handles := lab.handles[n := if verdict.Approve? then Approving(h, id, verdict.replacement).0 else Rejecting(h, id).0])
      case Start(n) => lab.(handles := lab.handles[n := Starting(h, lab.shared.completed)])
      case Run(n, id, hook) =>
        var (h1, shared, faults) := Running(h, lab.shared, FaultsOf(lab, h.run), id, hook);
        Lab(shared, lab.faults[h.run := faults], lab.handles[n := h1])
      case End(n) => lab.(handles := lab.handles[n := Ending(h)])
      case Interrupt(n, status) => lab.(handles := lab.handles[n := Interrupting(h, status)])
      case Reconcile(n, id, available) =>
        var (h1, shared, _) := Reconciling(h, lab.shared, id, available);
        lab.(shared := shared, handles := lab.handles[n := h1])
  }

  ghost function Reached(faults: map<string, Faults>, moves: seq<Move>): Lab {
    if moves == [] then Lab(Shared({}, []), faults, map[]) else Next(Reached(faults, moves[..|moves| - 1]), moves[|moves| - 1])
  }

  /** Some handle of this run has not ended. */
  predicate Busy(lab: Lab, run: string) {
    exists n :: n in lab.handles && lab.handles[n].run == run && !lab.handles[n].phase.Done?
  }

  /** A run is begun again, or reconciled, only when none of its handles is under way. */
  ghost predicate Apart(lab: Lab, move: Move) {
    match move
    case Begin(_, run, _) => !Busy(lab, run)
    case Reconcile(n, _, _) => n in lab.handles ==> !Busy(lab, lab.handles[n].run)
    case _ => true
  }

  /** No two handles of one run overlap. */
  ghost predicate NeverOverlaps(faults: map<string, Faults>, moves: seq<Move>) {
    forall k | 0 <= k < |moves| :: Apart(Reached(faults, moves[..k]), moves[k])
  }

  // ---------- the invariant ----------

  ghost predicate SoundLab(lab: Lab) {
    && (forall run, id :: |Observed(lab.shared.journal, run, id)| <= 1)
    && (forall run, id | Observed(lab.shared.journal, run, id) != [] :: (run, id) in lab.shared.completed)
    && (forall n | n in lab.handles :: SoundHandle(lab.handles[n], lab.shared.completed))
    && (forall m, n | m in lab.handles && n in lab.handles && m != n && lab.handles[m].run == lab.handles[n].run ::
          lab.handles[m].phase.Done? || lab.handles[n].phase.Done?)
  }

  /** A task that is left was never executed in its run. */
  predicate SoundHandle(h: Handle, completed: set<(string, string)>) {
    && (h.phase.Done? || h.phase.Waiting? ==> h.tasks == map[])
    && forall id | id in h.tasks :: (h.run, id) !in completed && h.tasks[id].id == id
  }

  /** The step of one handle, as far as the others are concerned. */
  lemma HandleStepKeeps(lab: Lab, n: nat, h: Handle, shared: Shared, faults: map<string, Faults>)
    requires SoundLab(lab) && n in lab.handles && h.run == lab.handles[n].run
    requires lab.handles[n].phase.Done? ==> h.phase.Done?
    requires SoundHandle(h, shared.completed)
    requires forall run, id :: |Observed(shared.journal, run, id)| <= 1
    requires forall run, id | Observed(shared.journal, run, id) != [] :: (run, id) in shared.completed
    requires shared.completed <= lab.shared.completed
             || (forall m | m in lab.handles && m != n :: lab.handles[m].run == h.run ==> lab.handles[m].phase.Done?)
    requires forall p | p in shared.completed && p !in lab.shared.completed :: p.0 == h.run
    ensures SoundLab(Lab(shared, faults, lab.handles[n := h]))
  {
    hide Observed;
    forall m | m in lab.handles && m != n ensures SoundHandle(lab.handles[m], shared.completed) {
      assert SoundHandle(lab.handles[m], lab.shared.completed);
    }
  }

  lemma RunKeeps(lab: Lab, n: nat, id: string, hook: Hook)
    requires SoundLab(lab) && n in lab.handles
    ensures SoundLab(Next(lab, Run(n, id, hook)))
  {
    var h := lab.handles[n];
    var (h1, shared, faults) := Running(h, lab.shared, FaultsOf(lab, h.run), id, hook);
    assert SoundHandle(h, lab.shared.completed);
    if h1 != h {
      forall run, i
        ensures |Observed(shared.journal, run, i)| <= 1
        ensures Observed(shared.journal, run, i) != [] ==> (run, i) in shared.completed
      {
        if shared.journal != lab.shared.journal {
          assert shared.journal[..|lab.shared.journal|] == lab.shared.journal;
        }
      }
      HandleStepKeeps(lab, n, h1, shared, lab.faults[h.run := faults]);
    } else {
      HandleStepKeeps(lab, n, h, lab.shared, lab.faults[h.run := faults]);
    }
  }

  lemma ReconcileKeeps(lab: Lab, n: nat, id: string, available: bool)
    requires SoundLab(lab) && n in lab.handles && Apart(lab, Reconcile(n, id, available))
    ensures SoundLab(Next(lab, Reconcile(n, id, available)))
  {
    hide Observed, ById;
    var h := lab.handles[n];
    var (h1, shared, _) := Reconciling(h, lab.shared, id, available);
    HandleStepKeeps(lab, n, h1, shared, lab.faults);
  }

  lemma NextKeeps(lab: Lab, move: Move)
    requires SoundLab(lab) && Apart(lab, move)
    ensures SoundLab(Next(lab, move))
  {
    hide Observed, Executable, ById;
    if move.Run? && move.handle in lab.handles {
      RunKeeps(lab, move.handle, move.id, move.hook);
    } else if move.Reconcile? && move.handle in lab.handles {
      ReconcileKeeps(lab, move.handle, move.id, move.available);
    } else if !move.Begin? && move.handle in lab.handles {
      HandleStepKeeps(lab, move.handle, Next(lab, move).handles[move.handle], lab.shared, lab.faults);
    }
  }

  lemma NeverOverlapsBefore(faults: map<string, Faults>, moves: seq<Move>)
    requires NeverOverlaps(faults, moves) && moves != []
    ensures NeverOverlaps(faults, moves[..|moves| - 1])
  {
    hide Reached, Apart;
    var k := |moves| - 1;
    forall j | 0 <= j < k ensures Apart(Reached(faults, moves[..k][..j]), moves[..k][j]) {
      assert moves[..k][..j] == moves[..j];
    }
  }

  lemma {:induction false} ReachedIsSound(faults: map<string, Faults>, moves: seq<Move>)
    requires NeverOverlaps(faults, moves)
    ensures SoundLab(Reached(faults, moves))
  {
    if moves != [] {
      var k := |moves| - 1;
      hide Next, SoundLab, Apart;
      NeverOverlapsBefore(faults, moves);
      ReachedIsSound(faults, moves[..k]);
      NextKeeps(Reached(faults, moves[..k]), moves[k]);
    } else {
      hide Apart;
    }
  }

  // ---------- the promises ----------

  /**
   * Whatever faults are injected, whatever is cancelled, reconciled or replayed: while runs do not overlap, each action
   * of a run is committed at most once.
   */
  lemma CommittedAtMostOnce(faults: map<string, Faults>, moves: seq<Move>, run: string, id: string)
    requires NeverOverlaps(faults, moves)
    ensures |Observed(Reached(faults, moves).shared.journal, run, id)| <= 1
    ensures Observed(Reached(faults, moves).shared.journal, run, id) != [] ==> (run, id) in Reached(faults, moves).shared.completed
  {
    ReachedIsSound(faults, moves);
    hide Reached, Observed;
  }

  /** Without that, the same action is committed twice: two handles start before either has executed it. */
  lemma OverlapCommitsTwice(run: string, action: ActionRequest)
    requires !action.gated && action.parent.None?
    ensures var moves := [Begin(0, run, [action]), Begin(1, run, [action]), Start(0), Start(1),
                          Run(0, action.id, Commits), Run(1, action.id, Commits)];
            Observed(Reached(map[], moves).shared.journal, run, action.id) == [DigestOf(action), DigestOf(action)]
  {
    var moves := [Begin(0, run, [action]), Begin(1, run, [action]), Start(0), Start(1), Run(0, action.id, Commits), Run(1, action.id, Commits)];
    hide Reached, Next, Observed;
    var started := BothStart(run, action);
    assert moves[..4] == [moves[0], moves[1], moves[2], moves[3]];
    ReachedFurther(map[], moves[..4], moves[4]);
    ReachedFurther(map[], moves[..5], moves[5]);
    assert moves[..5] == moves[..4] + [moves[4]] && moves == moves[..5] + [moves[5]];
    BothCommit(run, action, started);
    ObservedTwice(run, action);
  }

  lemma ReachedFurther(faults: map<string, Faults>, moves: seq<Move>, move: Move)
    ensures Reached(faults, moves + [move]) == Next(Reached(faults, moves), move)
  {
    assert (moves + [move])[..|moves|] == moves;
  }

  /** Two handles of one run, each with a task for its only action. */
  ghost predicate BothStarted(run: string, action: ActionRequest, lab: Lab) {
    var ready := Begun(run, [action]).(phase := Executing, tasks := map[action.id := action]);
    lab == Lab(Shared({}, []), map[], map[0 := ready, 1 := ready])
  }

  lemma BothStart(run: string, action: ActionRequest) returns (lab: Lab)
    requires !action.gated && action.parent.None?
    ensures lab == Reached(map[], [Begin(0, run, [action]), Begin(1, run, [action]), Start(0), Start(1)])
    ensures BothStarted(run, action, lab)
  {
    hide *;
    ReachedFour(map[], Begin(0, run, [action]), Begin(1, run, [action]), Start(0), Start(1));
    BeginBoth(run, action);
    lab := StartBoth(run, action, Next(Next(Lab(Shared({}, []), map[], map[]), Begin(0, run, [action])), Begin(1, run, [action])));
  }

  lemma ReachedFour(faults: map<string, Faults>, a: Move, b: Move, c: Move, d: Move)
    ensures Reached(faults, [a, b, c, d]) == Next(Next(Next(Next(Lab(Shared({}, []), faults, map[]), a), b), c), d)
  {
    hide *;
    EmptyReached(faults);
    ReachedFurther(faults, [], a);
    assert [] + [a] == [a];
    ReachedFurther(faults, [a], b);
    assert [a] + [b] == [a, b];
    ReachedFurther(faults, [a, b], c);
    assert [a, b] + [c] == [a, b, c];
    ReachedFurther(faults, [a, b, c], d);
    assert [a, b, c] + [d] == [a, b, c, d];
  }

  lemma BeginBoth(run: string, action: ActionRequest)
    requires !action.gated && action.parent.None?
    ensures Next(Next(Lab(Shared({}, []), map[], map[]), Begin(0, run, [action])), Begin(1, run, [action]))
         == Lab(Shared({}, []), map[], map[0 := Begun(run, [action]), 1 := Begun(run, [action])])
  {
    OnlyAction(action);
    hide Forest, Executable, ById;
  }

  lemma EmptyReached(faults: map<string, Faults>)
    ensures Reached(faults, []) == Lab(Shared({}, []), faults, map[])
  {
  }

  lemma StartBoth(run: string, action: ActionRequest, begun: Lab) returns (lab: Lab)
    requires !action.gated && action.parent.None?
    requires begun == Lab(Shared({}, []), map[], map[0 := Begun(run, [action]), 1 := Begun(run, [action])])
    ensures lab == Next(Next(begun, Start(0)), Start(1)) && BothStarted(run, action, lab)
  {
    hide *;
    StartOnly(run, action);
    NextStart(begun, 0);
    var one := Next(begun, Start(0));
    NextStart(one, 1);
    lab := Next(one, Start(1));
    var ready := Starting(Begun(run, [action]), {});
    assert lab == Lab(Shared({}, []), map[], map[0 := ready, 1 := ready]);
    BothAreStarted(run, action, lab, ready);
  }

  lemma BothAreStarted(run: string, action: ActionRequest, lab: Lab, ready: Handle)
    requires ready == Begun(run, [action]).(phase := Executing, tasks := map[action.id := action])
    requires lab == Lab(Shared({}, []), map[], map[0 := ready, 1 := ready])
    ensures BothStarted(run, action, lab)
  {
  }

  lemma NextStart(lab: Lab, n: nat)
    requires n in lab.handles
    ensures Next(lab, Start(n)) == lab.(handles := lab.handles[n := Starting(lab.handles[n], lab.shared.completed)])
  {
  }

  lemma StartOnly(run: string, action: ActionRequest)
    requires !action.gated && action.parent.None?
    ensures Starting(Begun(run, [action]), {}) == Begun(run, [action]).(phase := Executing, tasks := map[action.id := action])
  {
    OnlyAction(action);
    hide Executable, ById, Forest;
  }

  lemma BothCommit(run: string, action: ActionRequest, lab: Lab)
    requires BothStarted(run, action, lab)
    ensures Next(Next(lab, Run(0, action.id, Commits)), Run(1, action.id, Commits)).shared.journal
         == [Commit(run, DigestOf(action)), Commit(run, DigestOf(action))]
  {
    var first := Next(lab, Run(0, action.id, Commits));
    assert first.shared.journal == [Commit(run, DigestOf(action))];
    assert first.handles[1] == lab.handles[1];
  }

  lemma ObservedTwice(run: string, action: ActionRequest)
    ensures var c := Commit(run, DigestOf(action)); Observed([c, c], run, action.id) == [DigestOf(action), DigestOf(action)]
  {
    var c := Commit(run, DigestOf(action));
    assert [c, c][..1] == [c] && [c][..0] == [];
    assert Observed([c], run, action.id) == [DigestOf(action)];
  }

  lemma OnlyAction(action: ActionRequest)
    requires !action.gated && action.parent.None?
    ensures ById([action]) == map[action.id := action]
    ensures Forest([action]) && Decided([action], map[])
    ensures Executable([action], ById([action]), map[]) == [action]
  {
    var byId := ById([action]);
    assert byId == map[action.id := action];
    hide ById;
    assert Ancestor(byId, action.id, 0) == Some(action.id) && Ancestor(byId, action.id, 1) == None;
    assert Ends(byId, action.id);
    EndedChainsDoNotReturn(byId, action.id);
    forall n: nat | n >= 1 ensures Ancestor(byId, action.id, n).None? { ChainsStayEnded(byId, action.id, 1, n); }
    assert Executable([], byId, map[]) == [];
  }

  // ---------- only approved effects ----------

  ghost predicate Permits(h: Handle, e: ActionRequest) {
    e in Executable(h.actions, ById(h.actions), h.verdicts)
  }

  /** This handle of the run, its approvals settled, makes this action executable, and its digest was committed. */
  ghost predicate PermittedBy(lab: Lab, c: Commit, n: nat, e: ActionRequest) {
    && n in lab.handles && lab.handles[n].run == c.run && !lab.handles[n].phase.Waiting?
    && Permits(lab.handles[n], e) && c.effect == DigestOf(e)
  }

  ghost predicate Permitted(lab: Lab, c: Commit) {
    exists n, e :: PermittedBy(lab, c, n, e)
  }

  ghost predicate OnlyPermitted(lab: Lab) {
    && (forall n | n in lab.handles :: lab.handles[n].phase.Waiting? ==> lab.handles[n].tasks == map[])
    && (forall n, id | n in lab.handles && id in lab.handles[n].tasks :: Permits(lab.handles[n], lab.handles[n].tasks[id]))
    && (forall c <- lab.shared.journal :: Permitted(lab, c))
  }

  /** A handle's step keeps what was permitted: once approvals are settled they do not change. */
  lemma StepKeepsPermitted(lab: Lab, n: nat, h: Handle, after: Lab)
    requires OnlyPermitted(lab) && n in lab.handles && after.handles == lab.handles[n := h]
    requires h.run == lab.handles[n].run && (h.phase.Waiting? ==> h.tasks == map[] && lab.handles[n].phase.Waiting?)
    requires !lab.handles[n].phase.Waiting? ==> h.actions == lab.handles[n].actions && h.verdicts == lab.handles[n].verdicts
    requires forall id | id in h.tasks :: Permits(h, h.tasks[id])
    requires forall c <- after.shared.journal | c !in lab.shared.journal ::
               c.run == h.run && !h.phase.Waiting? && exists e :: Permits(h, e) && c.effect == DigestOf(e)
    ensures OnlyPermitted(after)
  {
    forall c <- after.shared.journal ensures Permitted(after, c) {
      if c in lab.shared.journal {
        assert Permitted(lab, c);
        var m, e :| PermittedBy(lab, c, m, e);
        assert PermittedBy(after, c, m, e);
      } else {
        var e :| Permits(h, e) && c.effect == DigestOf(e);
        assert PermittedBy(after, c, n, e);
      }
    }
  }

  lemma StartPermits(h: Handle, completed: set<(string, string)>)
    requires h.tasks == map[]
    ensures forall id | id in Starting(h, completed).tasks :: Permits(h, Starting(h, completed).tasks[id])
  {
    hide Executable;
  }

  lemma BeginKeepsPermitted(lab: Lab, move: Move)
    requires OnlyPermitted(lab) && move.Begin?
    ensures OnlyPermitted(Next(lab, move))
  {
    hide ById, Permits, Forest;
    var after := Next(lab, move);
    forall c <- after.shared.journal ensures Permitted(after, c) {
      assert Permitted(lab, c);
      var m, e :| PermittedBy(lab, c, m, e);
      assert PermittedBy(after, c, m, e);
    }
  }

  lemma StartKeepsPermitted(lab: Lab, n: nat)
    requires OnlyPermitted(lab) && n in lab.handles
    ensures OnlyPermitted(Next(lab, Start(n)))
  {
    hide ById, Permits, Forest;
    var h := lab.handles[n];
    var after := Next(lab, Start(n));
    SettledStaysPermitted(h, after.handles[n]);
    if h.phase.Waiting? {
      StartPermits(h, lab.shared.completed);
    }
    StepKeepsPermitted(lab, n, after.handles[n], after);
  }

  lemma RunKeepsPermitted(lab: Lab, n: nat, id: string, hook: Hook)
    requires OnlyPermitted(lab) && n in lab.handles
    ensures OnlyPermitted(Next(lab, Run(n, id, hook)))
  {
    hide ById, Permits, Forest;
    var h := lab.handles[n];
    var after := Next(lab, Run(n, id, hook));
    SettledStaysPermitted(h, after.handles[n]);
    if id in h.tasks {
      assert Permits(after.handles[n], h.tasks[id]);
    }
    StepKeepsPermitted(lab, n, after.handles[n], after);
  }

  /** Deciding, ending, interrupting and reconciling create no task and commit nothing. */
  lemma QuietStepKeepsPermitted(lab: Lab, move: Move)
    requires OnlyPermitted(lab) && !move.Begin? && !move.Start? && !move.Run? && move.handle in lab.handles
    ensures OnlyPermitted(Next(lab, move))
  {
    hide Observed, ById, Permits, Lookup;
    var h := lab.handles[move.handle];
    var after := Next(lab, move);
    assert after.shared.journal == lab.shared.journal;
    SettledStaysPermitted(h, after.handles[move.handle]);
    StepKeepsPermitted(lab, move.handle, after.handles[move.handle], after);
  }

  lemma NextKeepsPermitted(lab: Lab, move: Move)
    requires OnlyPermitted(lab)
    ensures OnlyPermitted(Next(lab, move))
  {
    if move.Begin? {
      BeginKeepsPermitted(lab, move);
    } else if move.handle in lab.handles {
      hide OnlyPermitted;
      match move
      case Start(n) => StartKeepsPermitted(lab, n);
      case Run(n, id, hook) => RunKeepsPermitted(lab, n, id, hook);
      case _ => QuietStepKeepsPermitted(lab, move);
    }
  }

  lemma SettledStaysPermitted(h: Handle, later: Handle)
    ensures h.actions == later.actions && h.verdicts == later.verdicts ==> forall e :: Permits(h, e) <==> Permits(later, e)
  {
    hide Executable, ById;
  }

  lemma {:induction false} ReachedIsPermitted(faults: map<string, Faults>, moves: seq<Move>)
    ensures OnlyPermitted(Reached(faults, moves))
  {
    if moves != [] {
      ReachedIsPermitted(faults, moves[..|moves| - 1]);
      NextKeepsPermitted(Reached(faults, moves[..|moves| - 1]), moves[|moves| - 1]);
      hide Next, OnlyPermitted;
    }
  }

  /** In any sequence of moves, overlapping or not, only what its run's approvals let through is ever committed. */
  lemma OnlyApprovedEffectsCommit(faults: map<string, Faults>, moves: seq<Move>, c: Commit)
    requires c in Reached(faults, moves).shared.journal
    ensures var lab := Reached(faults, moves);
            exists n, e :: n in lab.handles && lab.handles[n].run == c.run
                           && e in Executable(lab.handles[n].actions, ById(lab.handles[n].actions), lab.handles[n].verdicts)
                           && c.effect == DigestOf(e)
  {
    ReachedIsPermitted(faults, moves);
    hide Reached, Executable, ById;
    var lab := Reached(faults, moves);
    assert Permitted(lab, c);
    var n, e :| PermittedBy(lab, c, n, e);
  }
}
