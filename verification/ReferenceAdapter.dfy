/** The probe's effect and the reference adapter's runs, updating their fields in place. */
module ReferenceAdapters {
  import opened Basics
  import opened AgentActions
  import opened Delegation
  import R = Replays

  class EffectJournal {
    var commits: seq<R.Commit>

    constructor ()
      ensures commits == []
    {
      commits := [];
    }
  }

  class EffectProbe {
    const journal: EffectJournal
    const run: string
    const available: bool
    var faults: R.Faults

    constructor (journal: EffectJournal, run: string, faults: R.Faults, available: bool)
      ensures this.journal == journal && this.run == run && this.faults == faults && this.available == available
    {
      this.journal, this.run, this.faults, this.available := journal, run, faults, available;
    }

    method Call(action: ActionRequest, hook: R.Hook) returns (r: Outcome<(), R.EffectError>)
      modifies this, journal
      ensures (journal.commits, faults, r) == R.Call(old(journal.commits), old(faults), run, action, hook)
    {
      if faults.before > 0 {
        faults := faults.(before := faults.before - 1);
        return Raised(R.AmbiguousEffect);
      }
      if hook.Raises? {
        return Raised(R.HookError);
      }
      if hook.AlreadyCommitted? {
        return Returned(());
      }
      journal.commits := journal.commits + [R.Commit(run, DigestOf(action))];
      if faults.after > 0 {
        faults := faults.(after := faults.after - 1);
        return Raised(R.AmbiguousEffect);
      }
      return Returned(());
    }

    method Reconcile(action: ActionRequest) returns (evidence: Evidence)
      ensures evidence == R.Lookup(journal.commits, run, action, available)
    {
      if !available {
        return Evidence(action.id, Unavailable, DigestOf(action), []);
      }
      var observed := [];
      for k := 0 to |journal.commits|
        invariant observed == R.Observed(journal.commits[..k], run, action.id)
      {
        var commit := journal.commits[k];
        assert journal.commits[..k + 1][..k] == journal.commits[..k];
        if commit.run == run && commit.effect.id == action.id {
          observed := observed + [commit.effect];
        }
      }
      assert journal.commits[..|journal.commits|] == journal.commits;
      if |observed| == 0 {
        return Evidence(action.id, NotCommitted, DigestOf(action), []);
      }
      if |observed| == 1 && observed[0] == DigestOf(action) {
        return Evidence(action.id, Committed, DigestOf(action), observed);
      }
      return Evidence(action.id, Conflict, DigestOf(action), observed);
    }
  }

  class ReferenceAdapter {
    var completed: set<(string, string)>

    constructor ()
      ensures completed == {}
    {
      completed := {};
    }

    method Begin(run: string, actions: seq<ActionRequest>, probe: EffectProbe)
      returns (r: Outcome<ReferenceRun, ContractError>)
      ensures r.Returned? <==> Forest(actions)
      ensures r.Returned? ==>
                && fresh(r.value) && r.value.adapter == this && r.value.probe == probe
                && r.value.Contents() == R.Begun(run, actions)
    {
      var valid := ValidateActions(actions);
      if valid.Raised? {
        return Raised(valid.error);
      }
      var begun := new ReferenceRun(this, run, valid.value, probe);
      return Returned(begun);
    }
  }

  class ReferenceRun {
    const adapter: ReferenceAdapter
    const probe: EffectProbe
    const run: string
    const actions: seq<ActionRequest>
    var verdicts: map<string, Verdict>
    var phase: R.Phase
    var tasks: map<string, ActionRequest>
    var cached: map<string, Evidence>

    function Contents(): R.Handle
      reads this
    {
      R.Handle(run, actions, verdicts, phase, tasks, cached)
    }

    function SharedContents(): R.Shared
      reads adapter, probe.journal
    {
      R.Shared(adapter.completed, probe.journal.commits)
    }

    constructor (adapter: ReferenceAdapter, run: string, actions: seq<ActionRequest>, probe: EffectProbe)
      ensures this.adapter == adapter && this.probe == probe && Contents() == R.Begun(run, actions)
    {
      this.adapter, this.probe, this.run, this.actions := adapter, probe, run, actions;
      verdicts, phase, tasks, cached := map[], R.Waiting, map[], map[];
    }

    method Approve(id: string, replacement: Option<ActionRequest>) returns (r: Outcome<(), R.RunError>)
      modifies this
      ensures (Contents(), r) == R.Approving(old(Contents()), id, replacement)
    {
      var byId := ById(actions);
      if !phase.Waiting? || id !in byId || !byId[id].gated {
        return Raised(R.NotPending);
      }
      if id in verdicts {
        return Raised(R.AlreadyDecided);
      }
      if replacement.Some? && (replacement.value.id != byId[id].id || replacement.value.tool != byId[id].tool) {
        return Raised(R.IdentityChanged);
      }
      verdicts := verdicts[id := Verdict.Approve(replacement)];
      return Returned(());
    }

    method Reject(id: string) returns (r: Outcome<(), R.RunError>)
      modifies this
      ensures (Contents(), r) == R.Rejecting(old(Contents()), id)
    {
      var byId := ById(actions);
      if !phase.Waiting? || id !in byId || !byId[id].gated {
        return Raised(R.NotPending);
      }
      if id in verdicts {
        return Raised(R.AlreadyDecided);
      }
      verdicts := verdicts[id := Verdict.Reject];
      return Returned(());
    }

    method CreateTasks(executable: seq<ActionRequest>) returns (created: map<string, ActionRequest>)
      ensures created == R.Unexecuted(ById(executable), run, adapter.completed)
    {
      assert executable[..|executable|] == executable && R.Unexecuted(ById(executable[..0]), run, adapter.completed) == map[];
      hide ById, R.Unexecuted;
      created := map[];
      for k := 0 to |executable|
        invariant created == R.Unexecuted(ById(executable[..k]), run, adapter.completed)
      {
        R.UnexecutedTakesOneMore(executable, k, run, adapter.completed);
        if (run, executable[k].id) !in adapter.completed {
          created := created[executable[k].id := executable[k]];
        }
      }
    }

    /** Resolves the approvals, once all are in, and creates the tasks. */
    method Start()
      requires Forest(actions)
      modifies this
      ensures Contents() == R.Starting(old(Contents()), adapter.completed)
    {
      hide Forest, Executable, ById, R.Unexecuted;
      if !phase.Waiting? || exists a :: a in actions && a.gated && a.id !in verdicts {
        return;
      }
      var executable := ResolveApprovals(actions, verdicts);
      tasks := CreateTasks(executable);
      phase := R.Executing;
    }

    method ExecuteOne(id: string, hook: R.Hook)
      requires probe.run == run
      modifies this, adapter, probe, probe.journal
      ensures (Contents(), SharedContents(), probe.faults)
           == R.Running(old(Contents()), old(SharedContents()), old(probe.faults), id, hook)
    {
      if id !in tasks || !(phase.Executing? || phase.Stopping?) {
        return;
      }
      var reply := probe.Call(tasks[id], hook);
      if reply != Raised(R.HookError) {
        adapter.completed := adapter.completed + {(run, id)};
      }
      if reply.Raised? && phase.Executing? {
        phase := R.Stopping(if reply.error.HookError? then R.FailedRun else R.UnknownOutcome);
      }
      tasks := tasks - {id};
    }

    method Reconcile(id: string) returns (r: Outcome<Evidence, R.RunError>)
      requires probe.run == run
      modifies this, adapter
      ensures (Contents(), SharedContents(), r) == R.Reconciling(old(Contents()), old(SharedContents()), id, probe.available)
    {
      if id in cached {
        return Returned(cached[id]);
      }
      if !phase.Done? {
        return Raised(R.NotTerminal);
      }
      if phase.status != R.UnknownOutcome {
        return Raised(R.NotUnknown);
      }
      var byId := ById(actions);
      if id !in byId {
        return Raised(R.NoSuchAction);
      }
      var evidence := probe.Reconcile(byId[id]);
      if evidence.status.Committed? {
        adapter.completed := adapter.completed + {(run, id)};
      } else if evidence.status.NotCommitted? {
        adapter.completed := adapter.completed - {(run, id)};
      }
      cached := cached[id := evidence];
      return Returned(evidence);
    }
  }
}
