/** Pauses and limits as a replay of the control receipts. */
module Controls {
  import opened Basics
  import opened JsonValues
  import opened RuntimeModels
  import opened Transactions

  function Member(json: Json, key: string): Json {
    if json.Obj? && key in json.members then json.members[key] else Null
  }

  function TextIn(json: Json): Option<string> {
    if json.Str? then Some(json.text) else None
  }

  function NatIn(json: Json): Option<nat> {
    if json.Int? && json.number >= 0 then Some(json.number) else None
  }

  function OrElse<T>(value: Option<T>, otherwise: T): T {
    if value.Some? then value.value else otherwise
  }

  function ScopeIn(json: Json): Scope {
    Scope(OrElse(TextIn(Member(json, "namespace")), ANY), OrElse(TextIn(Member(json, "tool_name")), ANY))
  }

  function DetailJson(r: ControlReceipt): Json {
    if r.detail.Encoded? then r.detail.json else Null
  }

  function DetailText(r: ControlReceipt): string {
    if r.detail.Raw? then r.detail.text else ""
  }

  /** The limit a control receipt is about. */
  function LimitIn(r: ControlReceipt): Option<string> {
    if r.event in {LimitConfigured, LimitDisabled} then TextIn(Member(DetailJson(r), "limit_id")) else None
  }

  function ConfiguredRow(r: ControlReceipt): LimitRow {
    var json := DetailJson(r);
    LimitRow(ScopeIn(r.scope), OrElse(NatIn(Member(json, "window_ns")), 0), NatIn(Member(json, "max_actions")),
             TextIn(Member(json, "value_argument")), NatIn(Member(json, "max_value")), true, r.timestamp, r.actor,
             OrElse(TextIn(Member(json, "reason")), ""))
  }

  function DisabledRow(row: LimitRow, r: ControlReceipt): LimitRow {
    row.(enabled := false, updatedAt := r.timestamp, updatedBy := r.actor,
         reason := OrElse(TextIn(Member(DetailJson(r), "reason")), ""))
  }

  function ReplayPauses(controls: seq<ControlReceipt>): map<Scope, Pause> {
    if controls == [] then map[]
    else
      var earlier := ReplayPauses(controls[..|controls| - 1]);
      var r := controls[|controls| - 1];
      match r.event
      case PauseSet => earlier[ScopeIn(r.scope) := Pause(r.timestamp, r.actor, DetailText(r))]
      case PauseCleared => earlier - {ScopeIn(r.scope)}
      case _ => earlier
  }

  function ReplayLimits(controls: seq<ControlReceipt>): map<string, LimitRow> {
    if controls == [] then map[]
    else
      var earlier := ReplayLimits(controls[..|controls| - 1]);
      var r := controls[|controls| - 1];
      var id := LimitIn(r);
      if id.None? then earlier
      else if r.event == LimitConfigured then earlier[id.value := ConfiguredRow(r)]
      else if id.value in earlier then earlier[id.value := DisabledRow(earlier[id.value], r)]
      else earlier
  }

  /** The control tables hold what their receipts say. */
  predicate ControlsReplayed(t: Tables) {
    t.pauses == ReplayPauses(t.controls) && t.limits == ReplayLimits(t.controls)
  }

  lemma ScopeRoundTrip(scope: Scope)
    ensures ScopeIn(ScopeJson(scope)) == scope
  {
  }

  lemma SetPauseReplayed(t: Tables, actor: string, reason: string, namespace: Option<string>, tool: Option<string>,
                         now: nat)
    requires ControlsReplayed(t)
    ensures ControlsReplayed(SetPause(t, actor, reason, namespace, tool, now).tables)
  {
    var t1 := SetPause(t, actor, reason, namespace, tool, now).tables;
    if t1 != t {
      assert t1.controls[..|t.controls|] == t.controls;
      ScopeRoundTrip(ScopeOf(namespace, tool));
    }
  }

  lemma ClearPauseReplayed(t: Tables, actor: string, reason: string, namespace: Option<string>, tool: Option<string>,
                           now: nat)
    requires ControlsReplayed(t)
    ensures ControlsReplayed(ClearPause(t, actor, reason, namespace, tool, now).tables)
  {
    var t1 := ClearPause(t, actor, reason, namespace, tool, now).tables;
    if t1 != t {
      assert t1.controls[..|t.controls|] == t.controls;
      ScopeRoundTrip(ScopeOf(namespace, tool));
    }
  }

  /** A configuration receipt carries the whole limit. */
  lemma LimitRoundTrip(limitId: string, limit: Limit, r: ControlReceipt)
    requires r.event == LimitConfigured && r.scope == ScopeJson(limit.scope) && r.detail == Encoded(LimitDetail(limitId, limit))
    requires limit.enabled && r.timestamp == limit.updatedAt && r.actor == limit.updatedBy
    ensures LimitIn(r) == Some(limitId) && ConfiguredRow(r) == limit
  {
    ScopeRoundTrip(limit.scope);
    var json := LimitDetail(limitId, limit);
    assert Member(json, "limit_id") == Str(limitId) && Member(json, "reason") == Str(limit.reason);
    assert Member(json, "window_ns") == Int(limit.window);
    assert Member(json, "max_actions") == IntOrNull(limit.maxActions);
    assert Member(json, "max_value") == IntOrNull(limit.maxValue);
    assert Member(json, "value_argument") == TextOrNull(limit.valueArgument);
  }

  lemma ConfigureReplayed(t: Tables, limitId: string, spec: LimitSpec, actor: string, reason: string, now: nat)
    requires ControlsReplayed(t)
    ensures ControlsReplayed(ConfigureLimit(t, limitId, spec, actor, reason, now).tables)
  {
    var tx := ConfigureLimit(t, limitId, spec, actor, reason, now);
    if tx.reply.Returned? {
      var t1, limit := tx.tables, tx.reply.value;
      assert t1.controls[..|t.controls|] == t.controls;
      LimitRoundTrip(limitId, limit, t1.controls[|t.controls|]);
    }
  }

  lemma DisableReplayed(t: Tables, limitId: string, actor: string, reason: string, now: nat)
    requires ControlsReplayed(t)
    ensures ControlsReplayed(DisableLimit(t, limitId, actor, reason, now).tables)
  {
    var t1 := DisableLimit(t, limitId, actor, reason, now).tables;
    if t1 != t {
      assert t1.controls[..|t.controls|] == t.controls;
    }
  }

  // ---------- pauses at a claim ----------

  /** No covering scope is paused exactly when nothing matches; otherwise the match is a narrowest paused scope. */
  lemma MatchIsNarrowest(pauses: map<Scope, Pause>, row: Action)
    ensures MatchingPause(pauses, row).None? <==> forall scope | scope in pauses :: !Covers(scope, row)
    ensures var m := MatchingPause(pauses, row);
            m.Some? ==>
              && Covers(m.value, row)
              && forall scope | scope in pauses && Covers(scope, row) ::
                   Specificity(scope) < Specificity(m.value)
                   || (Specificity(scope) == Specificity(m.value) && pauses[scope].pausedAt <= pauses[m.value].pausedAt)
  {
    forall scope | scope in pauses && Covers(scope, row)
      ensures scope in {Scope(row.namespace, row.tool), Scope(row.namespace, ANY), Scope(ANY, row.tool), Scope(ANY, ANY)}
    {
    }
  }
}
