/** Actions that an agent proposes for one run. */
module AgentActions {
  import opened Basics
  import opened JsonValues

  datatype ActionRequest = ActionRequest(id: string, tool: string, arguments: map<string, Json>, gated: bool, parent: Option<string>)

  /** SHA-256 of the canonical identity, as the injective term it encodes. */
  datatype ActionDigest = ActionDigest(id: string, tool: string, arguments: map<string, Json>)

  function DigestOf(action: ActionRequest): ActionDigest {
    ActionDigest(action.id, action.tool, action.arguments)
  }

  datatype EvidenceStatus = Committed | NotCommitted | Conflict | Unavailable

  /** What a lookup by stable identity says about an effect. */
  datatype Evidence = Evidence(actionId: string, status: EvidenceStatus, expected: ActionDigest, observed: seq<ActionDigest>)
}
