/** The Decision Provenance Record and what its hash commits to. */
module Record {
  import opened Basics
  import Hex

  /** The fields inside the canonical form, in its order. */
  datatype Canonical = Canonical(
    schemaVersion: string, fplVersion: string, carVersion: string, recordID: string,
    prevRecordHash: string, agentID: string, sessionID: string, toolID: string,
    interceptAdapter: string, executionTimeoutMS: int, principalIDHash: string,
    effect: string, matchedRuleID: string, reasonCode: string, denialToken: string,
    incidentCategory: string, incidentSeverity: string, policyVersion: string,
    argsStructuralSig: string, workflowPhase: string, credentialBrokered: bool,
    degradedMode: string, createdAt: int)

  /** Fields stored beside the canonical form, which the hash does not cover. */
  datatype Uncommitted = Uncommitted(
    hmacSig: string, reason: string, policySourceType: string, policySourceID: string,
    argProvenance: map<string, string>, customOperatorsEvaluated: seq<string>, operatorRegistryHash: string,
    phaseTransitionRecord: bool, credentialSource: string, credentialScope: string, executionEnvironment: string,
    invokedByAgentID: string, invokedByDPRID: string, innerGovernanceDPRID: string,
    callbacksFired: seq<string>, callbackErrors: seq<string>, batchApproval: bool, batchSize: int,
    batchDPRIDs: seq<string>, resolvedByBatch: bool, batchApprovalID: string)

  datatype Record = Record(canon: Canonical, recordHash: string, rest: Uncommitted)

  /**
   What the model takes from its surroundings: the JSON bytes of a canonical form, the bytes of a text, SHA-256.
   */
  datatype Hashing = Hashing(json: Canonical -> Bytes, text: string -> Bytes, sha: Sha)
  {
    function Of(c: Canonical): (h: string)
      ensures |h| == 2 * DIGEST_SIZE
    {
      Hex.EncodeLength(sha(json(c)));
      Hex.Encode(sha(json(c)))
    }

    function Genesis(agentID: string): (h: string)
      ensures |h| == 2 * DIGEST_SIZE
    {
      Hex.EncodeLength(sha(text(GENESIS_DOMAIN_SEPARATOR + ":" + agentID)));
      Hex.Encode(sha(text(GENESIS_DOMAIN_SEPARATOR + ":" + agentID)))
    }
  }

  const GENESIS_DOMAIN_SEPARATOR := "faramesh/dpr/genesis/v1"

  /** The record with its hash set from its canonical form. */
  function WithHash(h: Hashing, r: Record): Record {
    r.(recordHash := h.Of(r.canon))
  }
  /** The whole canonical form goes into the hash: only a collision of SHA-256 makes two forms hash alike. */
  lemma HashCoversForm(h: Hashing, c: Canonical, d: Canonical)
    ensures h.Of(c) == h.Of(d) <==> h.sha(h.json(c)) == h.sha(h.json(d))
  {
    if h.Of(c) == h.Of(d) {
      Hex.EncodeInjective(h.sha(h.json(c)), h.sha(h.json(d)));
    }
  }

  /** So does the whole agent ID into its genesis marker. */
  lemma GenesisCoversAgent(h: Hashing, c: Canonical, agentID: string)
    ensures h.Of(c) == h.Genesis(agentID)
      <==> h.sha(h.json(c)) == h.sha(h.text("faramesh/dpr/genesis/v1" + ":" + agentID))
  {
    if h.Of(c) == h.Genesis(agentID) {
      Hex.EncodeInjective(h.sha(h.json(c)), h.sha(h.text("faramesh/dpr/genesis/v1" + ":" + agentID)));
    }
  }
}
