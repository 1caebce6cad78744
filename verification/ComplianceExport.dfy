/** The compliance export: a Merkle checkpoint over the records, with every proof built and verified on the spot. */
module ComplianceExport {
  import opened Basics
  import opened Record
  import opened MerkleProofs
  import Hex

  datatype Status = Status(success: bool, errors: seq<ProofError>)

  datatype Verification = Verification(kind: string, success: bool, details: Option<ProofError>)

  datatype Entry = Entry(recordID: string, agentID: string, toolID: string, createdAt: int, recordHash: string)

  datatype Bundle = Bundle(
    status: Status, recordCount: nat, agentIDs: seq<string>,
    treeSize: nat, merkleRoot: string, previousSize: nat,
    inclusion: seq<Verification>, consistency: Option<Verification>, entries: seq<Entry>)

  // ---------------------------------------------------------------- what the export is made of

  /** A record without a hash gets one. */
  function Fill(h: Hashing, r: Record): Record {
    if r.recordHash == "" then WithHash(h, r) else r
  }

  function FillAll(h: Hashing, rs: seq<Record>): (f: seq<Record>)
    ensures |f| == |rs|
  {
    if rs == [] then [] else FillAll(h, rs[..|rs| - 1]) + [Fill(h, rs[|rs| - 1])]
  }

  predicate Decodable(rs: seq<Record>) {
    forall i :: 0 <= i < |rs| ==> Hex.Decode(rs[i].recordHash).Some?
  }

  /** The hashes of the records are all the hex of 32 bytes. */
  predicate Exportable(rs: seq<Record>) {
    forall i :: 0 <= i < |rs| ==> DecodeDigest(rs[i].recordHash).Ok?
  }

  function Leaves(rs: seq<Record>): (ls: seq<Bytes>)
    requires Decodable(rs)
    ensures |ls| == |rs|
  {
    if rs == [] then [] else Leaves(rs[..|rs| - 1]) + [Hex.Decode(rs[|rs| - 1].recordHash).value]
  }

  lemma {:induction false} LeafAt(rs: seq<Record>, i: nat)
    requires Decodable(rs) && i < |rs|
    ensures Leaves(rs)[i] == Hex.Decode(rs[i].recordHash).value
  {
    if i < |rs| - 1 {
      LeafAt(rs[..|rs| - 1], i);
    }
  }

  lemma LeavesAreDigests(rs: seq<Record>)
    requires Decodable(rs)
    ensures AllDigests(Leaves(rs)) <==> Exportable(rs)
  {
    forall i | 0 <= i < |rs|
      ensures |Leaves(rs)[i]| == DIGEST_SIZE <==> DecodeDigest(rs[i].recordHash).Ok?
    {
      LeafAt(rs, i);
    }
    if AllDigests(Leaves(rs)) {
      assert forall i :: 0 <= i < |rs| ==> |Leaves(rs)[i]| == DIGEST_SIZE;
    }
  }

  function Entries(rs: seq<Record>): seq<Entry> {
    if rs == [] then []
    else
      var r := rs[|rs| - 1];
      Entries(rs[..|rs| - 1])
      + [Entry(r.canon.recordID, r.canon.agentID, r.canon.toolID, r.canon.createdAt, r.recordHash)]
  }

  /** The agents of the records, each once, in order of first appearance. */
  function Agents(rs: seq<Record>): seq<string> {
    if rs == [] then []
    else
      var before := Agents(rs[..|rs| - 1]);
      if rs[|rs| - 1].canon.agentID in before then before else before + [rs[|rs| - 1].canon.agentID]
  }

  /** One agent has a record before the first of the other. */
  ghost predicate Before(rs: seq<Record>, a: string, b: string) {
    exists p :: 0 <= p < |rs| && rs[p].canon.agentID == a && forall q :: 0 <= q <= p ==> rs[q].canon.agentID != b
  }

  lemma BeforeMore(rs: seq<Record>, r: Record, a: string, b: string)
    requires Before(rs, a, b)
    ensures Before(rs + [r], a, b)
  {
    var p :| 0 <= p < |rs| && rs[p].canon.agentID == a && forall q :: 0 <= q <= p ==> rs[q].canon.agentID != b;
    assert (rs + [r])[p].canon.agentID == a;
  }

  lemma {:induction false} AgentsOnce(rs: seq<Record>)
    ensures forall i, j :: 0 <= i < j < |Agents(rs)| ==> Agents(rs)[i] != Agents(rs)[j]
    ensures forall a :: a in Agents(rs) <==> exists i :: 0 <= i < |rs| && rs[i].canon.agentID == a
  {
    if rs != [] {
      var before, last := rs[..|rs| - 1], rs[|rs| - 1];
      AgentsOnce(before);
      forall a
        ensures a in Agents(rs) <==> exists i :: 0 <= i < |rs| && rs[i].canon.agentID == a
      {
        if a in Agents(before) {
          var i :| 0 <= i < |before| && before[i].canon.agentID == a;
          assert rs[i].canon.agentID == a;
        }
        if i :| 0 <= i < |rs| && rs[i].canon.agentID == a {
          assert i < |before| ==> before[i].canon.agentID == a;
        }
      }
    }
  }

  /** The agents are listed in the order in which they first appear. */
  lemma {:induction false} AgentsInOrder(rs: seq<Record>, i: nat, j: nat)
    requires i < j < |Agents(rs)|
    ensures Before(rs, Agents(rs)[i], Agents(rs)[j])
  {
    var before, last := rs[..|rs| - 1], rs[|rs| - 1];
    assert rs == before + [last];
    var a, b := Agents(rs)[i], Agents(rs)[j];
    AgentsOnce(before);
    if j < |Agents(before)| {
      AgentsInOrder(before, i, j);
      BeforeMore(before, last, a, b);
    } else {
      assert a in Agents(before) && b !in Agents(before);
      var p :| 0 <= p < |before| && before[p].canon.agentID == a;
      assert rs[p].canon.agentID == a;
      assert forall q :: 0 <= q <= p ==> rs[q] == before[q] && before[q].canon.agentID != b;
    }
  }

  lemma {:induction false} EntryAt(rs: seq<Record>, i: nat)
    requires i < |rs|
    ensures |Entries(rs)| == |rs| && Lists(Entries(rs)[i], rs[i].canon) && Entries(rs)[i].recordHash == rs[i].recordHash
  {
    if |rs| > 1 {
      EntryAt(rs[..|rs| - 1], if i < |rs| - 1 then i else 0);
    }
  }

  predicate Lists(e: Entry, c: Canonical) {
    e.recordID == c.recordID && e.agentID == c.agentID && e.toolID == c.toolID && e.createdAt == c.createdAt
  }

  const INCLUDED := Verification("inclusion", true, None)
  const CONSISTENT := Verification("consistency", true, None)

  // ---------------------------------------------------------------- the export

  lemma CollectStep(h: Hashing, was: seq<Record>, rs: seq<Record>, i: nat, rec: Record)
    requires i < |was| && rs == FillAll(h, was[..i]) && rec == Fill(h, was[i]) && Decodable(rs)
    ensures rs + [rec] == FillAll(h, was[..i + 1])
    ensures Decodable(rs + [rec]) <==> Hex.Decode(rec.recordHash).Some?
    ensures Hex.Decode(rec.recordHash).Some? ==> Leaves(rs + [rec]) == Leaves(rs) + [Hex.Decode(rec.recordHash).value]
    ensures Entries(rs + [rec]) == Entries(rs)
      + [Entry(rec.canon.recordID, rec.canon.agentID, rec.canon.toolID, rec.canon.createdAt, rec.recordHash)]
    ensures Agents(rs + [rec])
      == if rec.canon.agentID in Agents(rs) then Agents(rs) else Agents(rs) + [rec.canon.agentID]
  {
    var all := rs + [rec];
    assert all[..|all| - 1] == rs && all[|rs|] == rec;
    assert was[..i + 1][..i] == was[..i];
  }

  /** Hashes are filled in, decoded and listed; the first hash that is no hex stops everything. */
  method Collect(h: Hashing, records: seq<Record>)
    returns (filled: seq<Record>, leaves: seq<Bytes>, entries: seq<Entry>, agentIDs: seq<string>, failed: bool)
    ensures failed <==> !Decodable(FillAll(h, records))
    ensures !failed ==>
      && filled == FillAll(h, records)
      && leaves == Leaves(filled) && entries == Entries(filled) && agentIDs == Agents(filled)
  {
    filled, leaves, entries, agentIDs, failed := [], [], [], [], false;
    for i := 0 to |records|
      invariant filled == FillAll(h, records[..i]) && Decodable(filled) && !failed
      invariant leaves == Leaves(filled) && entries == Entries(filled) && agentIDs == Agents(filled)
    {
      var rec := records[i];
      if rec.recordHash == "" {
        rec := WithHash(h, rec);
      }
      CollectStep(h, records, filled, i, rec);
      var decoded := Hex.Decode(rec.recordHash);
      if decoded.None? {
        failed := true;
        UndecodableStays(h, records, i);
        return;
      }
      filled := filled + [rec];
      leaves := leaves + [decoded.value];
      entries := entries
        + [Entry(rec.canon.recordID, rec.canon.agentID, rec.canon.toolID, rec.canon.createdAt, rec.recordHash)];
      if rec.canon.agentID !in agentIDs {
        agentIDs := agentIDs + [rec.canon.agentID];
      }
    }
    assert records[..|records|] == records;
  }

  lemma {:induction false} FillAt(h: Hashing, rs: seq<Record>, i: nat)
    requires i < |rs|
    ensures FillAll(h, rs)[i] == Fill(h, rs[i])
  {
    if i < |rs| - 1 {
      FillAt(h, rs[..|rs| - 1], i);
    }
  }

  lemma UndecodableStays(h: Hashing, was: seq<Record>, i: nat)
    requires i < |was| && Hex.Decode(FillAll(h, was[..i + 1])[i].recordHash).None?
    ensures !Decodable(FillAll(h, was))
  {
    FillAt(h, was[..i + 1], i);
    FillAt(h, was, i);
  }

  /** Each leaf's inclusion is proved and verified; whatever the leaves, every verification succeeds. */
  method VerifyInclusions(sha: Sha, leaves: seq<Digest>, root: Bytes, status: Status)
    returns (after: Status, inclusion: seq<Verification>)
    requires |leaves| <= MAX_LEN && (leaves != [] ==> root == TreeRoot(sha, leaves))
    ensures after == status && |inclusion| == |leaves|
    ensures forall i :: 0 <= i < |inclusion| ==> inclusion[i] == INCLUDED
  {
    after, inclusion := status, [];
    for i := 0 to |leaves|
      invariant after == status && |inclusion| == i
      invariant forall j :: 0 <= j < i ==> inclusion[j] == INCLUDED
    {
      var p := BuildInclusionProof(sha, leaves, i);
      match p {
        case Err(e) =>
          after := Status(false, after.errors + [e]);
          inclusion := inclusion + [Verification("inclusion", false, Some(e))];
        case Ok(proof) =>
          var v := VerifyInclusionProof(sha, proof, root);
          InclusionComplete(sha, leaves, i);
          match v {
            case Err(e) =>
              after := Status(false, after.errors + [e]);
              inclusion := inclusion + [Verification("inclusion", false, Some(e))];
            case Ok(ok) =>
              inclusion := inclusion + [Verification("inclusion", ok, None)];
          }
      }
    }
  }

  /** The consistency of the last step is proved and verified, and that succeeds too. */
  method VerifyLastStep(sha: Sha, leaves: seq<Digest>, status: Status)
    returns (after: Status, consistency: Verification, previousSize: nat)
    requires 1 < |leaves| <= MAX_LEN
    ensures after == status && consistency == CONSISTENT && previousSize == |leaves| - 1
  {
    after, previousSize := status, 0;
    var fromSize := |leaves| - 1;
    var cp := BuildConsistencyProof(sha, leaves, fromSize, |leaves|);
    assert leaves[..|leaves|] == leaves;
    match cp {
      case Err(e) =>
        after := Status(false, after.errors + [e]);
        consistency := Verification("consistency", false, Some(e));
      case Ok(proof) =>
        var v := VerifyConsistencyProof(sha, proof);
        ConsistencyComplete(sha, leaves, fromSize);
        match v {
          case Err(e) =>
            after := Status(false, after.errors + [e]);
            consistency := Verification("consistency", false, Some(e));
          case Ok(ok) =>
            consistency := Verification("consistency", ok, None);
        }
        previousSize := fromSize;
    }
  }

  /** What a successful export over records rs says. */
  ghost predicate Exports(h: Hashing, rs: seq<Record>, b: Bundle) {
    var n := |rs|;
    && Decodable(rs) && AllDigests(Leaves(rs))
    && b.status == Status(true, [])
    && |b.inclusion| == n && (forall i :: 0 <= i < n ==> b.inclusion[i] == INCLUDED)
    && b.consistency == (if n > 1 then Some(CONSISTENT) else None)
    && b.recordCount == b.treeSize == n && b.previousSize == (if n > 1 then n - 1 else 0)
    && b.merkleRoot == (if n == 0 then "" else Hex.Encode(TreeRoot(h.sha, Leaves(rs))))
    && b.entries == Entries(rs) && b.agentIDs == Agents(rs)
  }

  /**
   Every export over records whose hashes are the hex of 32 bytes succeeds: each record's inclusion is proved and
   verified against the checkpoint root, and so is the consistency of the last step. No other records are exported.
   The records come back with the hashes they were exported under.
   */
  method BuildComplianceExportBundle(h: Hashing, records: seq<Record>)
    returns (r: Result<Bundle, ProofError>, filled: seq<Record>)
    requires |records| <= MAX_LEN
    ensures r.Ok? <==> Exportable(FillAll(h, records))
    ensures r.Ok? ==> filled == FillAll(h, records) && Exports(h, filled, r.value)
  {
    var leaves, entries, agentIDs, failed;
    filled, leaves, entries, agentIDs, failed := Collect(h, records);
    if failed {
      return Err(BadHex), filled;
    }
    LeavesAreDigests(filled);
    var root := ComputeMerkleRoot(h.sha, leaves);
    if root.Err? {
      return Err(root.error), filled;
    }
    var rootHex := if |root.value| > 0 then Hex.Encode(root.value) else "";
    var status, inclusion := VerifyInclusions(h.sha, leaves, root.value, Status(true, []));
    var consistency, previousSize := None, 0;
    if |leaves| > 1 {
      var verification;
      status, verification, previousSize := VerifyLastStep(h.sha, leaves, status);
      consistency := Some(verification);
    }
    r := Ok(Bundle(status, |records|, agentIDs, |records|, rootHex, previousSize, inclusion, consistency, entries));
  }
  /**
   Each record is listed under its own fields and the hash it was stored with, whatever that is; a record stored without
   one is listed under the hash of its canonical form.
   */
  lemma ExportedAsStored(h: Hashing, records: seq<Record>, b: Bundle, i: nat)
    requires Exports(h, FillAll(h, records), b) && i < |records|
    ensures |b.entries| == |records| && Lists(b.entries[i], records[i].canon)
    ensures b.entries[i].recordHash ==
      if records[i].recordHash != "" then records[i].recordHash else Hex.Encode(h.sha(h.json(records[i].canon)))
  {
    EntryAt(FillAll(h, records), i);
    FillAt(h, records, i);
  }
}
