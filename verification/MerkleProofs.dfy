/** Inclusion and consistency proofs as exchanged: hex text, 64-bit sizes, every rejection. */
module MerkleProofs {
  import opened Basics
  import Hex
  import Merkle
  import MerkleSizes

  const VERSION_V1 := "v1"
  const ALGO_SHA256 := "sha256"
  const TWO_TO_THE_64: nat := 0x1_0000_0000_0000_0000
  const MAX_LEN := Merkle.MAX_LEN

  type uint64 = n: int | 0 <= n < TWO_TO_THE_64

  datatype InclusionProof = InclusionProof(
    version: string, hashAlgorithm: string, treeSize: uint64, leafIndex: uint64,
    leafHash: string, hashes: seq<string>)

  datatype ConsistencyProof = ConsistencyProof(
    version: string, hashAlgorithm: string, fromTreeSize: uint64, toTreeSize: uint64,
    fromRootHash: string, toRootHash: string, hashes: seq<string>)

  datatype ProofError =
    | LeafIndexOutOfRange | UnsupportedVersion | UnsupportedAlgorithm
    | BadLeafLength(index: nat) | BadRootLength | BadHex | BadHashLength
    | TooFewHashes | ExtraHashes | BadTreeSize | BadHashCount

  // ---------------------------------------------------------------- hashing and hex

  const NODE_PREFIX: Bytes := [1]

  /** An inner node: SHA-256 of 0x01, the left child and the right child. */
  function HashChildren(sha: Sha, left: Digest, right: Digest): Digest {
    sha(NODE_PREFIX + left + right)
  }

  function NodeHash(sha: Sha): Merkle.Hasher<Digest> {
    (l: Digest, r: Digest) => HashChildren(sha, l, r)
  }

  /** Different children give SHA-256 different inputs, so a clash between nodes is one of SHA-256. */
  lemma NodeInputInjective(l: Digest, r: Digest, l': Digest, r': Digest)
    requires NODE_PREFIX + l + r == NODE_PREFIX + l' + r'
    ensures l == l' && r == r'
  {
    var x, y := NODE_PREFIX + l + r, NODE_PREFIX + l' + r';
    assert l == x[1..33] && l' == y[1..33];
    assert r == x[33..] && r' == y[33..];
  }

  /** What section 2.1 of RFC 6962 has SHA-256 applied to for a node. */
  ghost function NodeInput(pair: (Digest, Digest)): Bytes {
    [1] + pair.0 + pair.1
  }

  /** Collision-freeness of SHA-256, assumed only between the node inputs of two given computations. */
  ghost predicate NoShaClash(sha: Sha, xs: set<(Digest, Digest)>, ys: set<(Digest, Digest)>) {
    forall x, y :: x in xs && y in ys && sha(NodeInput(x)) == sha(NodeInput(y)) ==> NodeInput(x) == NodeInput(y)
  }

  lemma NodesDoNotClash(sha: Sha, xs: set<(Digest, Digest)>, ys: set<(Digest, Digest)>)
    requires NoShaClash(sha, xs, ys)
    ensures Merkle.NoClash<Digest>(NodeHash(sha), xs, ys)
  {
    forall x, y | x in xs && y in ys && NodeHash(sha)(x.0, x.1) == NodeHash(sha)(y.0, y.1)
      ensures x == y
    {
      assert NodeInput(x) == NodeInput(y);
      NodeInputInjective(x.0, x.1, y.0, y.1);
    }
  }

  function DecodeDigest(s: string): Result<Digest, ProofError> {
    match Hex.Decode(s)
    case None => Err(BadHex)
    case Some(b) => if |b| != DIGEST_SIZE then Err(BadHashLength) else Ok(b)
  }

  function Prepend(ds: seq<Digest>, r: Result<seq<Digest>, ProofError>): Result<seq<Digest>, ProofError> {
    if r.Err? then r else Ok(ds + r.value)
  }

  function DecodeDigests(ss: seq<string>): (r: Result<seq<Digest>, ProofError>)
    ensures r.Ok? ==> |r.value| == |ss|
  {
    if ss == [] then Ok([])
    else match DecodeDigest(ss[0])
      case Err(e) => Err(e)
      case Ok(d) => Prepend([d], DecodeDigests(ss[1..]))
  }

  function EncodeDigests(ds: seq<Digest>): seq<string> {
    if ds == [] then [] else [Hex.Encode(ds[0])] + EncodeDigests(ds[1..])
  }

  lemma {:induction false} DecodeEncodeDigests(ds: seq<Digest>)
    ensures DecodeDigests(EncodeDigests(ds)) == Ok(ds)
  {
    if ds != [] {
      Hex.DecodeEncode(ds[0]);
      DecodeEncodeDigests(ds[1..]);
      assert EncodeDigests(ds)[1..] == EncodeDigests(ds[1..]);
      assert [ds[0]] + ds[1..] == ds;
    }
  }

  // ---------------------------------------------------------------- roots

  /** The tree hash of section 2.1 of RFC 6962, over leaves that are digests already. */
  function TreeRoot(sha: Sha, leaves: seq<Digest>): Digest
    requires leaves != []
  {
    Merkle.TreeHash<Digest>(NodeHash(sha), leaves)
  }

  /**
   The equations of section 2.1 of RFC 6962 for the tree hash: a single leaf is its own, and more are hashed from the
   left part, as many as the largest power of two below their number, and the right part, behind the prefix 0x01.
   */
  lemma RootEquations(sha: Sha, leaves: seq<Digest>, k: nat)
    requires leaves != []
    ensures |leaves| == 1 ==> TreeRoot(sha, leaves) == leaves[0]
    ensures Merkle.PowerOfTwo(k) && k < |leaves| <= 2 * k ==>
      TreeRoot(sha, leaves) == sha([1] + TreeRoot(sha, leaves[..k]) + TreeRoot(sha, leaves[k..]))
  {
    if Merkle.PowerOfTwo(k) && k < |leaves| <= 2 * k {
      Merkle.SplitPointIsPower(|leaves|);
      Merkle.PowersApart(k, Merkle.SplitPoint(|leaves|), |leaves|);
    }
  }

  /** The audit path of section 2.1.1 of RFC 6962. */
  function RfcPath(sha: Sha, m: nat, leaves: seq<Digest>): seq<Digest>
    requires m < |leaves|
  {
    Merkle.Path<Digest>(NodeHash(sha), m, leaves)
  }

  predicate AllDigests(leaves: seq<Bytes>) {
    forall i :: 0 <= i < |leaves| ==> |leaves[i]| == DIGEST_SIZE
  }

  /** The leaves as digests, or the first leaf of another length. */
  method CloneLevel(leaves: seq<Bytes>) returns (r: Result<seq<Digest>, ProofError>)
    ensures AllDigests(leaves) ==> r == Ok(leaves)
    ensures !AllDigests(leaves) ==>
      && r.Err? && r.error.BadLeafLength? && r.error.index < |leaves|
      && |leaves[r.error.index]| != DIGEST_SIZE && AllDigests(leaves[..r.error.index])
  {
    var out: seq<Digest> := [];
    for i := 0 to |leaves|
      invariant out == leaves[..i]
      invariant AllDigests(leaves[..i])
    {
      if |leaves[i]| != DIGEST_SIZE {
        return Err(BadLeafLength(i));
      }
      out := out + [leaves[i]];
    }
    assert leaves[..|leaves|] == leaves;
    return Ok(out);
  }

  method BuildParentLevel(sha: Sha, level: seq<Digest>) returns (next: seq<Digest>)
    ensures next == Merkle.Parents<Digest>(NodeHash(sha), level)
  {
    next := [];
    var i := 0;
    while i < |level|
      invariant 0 <= i <= |level| + 1
      invariant next + ParentsFrom(sha, level, i) == ParentsFrom(sha, level, 0)
    {
      ParentsFromStep(sha, next, level, i);
      if i + 1 >= |level| {
        next := next + [level[i]];
      } else {
        next := next + [HashChildren(sha, level[i], level[i + 1])];
      }
      i := i + 2;
    }
    assert next + [] == next && level[0..] == level;
  }

  ghost function ParentsFrom(sha: Sha, level: seq<Digest>, i: nat): seq<Digest> {
    if i < |level| then Merkle.Parents<Digest>(NodeHash(sha), level[i..]) else []
  }

  lemma ParentsFromStep(sha: Sha, done: seq<Digest>, level: seq<Digest>, i: nat)
    requires i < |level|
    ensures i + 1 >= |level| ==>
      done + ParentsFrom(sha, level, i) == (done + [level[i]]) + ParentsFrom(sha, level, i + 2)
    ensures i + 1 < |level| ==>
      done + ParentsFrom(sha, level, i)
        == (done + [HashChildren(sha, level[i], level[i + 1])]) + ParentsFrom(sha, level, i + 2)
  {
    var rest := level[i..];
    if i + 1 < |level| {
      assert rest[2..] == level[i + 2..];
      assert i + 2 == |level| ==> rest[2..] == [];
      AppendAssociates<Digest>(
        done, [HashChildren(sha, level[i], level[i + 1])], ParentsFrom(sha, level, i + 2));
    } else {
      assert rest == [level[i]];
    }
  }

  /** nil for no leaves, else the tree hash of section 2.1 of RFC 6962 over the given digests. */
  method ComputeMerkleRoot(sha: Sha, leafHashes: seq<Bytes>) returns (r: Result<Bytes, ProofError>)
    ensures leafHashes == [] ==> r == Ok([])
    ensures leafHashes != [] && AllDigests(leafHashes) ==> r == Ok(TreeRoot(sha, leafHashes))
    ensures !AllDigests(leafHashes) ==> r.Err? && r.error.BadLeafLength?
  {
    if |leafHashes| == 0 {
      return Ok([]);
    }
    var cloned := CloneLevel(leafHashes);
    if cloned.Err? {
      return Err(cloned.error);
    }
    var level := cloned.value;
    Merkle.RootIsTreeHash<Digest>(NodeHash(sha), level);
    while |level| > 1
      invariant level != [] && Merkle.Root<Digest>(NodeHash(sha), level) == TreeRoot(sha, cloned.value)
      decreases |level|
    {
      level := BuildParentLevel(sha, level);
    }
    return Ok(level[0]);
  }

  // ---------------------------------------------------------------- inclusion

  /** The proof carries the leaf and the audit path of section 2.1.1 of RFC 6962. */
  method BuildInclusionProof(sha: Sha, leafHashes: seq<Bytes>, leafIndex: uint64)
    returns (r: Result<InclusionProof, ProofError>)
    requires |leafHashes| <= MAX_LEN
    ensures leafIndex >= |leafHashes| ==> r == Err(LeafIndexOutOfRange)
    ensures leafIndex < |leafHashes| && !AllDigests(leafHashes) ==> r.Err? && r.error.BadLeafLength?
    ensures leafIndex < |leafHashes| && AllDigests(leafHashes) ==>
      r == Ok(HonestInclusionProof(sha, leafHashes, leafIndex))
  {
    if |leafHashes| == 0 || leafIndex >= |leafHashes| {
      return Err(LeafIndexOutOfRange);
    }
    var cloned := CloneLevel(leafHashes);
    if cloned.Err? {
      return Err(cloned.error);
    }
    var siblings := SiblingHashes(sha, cloned.value, leafIndex);
    return Ok(InclusionProof(
      VERSION_V1, ALGO_SHA256, |leafHashes|, leafIndex, Hex.Encode(leafHashes[leafIndex]), siblings));
  }

  method SiblingHashes(sha: Sha, leaves: seq<Digest>, leafIndex: uint64) returns (siblings: seq<string>)
    requires leafIndex < |leaves|
    ensures siblings == EncodeDigests(RfcPath(sha, leafIndex, leaves))
  {
    var level, idx := leaves, leafIndex;
    siblings := [];
    Merkle.AuditPathIsRfcPath<Digest>(NodeHash(sha), level, idx);
    while |level| > 1
      invariant 0 <= idx < |level|
      invariant siblings + Emitted(sha, level, idx) == Emitted(sha, leaves, leafIndex)
      decreases |level|
    {
      EmittedStep(sha, siblings, level, idx);
      assert siblings + [] == siblings;
      if idx % 2 == 0 {
        if idx + 1 < |level| {
          siblings := siblings + [Hex.Encode(level[idx + 1])];
        }
      } else {
        siblings := siblings + [Hex.Encode(level[idx - 1])];
      }
      level := BuildParentLevel(sha, level);
      idx := idx / 2;
    }
    assert siblings + [] == siblings;
  }

  /** The hashes still to be emitted from a level. */
  ghost function Emitted(sha: Sha, level: seq<Digest>, idx: nat): seq<string>
    requires idx < |level|
  {
    EncodeDigests(Merkle.AuditPath<Digest>(NodeHash(sha), level, idx))
  }

  lemma {:induction false} EncodeDigestsConcat(ds: seq<Digest>, es: seq<Digest>)
    ensures EncodeDigests(ds + es) == EncodeDigests(ds) + EncodeDigests(es)
  {
    if ds == [] {
      assert ds + es == es;
    } else {
      EncodeDigestsConcat(ds[1..], es);
      assert (ds + es)[1..] == ds[1..] + es;
    }
  }

  ghost function SiblingText(level: seq<Digest>, idx: nat): seq<string>
    requires idx < |level|
  {
    if idx % 2 == 1 then [Hex.Encode(level[idx - 1])]
    else if idx + 1 < |level| then [Hex.Encode(level[idx + 1])]
    else []
  }

  lemma EmittedStep(sha: Sha, done: seq<string>, level: seq<Digest>, idx: nat)
    requires idx < |level| && |level| > 1
    ensures done + Emitted(sha, level, idx) ==
      (done + SiblingText(level, idx)) + Emitted(sha, Merkle.Parents<Digest>(NodeHash(sha), level), idx / 2)
  {
    var sibling := Merkle.Sibling<Digest>(level, idx);
    var rest := Merkle.AuditPath<Digest>(NodeHash(sha), Merkle.Parents<Digest>(NodeHash(sha), level), idx / 2);
    assert EncodeDigests(sibling + rest) == EncodeDigests(sibling) + EncodeDigests(rest) by {
      EncodeDigestsConcat(sibling, rest);
    }
    assert EncodeDigests(sibling) == SiblingText(level, idx);
    AppendAssociates(done, SiblingText(level, idx), EncodeDigests(rest));
  }

  ghost function HonestInclusionProof(sha: Sha, leaves: seq<Digest>, idx: uint64): InclusionProof
    requires idx < |leaves| <= MAX_LEN
  {
    InclusionProof(VERSION_V1, ALGO_SHA256, |leaves|, idx, Hex.Encode(leaves[idx]),
      EncodeDigests(RfcPath(sha, idx, leaves)))
  }

  /** The verifier's climb from a leaf towards the root: hashes are decoded as they are needed. */
  function Climb(sha: Sha, cur: Digest, idx: uint64, width: uint64, hashes: seq<string>): Result<Digest, ProofError>
    decreases width
  {
    if width <= 1 then
      if hashes == [] then Ok(cur) else Err(ExtraHashes)
    else if Merkle.HasSibling(idx, width) then
      if hashes == [] then Err(TooFewHashes)
      else match DecodeDigest(hashes[0])
        case Err(e) => Err(e)
        case Ok(sib) =>
          var up := if idx % 2 == 0 then HashChildren(sha, cur, sib) else HashChildren(sha, sib, cur);
          Climb(sha, up, idx / 2, Merkle.HalveUp(width), hashes[1..])
    else Climb(sha, cur, idx / 2, Merkle.HalveUp(width), hashes)
  }

  /** A climb succeeds when every hash decodes and the climb over the decoded hashes does. */
  lemma {:induction false} ClimbDecodes(
    sha: Sha, cur: Digest, idx: uint64, width: uint64, hashes: seq<string>, top: Digest)
    ensures Climb(sha, cur, idx, width, hashes) == Ok(top) <==>
      && DecodeDigests(hashes).Ok?
      && Merkle.Climb<Digest>(NodeHash(sha), cur, idx, width, DecodeDigests(hashes).value) == Some(top)
    decreases width
  {
    if width > 1 {
      if !Merkle.HasSibling(idx, width) {
        ClimbDecodes(sha, cur, idx / 2, Merkle.HalveUp(width), hashes, top);
      } else if hashes != [] && DecodeDigest(hashes[0]).Ok? {
        var sib := DecodeDigest(hashes[0]).value;
        var up := if idx % 2 == 0 then HashChildren(sha, cur, sib) else HashChildren(sha, sib, cur);
        ClimbDecodes(sha, up, idx / 2, Merkle.HalveUp(width), hashes[1..], top);
        if DecodeDigests(hashes).Ok? {
          assert DecodeDigests(hashes).value[1..] == DecodeDigests(hashes[1..]).value;
        }
      }
    }
  }

  function InclusionVerdict(sha: Sha, proof: InclusionProof, rootHash: Bytes): Result<bool, ProofError> {
    if proof.version != VERSION_V1 then Err(UnsupportedVersion)
    else if proof.hashAlgorithm != ALGO_SHA256 then Err(UnsupportedAlgorithm)
    else if proof.treeSize == 0 || proof.leafIndex >= proof.treeSize then Err(LeafIndexOutOfRange)
    else if |rootHash| != DIGEST_SIZE then Err(BadRootLength)
    else match DecodeDigest(proof.leafHash)
      case Err(e) => Err(e)
      case Ok(leaf) =>
        match Climb(sha, leaf, proof.leafIndex, proof.treeSize, proof.hashes)
        case Err(e) => Err(e)
        case Ok(top) => Ok(top == rootHash)
  }

  /** How many levels on the way up have a sibling. */
  function SiblingCount(idx: nat, width: nat): nat
    decreases width
  {
    if width <= 1 then 0
    else SiblingCount(idx / 2, Merkle.HalveUp(width)) + (if Merkle.HasSibling(idx, width) then 1 else 0)
  }

  /** Of the largest size that a proof can claim the next width wraps to zero, so that one level is climbed at most. */
  lemma LargestClaimWraps(idx: nat)
    requires idx < 0xffff_ffff_ffff_ffff
    ensures SiblingCount(idx, 0xffff_ffff_ffff_ffff) == if idx == 0xffff_ffff_ffff_fffe then 0 else 1
  {
    assert SiblingCount(idx / 2, 0) == 0;
  }

  /** The hashes that a climb looks at. */
  function Looked(hashes: seq<string>, count: nat): seq<string> {
    if |hashes| <= count then hashes else hashes[..count]
  }

  /** A climb fails for the first hash it looks at that is no digest, else for their number, and for nothing else. */
  lemma {:induction false} ClimbOutcome(sha: Sha, cur: Digest, idx: uint64, width: uint64, hashes: seq<string>)
    ensures var k, r := SiblingCount(idx, width), Climb(sha, cur, idx, width, hashes);
      match DecodeDigests(Looked(hashes, k))
      case Err(e) => r == Err(e)
      case Ok(_) =>
        if |hashes| < k then r == Err(TooFewHashes) else if |hashes| > k then r == Err(ExtraHashes) else r.Ok?
    decreases width
  {
    if width > 1 {
      var k, up := SiblingCount(idx, width), SiblingCount(idx / 2, Merkle.HalveUp(width));
      if !Merkle.HasSibling(idx, width) {
        ClimbOutcome(sha, cur, idx / 2, Merkle.HalveUp(width), hashes);
      } else if hashes != [] {
        LookedNext(hashes, up);
        if DecodeDigest(hashes[0]).Ok? {
          var sib := DecodeDigest(hashes[0]).value;
          var node := if idx % 2 == 0 then HashChildren(sha, cur, sib) else HashChildren(sha, sib, cur);
          ClimbOutcome(sha, node, idx / 2, Merkle.HalveUp(width), hashes[1..]);
        }
      }
    }
  }

  lemma LookedNext(hashes: seq<string>, count: nat)
    requires hashes != []
    ensures Looked(hashes, count + 1)[1..] == Looked(hashes[1..], count)
    ensures Looked(hashes, count + 1) != [] && Looked(hashes, count + 1)[0] == hashes[0]
  {
  }

  /** The header of a proof: its version, its algorithm and its position. */
  predicate HeaderOk(proof: InclusionProof) {
    proof.version == "v1" && proof.hashAlgorithm == "sha256" && proof.leafIndex < proof.treeSize
  }

  /**
   The verifier comes to a verdict on a proof exactly when its header is right, the root and the leaf are 32 bytes, and
   it has a digest for each sibling on the way up, no fewer and no more; a wrong number is told as what it is.
   */
  lemma InclusionDecidedIff(sha: Sha, proof: InclusionProof, rootHash: Bytes)
    ensures InclusionVerdict(sha, proof, rootHash).Ok? <==>
      && HeaderOk(proof) && |rootHash| == 32 && DecodeDigest(proof.leafHash).Ok? && DecodeDigests(proof.hashes).Ok?
      && |proof.hashes| == SiblingCount(proof.leafIndex, proof.treeSize)
    ensures HeaderOk(proof) && |rootHash| == 32 && DecodeDigest(proof.leafHash).Ok? && DecodeDigests(proof.hashes).Ok?
      ==> (InclusionVerdict(sha, proof, rootHash) == Err(TooFewHashes)
           <==> |proof.hashes| < SiblingCount(proof.leafIndex, proof.treeSize))
    ensures proof.version != "v1" ==> InclusionVerdict(sha, proof, rootHash) == Err(UnsupportedVersion)
    ensures proof.version == "v1" && proof.hashAlgorithm != "sha256" ==>
      InclusionVerdict(sha, proof, rootHash) == Err(UnsupportedAlgorithm)
    ensures proof.version == "v1" && proof.hashAlgorithm == "sha256" && proof.leafIndex >= proof.treeSize ==>
      InclusionVerdict(sha, proof, rootHash) == Err(LeafIndexOutOfRange)
    ensures HeaderOk(proof) && |rootHash| != 32 ==> InclusionVerdict(sha, proof, rootHash) == Err(BadRootLength)
  {
    var k := SiblingCount(proof.leafIndex, proof.treeSize);
    if DecodeDigest(proof.leafHash).Ok? {
      ClimbOutcome(sha, DecodeDigest(proof.leafHash).value, proof.leafIndex, proof.treeSize, proof.hashes);
    }
    if DecodeDigests(proof.hashes).Ok? {
      FrontDecodes(proof.hashes, k);
    }
  }

  lemma {:induction false} FrontDecodes(hashes: seq<string>, count: nat)
    requires DecodeDigests(hashes).Ok?
    ensures DecodeDigests(Looked(hashes, count)).Ok?
  {
    if hashes != [] && count > 0 {
      LookedNext(hashes, count - 1);
      FrontDecodes(hashes[1..], count - 1);
    }
  }

  method VerifyInclusionProof(sha: Sha, proof: InclusionProof, rootHash: Bytes) returns (r: Result<bool, ProofError>)
    ensures r == InclusionVerdict(sha, proof, rootHash)
  {
    if proof.version != VERSION_V1 {
      return Err(UnsupportedVersion);
    }
    if proof.hashAlgorithm != ALGO_SHA256 {
      return Err(UnsupportedAlgorithm);
    }
    if proof.treeSize == 0 || proof.leafIndex >= proof.treeSize {
      return Err(LeafIndexOutOfRange);
    }
    if |rootHash| != DIGEST_SIZE {
      return Err(BadRootLength);
    }
    var leaf := DecodeDigest(proof.leafHash);
    if leaf.Err? {
      return Err(leaf.error);
    }
    var cur: Digest := leaf.value;
    var idx: uint64, levelWidth: uint64, sibPos := proof.leafIndex, proof.treeSize, 0;
    ghost var verdict := Climb(sha, cur, idx, levelWidth, proof.hashes);
    while levelWidth > 1
      invariant 0 <= sibPos <= |proof.hashes|
      invariant verdict == Climb(sha, cur, idx, levelWidth, proof.hashes[sibPos..])
      decreases levelWidth
    {
      var hasSibling := Merkle.HasSibling(idx, levelWidth);
      if hasSibling {
        if sibPos >= |proof.hashes| {
          return Err(TooFewHashes);
        }
        var sib := DecodeDigest(proof.hashes[sibPos]);
        if sib.Err? {
          return Err(sib.error);
        }
        if idx % 2 == 0 {
          cur := HashChildren(sha, cur, sib.value);
        } else {
          cur := HashChildren(sha, sib.value, cur);
        }
        sibPos := sibPos + 1;
      }
      idx := idx / 2;
      levelWidth := Merkle.HalveUp(levelWidth);
    }
    if sibPos != |proof.hashes| {
      return Err(ExtraHashes);
    }
    return Ok(cur == rootHash);
  }

  /** What a well-formed proof of leaves[leafIndex] says once its hex is decoded. */
  ghost predicate ProvesLeaf(sha: Sha, leaves: seq<Digest>, proof: InclusionProof)
    requires proof.leafIndex < |leaves|
  {
    && proof.version == VERSION_V1 && proof.hashAlgorithm == ALGO_SHA256
    && DecodeDigest(proof.leafHash) == Ok(leaves[proof.leafIndex])
    && DecodeDigests(proof.hashes) == Ok(RfcPath(sha, proof.leafIndex, leaves))
  }

  ghost function InclusionInputs(sha: Sha, proof: InclusionProof): set<(Digest, Digest)> {
    match (DecodeDigest(proof.leafHash), DecodeDigests(proof.hashes))
    case (Ok(leaf), Ok(hashes)) =>
      Merkle.ClimbInputs<Digest>(NodeHash(sha), leaf, proof.leafIndex, proof.treeSize, hashes)
    case _ => {}
  }

  /**
   Against the root of leaves, the verifier accepts a proof for |leaves| exactly when it carries the leaf
   at its index and that leaf's audit path: nothing else is accepted, and the honest proof always is.
   */
  lemma InclusionExact(sha: Sha, leaves: seq<Digest>, proof: InclusionProof)
    requires 0 < |leaves| <= MAX_LEN && proof.treeSize == |leaves| && proof.leafIndex < |leaves|
    requires NoShaClash(sha, Merkle.TreeInputs<Digest>(NodeHash(sha), leaves), InclusionInputs(sha, proof))
    ensures InclusionVerdict(sha, proof, TreeRoot(sha, leaves)) == Ok(true) <==> ProvesLeaf(sha, leaves, proof)
  {
    var h, idx, root := NodeHash(sha), proof.leafIndex, TreeRoot(sha, leaves);
    NodesDoNotClash(sha, Merkle.TreeInputs<Digest>(h, leaves), InclusionInputs(sha, proof));
    if DecodeDigest(proof.leafHash).Ok? {
      var leaf := DecodeDigest(proof.leafHash).value;
      ClimbDecodes(sha, leaf, idx, proof.treeSize, proof.hashes, root);
      if DecodeDigests(proof.hashes).Ok? {
        ClimbIffPath(sha, leaves, idx, leaf, DecodeDigests(proof.hashes).value);
      }
    }
  }

  lemma ClimbIffPath(sha: Sha, leaves: seq<Digest>, idx: uint64, leaf: Digest, hashes: seq<Digest>)
    requires idx < |leaves| <= MAX_LEN
    requires Merkle.NoClash<Digest>(NodeHash(sha), Merkle.TreeInputs<Digest>(NodeHash(sha), leaves),
      Merkle.ClimbInputs<Digest>(NodeHash(sha), leaf, idx, |leaves|, hashes))
    ensures Merkle.Climb<Digest>(NodeHash(sha), leaf, idx, |leaves|, hashes) == Some(TreeRoot(sha, leaves))
      <==> leaf == leaves[idx] && hashes == RfcPath(sha, idx, leaves)
  {
    var h := NodeHash(sha);
    Merkle.RootIsTreeHash<Digest>(h, leaves);
    Merkle.AuditPathIsRfcPath<Digest>(h, leaves, idx);
    Merkle.ClimbComplete<Digest>(h, leaves, idx);
    if Merkle.Climb<Digest>(h, leaf, idx, |leaves|, hashes) == Some(TreeRoot(sha, leaves)) {
      Merkle.ClimbSound<Digest>(h, leaves, idx, leaf, hashes);
    }
  }

  /** The proof shows the part of the tree that its index and the size it claims lead to. */
  ghost predicate ProvesPart(sha: Sha, leaves: seq<Digest>, proof: InclusionProof)
    requires leaves != []
  {
    && proof.version == VERSION_V1 && proof.hashAlgorithm == ALGO_SHA256 && proof.leafIndex < proof.treeSize
    && DecodeDigest(proof.leafHash).Ok? && DecodeDigests(proof.hashes).Ok?
    && MerkleSizes.ShowsPart<Digest>(NodeHash(sha), leaves, proof.leafIndex, proof.treeSize,
         DecodeDigest(proof.leafHash).value, DecodeDigests(proof.hashes).value)
  }

  /** The node inputs of the verifier neither clash with those of the tree nor hash to a leaf. */
  ghost predicate NoInputClash(sha: Sha, leaves: seq<Digest>, pairs: set<(Digest, Digest)>)
    requires leaves != []
  {
    && NoShaClash(sha, MerkleSizes.HashedPairs<Digest>(NodeHash(sha), leaves, MerkleSizes.Range(0, |leaves|)), pairs)
    && forall p :: p in pairs ==> sha(NodeInput(p)) !in leaves
  }

  lemma PartsDoNotClash(sha: Sha, leaves: seq<Digest>, pairs: set<(Digest, Digest)>)
    requires leaves != [] && NoInputClash(sha, leaves, pairs)
    ensures MerkleSizes.Collisionless<Digest>(NodeHash(sha), leaves, pairs)
  {
    NodesDoNotClash(
      sha, MerkleSizes.HashedPairs<Digest>(NodeHash(sha), leaves, MerkleSizes.Range(0, |leaves|)), pairs);
    forall p | p in pairs ensures NodeHash(sha)(p.0, p.1) !in leaves {
      assert sha(NodeInput(p)) !in leaves;
    }
  }

  /**
   The verifier takes the number of leaves from the proof. Whatever a proof claims, it is accepted against the root of
   leaves exactly when what it gives as a leaf is the node that its index and its size lead to: a leaf, or the hash of
   several.
   */
  lemma InclusionAnySize(sha: Sha, leaves: seq<Digest>, proof: InclusionProof)
    requires leaves != [] && NoInputClash(sha, leaves, InclusionInputs(sha, proof))
    ensures InclusionVerdict(sha, proof, TreeRoot(sha, leaves)) == Ok(true) <==> ProvesPart(sha, leaves, proof)
  {
    var h, idx, n, root := NodeHash(sha), proof.leafIndex, proof.treeSize, TreeRoot(sha, leaves);
    PartsDoNotClash(sha, leaves, InclusionInputs(sha, proof));
    if DecodeDigest(proof.leafHash).Ok? {
      var leaf := DecodeDigest(proof.leafHash).value;
      ClimbDecodes(sha, leaf, idx, n, proof.hashes, root);
      if DecodeDigests(proof.hashes).Ok? {
        var hashes := DecodeDigests(proof.hashes).value;
        MerkleSizes.ClimbAnywhere<Digest>(h, leaves, idx, n, leaf, hashes, InclusionInputs(sha, proof));
      }
    }
  }

  /** So the proof of an inner node, made over one level up, is accepted against the same root. */
  lemma InnerNodePasses(sha: Sha, leaves: seq<Digest>, idx: uint64)
    requires 1 < |leaves| <= MAX_LEN && 2 * idx + 1 < |leaves|
    ensures var nodes := Merkle.Parents<Digest>(NodeHash(sha), leaves);
      var proof := HonestInclusionProof(sha, nodes, idx);
      InclusionVerdict(sha, proof, TreeRoot(sha, leaves)) == Ok(true)
      && proof.leafHash == Hex.Encode(HashChildren(sha, leaves[2 * idx], leaves[2 * idx + 1]))
  {
    var nodes := Merkle.Parents<Digest>(NodeHash(sha), leaves);
    Merkle.TreeHashOfParents<Digest>(NodeHash(sha), leaves);
    Merkle.ParentAt<Digest>(NodeHash(sha), leaves, idx);
    InclusionComplete(sha, nodes, idx);
  }

  /** Completeness needs no hypothesis on the hash. */
  lemma InclusionComplete(sha: Sha, leaves: seq<Digest>, idx: uint64)
    requires idx < |leaves| <= MAX_LEN
    ensures InclusionVerdict(sha, HonestInclusionProof(sha, leaves, idx), TreeRoot(sha, leaves)) == Ok(true)
  {
    var h, path := NodeHash(sha), RfcPath(sha, idx, leaves);
    Merkle.RootIsTreeHash<Digest>(h, leaves);
    Merkle.AuditPathIsRfcPath<Digest>(h, leaves, idx);
    Hex.DecodeEncode(leaves[idx]);
    DecodeEncodeDigests(path);
    Merkle.ClimbComplete<Digest>(h, leaves, idx);
    ClimbDecodes(sha, leaves[idx], idx, |leaves|, EncodeDigests(path), TreeRoot(sha, leaves));
  }

  // ---------------------------------------------------------------- consistency

  ghost function HonestConsistencyProof(sha: Sha, leaves: seq<Digest>, fromSize: uint64): ConsistencyProof
    requires 0 < fromSize <= |leaves| <= MAX_LEN
  {
    ConsistencyProof(VERSION_V1, ALGO_SHA256, fromSize, |leaves|,
      Hex.Encode(TreeRoot(sha, leaves[..fromSize])),
      Hex.Encode(TreeRoot(sha, leaves)),
      if fromSize == |leaves| then [] else EncodeDigests(leaves))
  }

  /** The payload is every leaf up to toSize, and nothing when the sizes agree. */
  method BuildConsistencyProof(sha: Sha, leafHashes: seq<Bytes>, fromSize: uint64, toSize: uint64)
    returns (r: Result<ConsistencyProof, ProofError>)
    requires |leafHashes| <= MAX_LEN
    ensures !(0 < fromSize <= toSize <= |leafHashes|) ==> r == Err(BadTreeSize)
    ensures 0 < fromSize <= toSize <= |leafHashes| && !AllDigests(leafHashes[..toSize]) ==>
      r.Err? && r.error.BadLeafLength?
    ensures 0 < fromSize <= toSize <= |leafHashes| && AllDigests(leafHashes[..toSize]) ==>
      r == Ok(HonestConsistencyProof(sha, leafHashes[..toSize], fromSize))
  {
    if toSize == 0 || fromSize == 0 || fromSize > toSize || toSize > |leafHashes| || fromSize > |leafHashes| {
      return Err(BadTreeSize);
    }
    var cloned := CloneLevel(leafHashes[..toSize]);
    if cloned.Err? {
      return Err(cloned.error);
    }
    ghost var digests: seq<Digest> := cloned.value;
    assert leafHashes[..fromSize] == digests[..fromSize];
    var fromRoot := ComputeMerkleRoot(sha, leafHashes[..fromSize]);
    if fromRoot.Err? {
      assert false;
    }
    var toRoot := ComputeMerkleRoot(sha, leafHashes[..toSize]);
    if toRoot.Err? {
      assert false;
    }
    var encoded := [];
    for i := 0 to toSize
      invariant encoded == EncodeDigests(digests[..i])
    {
      encoded := encoded + [Hex.Encode(leafHashes[i])];
      assert digests[..i + 1] == digests[..i] + [digests[i]];
      EncodeDigestsConcat(digests[..i], [digests[i]]);
    }
    assert digests[..toSize] == digests;
    if fromSize == toSize {
      encoded := [];
    }
    return Ok(ConsistencyProof(VERSION_V1, ALGO_SHA256, fromSize, toSize,
      Hex.Encode(fromRoot.value), Hex.Encode(toRoot.value), encoded));
  }

  function ConsistencyVerdict(sha: Sha, proof: ConsistencyProof): Result<bool, ProofError> {
    if proof.version != VERSION_V1 then Err(UnsupportedVersion)
    else if proof.hashAlgorithm != ALGO_SHA256 then Err(UnsupportedAlgorithm)
    else if proof.fromTreeSize == 0 || proof.fromTreeSize > proof.toTreeSize then Err(BadTreeSize)
    else match (DecodeDigest(proof.fromRootHash), DecodeDigest(proof.toRootHash), DecodeDigests(proof.hashes))
      case (Err(e), _, _) => Err(e)
      case (_, Err(e), _) => Err(e)
      case (_, _, Err(e)) => Err(e)
      case (Ok(fromRoot), Ok(toRoot), Ok(hashes)) =>
        if proof.fromTreeSize == proof.toTreeSize then
          if hashes != [] then Err(BadHashCount) else Ok(fromRoot == toRoot)
        else if |hashes| != proof.toTreeSize then Err(BadHashCount)
        else Ok(&& TreeRoot(sha, hashes[..proof.fromTreeSize]) == fromRoot
                && TreeRoot(sha, hashes) == toRoot)
  }

  /**
   A verdict on a consistency proof is reached exactly when its header and sizes are right, its roots are digests, and
   it has a digest for each leaf of the newer tree, or none between equal sizes.
   */
  lemma ConsistencyDecidedIff(sha: Sha, proof: ConsistencyProof)
    ensures ConsistencyVerdict(sha, proof).Ok? <==>
      && proof.version == "v1" && proof.hashAlgorithm == "sha256" && 0 < proof.fromTreeSize <= proof.toTreeSize
      && DecodeDigest(proof.fromRootHash).Ok? && DecodeDigest(proof.toRootHash).Ok? && DecodeDigests(proof.hashes).Ok?
      && |proof.hashes| == if proof.fromTreeSize == proof.toTreeSize then 0 else proof.toTreeSize
    ensures proof.version != "v1" ==> ConsistencyVerdict(sha, proof) == Err(UnsupportedVersion)
    ensures proof.version == "v1" && proof.hashAlgorithm != "sha256" ==>
      ConsistencyVerdict(sha, proof) == Err(UnsupportedAlgorithm)
    ensures
      proof.version == "v1" && proof.hashAlgorithm == "sha256" && !(0 < proof.fromTreeSize <= proof.toTreeSize) ==>
        ConsistencyVerdict(sha, proof) == Err(BadTreeSize)
  {
  }

  lemma PrependNothing(r: Result<seq<Digest>, ProofError>)
    ensures Prepend([], r) == r
  {
    assert r.Ok? ==> [] + r.value == r.value;
  }

  lemma PrependTwice(ds: seq<Digest>, d: Digest, r: Result<seq<Digest>, ProofError>)
    ensures Prepend(ds, Prepend([d], r)) == Prepend(ds + [d], r)
  {
    assert r.Ok? ==> ds + ([d] + r.value) == (ds + [d]) + r.value;
  }

  method VerifyConsistencyProof(sha: Sha, proof: ConsistencyProof) returns (r: Result<bool, ProofError>)
    ensures r == ConsistencyVerdict(sha, proof)
  {
    if proof.version != VERSION_V1 {
      return Err(UnsupportedVersion);
    }
    if proof.hashAlgorithm != ALGO_SHA256 {
      return Err(UnsupportedAlgorithm);
    }
    if proof.fromTreeSize == 0 || proof.toTreeSize == 0 || proof.fromTreeSize > proof.toTreeSize {
      return Err(BadTreeSize);
    }
    var fromRoot := DecodeDigest(proof.fromRootHash);
    if fromRoot.Err? {
      return Err(fromRoot.error);
    }
    var toRoot := DecodeDigest(proof.toRootHash);
    if toRoot.Err? {
      return Err(toRoot.error);
    }
    var hashes: seq<Digest> := [];
    assert proof.hashes[0..] == proof.hashes;
    PrependNothing(DecodeDigests(proof.hashes));
    for i := 0 to |proof.hashes|
      invariant DecodeDigests(proof.hashes) == Prepend(hashes, DecodeDigests(proof.hashes[i..]))
    {
      var d := DecodeDigest(proof.hashes[i]);
      ghost var rest := DecodeDigests(proof.hashes[i + 1..]);
      assert proof.hashes[i..][1..] == proof.hashes[i + 1..];
      if d.Err? {
        return Err(d.error);
      }
      PrependTwice(hashes, d.value, rest);
      hashes := hashes + [d.value];
    }
    assert hashes + [] == hashes;
    if proof.fromTreeSize == proof.toTreeSize {
      if |hashes| != 0 {
        return Err(BadHashCount);
      }
      return Ok(fromRoot.value == toRoot.value);
    }
    if |hashes| != proof.toTreeSize {
      return Err(BadHashCount);
    }
    var calculatedFromRoot := ComputeMerkleRoot(sha, hashes[..proof.fromTreeSize]);
    if calculatedFromRoot.Err? {
      assert false;
    }
    var calculatedToRoot := ComputeMerkleRoot(sha, hashes);
    if calculatedToRoot.Err? {
      assert false;
    }
    return Ok(calculatedFromRoot.value == fromRoot.value && calculatedToRoot.value == toRoot.value);
  }

  /** The pairs hashed by the verifier while it recomputes both roots. */
  ghost function ConsistencyInputs(sha: Sha, proof: ConsistencyProof): set<(Digest, Digest)> {
    match DecodeDigests(proof.hashes)
    case Err(_) => {}
    case Ok(ds) =>
      if 0 < proof.fromTreeSize < |ds|
      then Merkle.TreeInputs<Digest>(NodeHash(sha), ds[..proof.fromTreeSize])
        + Merkle.TreeInputs<Digest>(NodeHash(sha), ds)
      else {}
  }

  /**
   Between the root of older and the root of newer, a consistency proof is accepted exactly when older is a
   prefix of newer and the payload is every leaf of newer (nothing, when the sizes agree).
   */
  lemma ConsistencyExact(sha: Sha, older: seq<Digest>, newer: seq<Digest>, proof: ConsistencyProof)
    requires 0 < |older| <= |newer| <= MAX_LEN
    requires proof.fromTreeSize == |older| && proof.toTreeSize == |newer|
    requires DecodeDigest(proof.fromRootHash) == Ok(TreeRoot(sha, older))
    requires DecodeDigest(proof.toRootHash) == Ok(TreeRoot(sha, newer))
    requires NoClashOver(sha, older, newer, ConsistencyInputs(sha, proof))
    ensures ConsistencyVerdict(sha, proof) == Ok(true) <==>
      && proof.version == VERSION_V1 && proof.hashAlgorithm == ALGO_SHA256
      && older <= newer
      && DecodeDigests(proof.hashes) == Ok(if |older| == |newer| then [] else newer)
  {
    if ConsistencyVerdict(sha, proof) == Ok(true) {
      ConsistencySound(sha, older, newer, proof);
    }
    if older <= newer {
      assert newer[..|older|] == older;
      assert |older| == |newer| ==> older == newer;
    }
  }

  ghost predicate NoClashOver(sha: Sha, older: seq<Digest>, newer: seq<Digest>, others: set<(Digest, Digest)>)
    requires older != [] && newer != []
  {
    var h := NodeHash(sha);
    var honest := Merkle.TreeInputs<Digest>(h, older) + Merkle.TreeInputs<Digest>(h, newer);
    NoShaClash(sha, honest, honest + others)
  }

  lemma ConsistencySound(sha: Sha, older: seq<Digest>, newer: seq<Digest>, proof: ConsistencyProof)
    requires 0 < |older| <= |newer| <= MAX_LEN
    requires proof.fromTreeSize == |older| && proof.toTreeSize == |newer|
    requires DecodeDigest(proof.fromRootHash) == Ok(TreeRoot(sha, older))
    requires DecodeDigest(proof.toRootHash) == Ok(TreeRoot(sha, newer))
    requires NoClashOver(sha, older, newer, ConsistencyInputs(sha, proof))
    requires ConsistencyVerdict(sha, proof) == Ok(true)
    ensures older <= newer && DecodeDigests(proof.hashes) == Ok(if |older| == |newer| then [] else newer)
  {
    if |older| == |newer| {
      EqualRoots(sha, older, newer);
    } else {
      var ds := DecodeDigests(proof.hashes).value;
      assert TreeRoot(sha, ds[..|older|]) == TreeRoot(sha, older);
      EqualRoots(sha, newer, ds);
      EqualRoots(sha, older, ds[..|older|]);
    }
  }

  lemma EqualRoots(sha: Sha, a: seq<Digest>, b: seq<Digest>)
    requires a != [] && |a| == |b|
    requires NoShaClash(
      sha, Merkle.TreeInputs<Digest>(NodeHash(sha), a), Merkle.TreeInputs<Digest>(NodeHash(sha), b))
    requires TreeRoot(sha, a) == TreeRoot(sha, b)
    ensures a == b
  {
    NodesDoNotClash(sha, Merkle.TreeInputs<Digest>(NodeHash(sha), a), Merkle.TreeInputs<Digest>(NodeHash(sha), b));
    Merkle.RootIsTreeHash<Digest>(NodeHash(sha), a);
    Merkle.RootIsTreeHash<Digest>(NodeHash(sha), b);
    Merkle.RootDeterminesLeaves<Digest>(NodeHash(sha), a, b);
  }

  lemma ConsistencyComplete(sha: Sha, leaves: seq<Digest>, fromSize: uint64)
    requires 0 < fromSize <= |leaves| <= MAX_LEN
    ensures ConsistencyVerdict(sha, HonestConsistencyProof(sha, leaves, fromSize)) == Ok(true)
  {
    var h := NodeHash(sha);
    Hex.DecodeEncode(TreeRoot(sha, leaves[..fromSize]));
    Hex.DecodeEncode(TreeRoot(sha, leaves));
    DecodeEncodeDigests(leaves);
    assert leaves[..|leaves|] == leaves;
  }
}
