/**
 The Merkle tree of the evidence log, over digests of any type D and any node hash h:
 roots and audit paths level by level, as the program computes them, against the recursive
 definitions of section 2.1 of RFC 6962.
 */
module Merkle {
  import opened Basics

  type Hasher<!D> = (D, D) -> D

  // ---------------------------------------------------------------- level by level

  /** One level up: neighbours are paired, an odd last node is promoted unchanged. */
  function Parents<D>(h: Hasher<D>, level: seq<D>): (r: seq<D>)
    ensures |r| == (|level| + 1) / 2
  {
    if |level| <= 1 then level else [h(level[0], level[1])] + Parents(h, level[2..])
  }

  function Root<D>(h: Hasher<D>, level: seq<D>): D
    requires level != []
    decreases |level|
  {
    if |level| == 1 then level[0] else Root(h, Parents(h, level))
  }

  function Sibling<D>(level: seq<D>, idx: nat): seq<D>
    requires idx < |level|
  {
    if idx % 2 == 1 then [level[idx - 1]]
    else if idx + 1 < |level| then [level[idx + 1]]
    else []
  }

  function AuditPath<D>(h: Hasher<D>, level: seq<D>, idx: nat): seq<D>
    requires idx < |level|
    decreases |level|
  {
    if |level| == 1 then [] else Sibling(level, idx) + AuditPath(h, Parents(h, level), idx / 2)
  }

  lemma {:induction false} ParentAt<D>(h: Hasher<D>, level: seq<D>, i: nat)
    requires i < (|level| + 1) / 2
    ensures Parents(h, level)[i] == if 2 * i + 1 < |level| then h(level[2 * i], level[2 * i + 1]) else level[2 * i]
  {
    if i > 0 {
      ParentAt(h, level[2..], i - 1);
    }
  }

  /** An even cut commutes with taking parents. */
  lemma {:induction false} ParentsSplit<D>(h: Hasher<D>, left: seq<D>, right: seq<D>)
    requires |left| % 2 == 0
    ensures Parents(h, left + right) == Parents(h, left) + Parents(h, right)
  {
    if left == [] {
      assert left + right == right;
    } else {
      ParentsSplit(h, left[2..], right);
      assert (left + right)[2..] == left[2..] + right;
    }
  }

  // ---------------------------------------------------------------- section 2.1 of RFC 6962

  /** The largest power of two below n. */
  function SplitPoint(n: nat): (k: nat)
    requires n >= 2
    ensures 0 < k < n <= 2 * k
    ensures n > 2 ==> k % 2 == 0
  {
    if n == 2 then 1 else 2 * SplitPoint((n + 1) / 2)
  }

  ghost predicate PowerOfTwo(k: nat) {
    k == 1 || (k > 1 && k % 2 == 0 && PowerOfTwo(k / 2))
  }

  lemma {:induction false} SplitPointIsPower(n: nat)
    requires n >= 2
    ensures PowerOfTwo(SplitPoint(n)) && SplitPoint(n) < n <= 2 * SplitPoint(n)
  {
    if n > 2 {
      SplitPointIsPower((n + 1) / 2);
    }
  }

  /** Only one power of two lies below n and is at least half of it. */
  lemma {:induction false} PowersApart(j: nat, k: nat, n: nat)
    requires PowerOfTwo(j) && PowerOfTwo(k) && j < n <= 2 * j && k < n <= 2 * k
    ensures j == k
  {
    if j > 1 && k > 1 {
      PowersApart(j / 2, k / 2, (n + 1) / 2);
    }
  }

  function TreeHash<D>(h: Hasher<D>, leaves: seq<D>): D
    requires leaves != []
    decreases |leaves|
  {
    if |leaves| == 1 then leaves[0]
    else
      var k := SplitPoint(|leaves|);
      h(TreeHash(h, leaves[..k]), TreeHash(h, leaves[k..]))
  }

  function Path<D>(h: Hasher<D>, m: nat, leaves: seq<D>): seq<D>
    requires m < |leaves|
    decreases |leaves|
  {
    if |leaves| == 1 then []
    else
      var k := SplitPoint(|leaves|);
      if m < k then Path(h, m, leaves[..k]) + [TreeHash(h, leaves[k..])]
      else Path(h, m - k, leaves[k..]) + [TreeHash(h, leaves[..k])]
  }

  /** The two halves of the parents are the parents of the two halves. */
  lemma HalvesOfParents<D>(h: Hasher<D>, level: seq<D>, k: nat)
    requires |level| > 2 && k == SplitPoint(|level|)
    ensures SplitPoint(|Parents(h, level)|) == k / 2
    ensures Parents(h, level)[..k / 2] == Parents(h, level[..k])
    ensures Parents(h, level)[k / 2..] == Parents(h, level[k..])
  {
    var left, right := Parents(h, level[..k]), Parents(h, level[k..]);
    assert Parents(h, level) == left + right by {
      assert level == level[..k] + level[k..];
      ParentsSplit(h, level[..k], level[k..]);
    }
    assert |left| == k / 2;
  }

  lemma {:induction false} TreeHashOfParents<D>(h: Hasher<D>, level: seq<D>)
    requires level != []
    ensures TreeHash(h, Parents(h, level)) == TreeHash(h, level)
    decreases |level|
  {
    if |level| == 2 {
      assert level[..1] == [level[0]] && level[1..] == [level[1]];
    } else if |level| > 2 {
      var k := SplitPoint(|level|);
      HalvesOfParents(h, level, k);
      TreeHashOfParents(h, level[..k]);
      TreeHashOfParents(h, level[k..]);
    }
  }

  /** The level-by-level root is the recursive tree hash. */
  lemma {:induction false} RootIsTreeHash<D>(h: Hasher<D>, leaves: seq<D>)
    requires leaves != []
    ensures Root(h, leaves) == TreeHash(h, leaves)
    decreases |leaves|
  {
    if |leaves| > 1 {
      RootIsTreeHash(h, Parents(h, leaves));
      TreeHashOfParents(h, leaves);
    }
  }

  lemma HalfOf(idx: nat)
    ensures idx == if idx % 2 == 0 then 2 * (idx / 2) else 2 * (idx / 2) + 1
  {
  }

  /** An even cut keeps parities and parts no pair. */
  lemma EvenCut(m: nat, j: nat)
    ensures m < 2 * j && m % 2 == 0 ==> m + 1 < 2 * j
    ensures m >= 2 * j ==> (m - 2 * j) % 2 == m % 2
  {
    var i := m / 2;
    assert m == 2 * i + m % 2;
    if m >= 2 * j {
      assert m - 2 * j == 2 * (i - j) + m % 2;
    }
  }

  lemma SiblingInLeft<D>(level: seq<D>, m: nat, k: nat)
    requires m < k <= |level| && (m % 2 == 0 ==> m + 1 < k)
    ensures Sibling(level, m) == Sibling(level[..k], m)
  {
  }

  lemma SiblingInRight<D>(level: seq<D>, m: nat, k: nat)
    requires k <= m < |level| && (m - k) % 2 == m % 2
    ensures Sibling(level, m) == Sibling(level[k..], m - k)
  {
  }

  lemma SiblingInHalf<D>(level: seq<D>, m: nat, k: nat)
    requires m < |level| && 0 < k < |level| && k % 2 == 0
    ensures m < k ==> Sibling(level, m) == Sibling(level[..k], m)
    ensures m >= k ==> Sibling(level, m) == Sibling(level[k..], m - k)
  {
    HalfOf(k);
    EvenCut(m, k / 2);
    if m < k {
      SiblingInLeft(level, m, k);
    } else {
      SiblingInRight(level, m, k);
    }
  }

  lemma {:induction false} PathOfParents<D>(h: Hasher<D>, level: seq<D>, m: nat)
    requires m < |level|
    ensures Path(h, m, level) == Sibling(level, m) + Path(h, m / 2, Parents(h, level))
    decreases |level|
  {
    if |level| == 2 {
      assert level[..1] == [level[0]] && level[1..] == [level[1]];
    } else if |level| > 2 {
      var k := SplitPoint(|level|);
      HalvesOfParents(h, level, k);
      SiblingInHalf(level, m, k);
      if m < k {
        PathInLeftHalf(h, level, m, k);
      } else {
        PathInRightHalf(h, level, m, k, m / 2, k / 2);
      }
    }
  }

  lemma {:induction false} PathInLeftHalf<D>(h: Hasher<D>, level: seq<D>, m: nat, k: nat)
    requires |level| > 2 && k == SplitPoint(|level|) && m < k
    ensures Path(h, m, level) == Sibling(level[..k], m) + Path(h, m / 2, Parents(h, level))
    decreases |level|, 0
  {
    var up := Parents(h, level);
    var right := TreeHash(h, level[k..]);
    HalvesOfParents(h, level, k);
    var rest := Path(h, m / 2, Parents(h, level[..k]));
    assert Path(h, m / 2, up) == rest + [right] by {
      TreeHashOfParents(h, level[k..]);
    }
    assert Path(h, m, level) == (Sibling(level[..k], m) + rest) + [right] by {
      PathOfParents(h, level[..k], m);
    }
    AppendAssociates(Sibling(level[..k], m), rest, [right]);
  }

  lemma PathUpRightHalf<D>(h: Hasher<D>, up: seq<D>, i: nat, j: nat)
    requires |up| >= 2 && j == SplitPoint(|up|) && j <= i < |up|
    ensures Path(h, i, up) == Path(h, i - j, up[j..]) + [TreeHash(h, up[..j])]
  {
  }

  lemma {:induction false} PathInRightHalf<D>(h: Hasher<D>, level: seq<D>, m: nat, k: nat, i: nat, j: nat)
    requires |level| > 2 && k == SplitPoint(|level|) && k <= m < |level|
    requires k == 2 * j && 2 * i <= m <= 2 * i + 1
    ensures Path(h, m, level) == Sibling(level[k..], m - k) + Path(h, i, Parents(h, level))
    decreases |level|, 0
  {
    var up, right := Parents(h, level), level[k..];
    var left := TreeHash(h, level[..k]);
    HalvesOfParents(h, level, k);
    assert k / 2 == j && (m - k) / 2 == i - j;
    var rest := Path(h, i - j, Parents(h, right));
    assert Path(h, i, up) == rest + [left] by {
      TreeHashOfParents(h, level[..k]);
      PathUpRightHalf(h, up, i, j);
    }
    assert Path(h, m, level) == (Sibling(right, m - k) + rest) + [left] by {
      PathOfParents(h, right, m - k);
      PathUpRightHalf(h, level, m, k);
    }
    AppendAssociates(Sibling(right, m - k), rest, [left]);
  }

  /** The emitted siblings are the audit path of section 2.1.1 of RFC 6962. */
  lemma {:induction false} AuditPathIsRfcPath<D>(h: Hasher<D>, leaves: seq<D>, m: nat)
    requires m < |leaves|
    ensures AuditPath(h, leaves, m) == Path(h, m, leaves)
    decreases |leaves|
  {
    if |leaves| > 1 {
      AuditPathIsRfcPath(h, Parents(h, leaves), m / 2);
      PathOfParents(h, leaves, m);
    }
  }

  // ---------------------------------------------------------------- collisions

  /**
   Collision-freeness, assumed only between the inputs that two given computations hash.
   Unlike injectivity of h, which no hash into fixed-size digests has, this can hold.
   */
  ghost predicate NoClash<D(!new)>(h: Hasher<D>, xs: set<(D, D)>, ys: set<(D, D)>) {
    forall x, y :: x in xs && y in ys && h(x.0, x.1) == h(y.0, y.1) ==> x == y
  }

  /** The pairs hashed when one level is replaced by its parents. */
  ghost function LevelInputs<D>(level: seq<D>): set<(D, D)> {
    if |level| <= 1 then {} else {(level[0], level[1])} + LevelInputs(level[2..])
  }

  /** The pairs hashed on the way from the leaves to the root. */
  ghost function TreeInputs<D>(h: Hasher<D>, level: seq<D>): set<(D, D)>
    requires level != []
    decreases |level|
  {
    if |level| == 1 then {} else LevelInputs(level) + TreeInputs(h, Parents(h, level))
  }

  lemma {:induction false} LevelInputAt<D>(level: seq<D>, i: nat)
    requires 2 * i + 1 < |level|
    ensures (level[2 * i], level[2 * i + 1]) in LevelInputs(level)
  {
    if i > 0 {
      LevelInputAt(level[2..], i - 1);
    }
  }

  lemma {:induction false} ParentsDetermineLevel<D(!new)>(h: Hasher<D>, a: seq<D>, b: seq<D>)
    requires |a| == |b| && Parents(h, a) == Parents(h, b)
    requires NoClash(h, LevelInputs(a), LevelInputs(b))
    ensures a == b
  {
    if |a| > 1 {
      assert Parents(h, a)[0] == Parents(h, b)[0];
      assert (a[0], a[1]) in LevelInputs(a) && (b[0], b[1]) in LevelInputs(b);
      assert (a[0], a[1]) == (b[0], b[1]);
      assert Parents(h, a)[1..] == Parents(h, a[2..]) && Parents(h, b)[1..] == Parents(h, b[2..]);
      ParentsDetermineLevel(h, a[2..], b[2..]);
      assert a == [a[0], a[1]] + a[2..] && b == [b[0], b[1]] + b[2..];
    }
  }

  /** Equal-size trees with equal roots have equal leaves. */
  lemma {:induction false} RootDeterminesLeaves<D(!new)>(h: Hasher<D>, a: seq<D>, b: seq<D>)
    requires a != [] && |a| == |b|
    requires NoClash(h, TreeInputs(h, a), TreeInputs(h, b))
    requires Root(h, a) == Root(h, b)
    ensures a == b
    decreases |a|
  {
    if |a| > 1 {
      RootDeterminesLeaves(h, Parents(h, a), Parents(h, b));
      ParentsDetermineLevel(h, a, b);
    }
  }

  // ---------------------------------------------------------------- climbing back from a leaf

  const MAX_UINT64: nat := 0xffff_ffff_ffff_ffff
  /** The longest slice. */
  const MAX_LEN: nat := 0x7fff_ffff_ffff_ffff

  /** The width of the next level; adding one to the largest 64-bit width wraps to zero. */
  function HalveUp(width: nat): nat {
    if width == MAX_UINT64 then 0 else (width + 1) / 2
  }

  predicate HasSibling(idx: nat, width: nat) {
    idx % 2 == 1 || idx + 1 < width
  }

  /** The node reached from cur, consuming one hash per level that has a sibling; None if too few or too many. */
  function Climb<D>(h: Hasher<D>, cur: D, idx: nat, width: nat, hashes: seq<D>): Option<D>
    decreases width
  {
    if width <= 1 then
      if hashes == [] then Some(cur) else None
    else if HasSibling(idx, width) then
      if hashes == [] then None
      else
        var up := if idx % 2 == 0 then h(cur, hashes[0]) else h(hashes[0], cur);
        Climb(h, up, idx / 2, HalveUp(width), hashes[1..])
    else Climb(h, cur, idx / 2, HalveUp(width), hashes)
  }

  /** The pairs that a climb hashes. */
  ghost function ClimbInputs<D>(h: Hasher<D>, cur: D, idx: nat, width: nat, hashes: seq<D>): set<(D, D)>
    decreases width
  {
    if width <= 1 then {}
    else if HasSibling(idx, width) then
      if hashes == [] then {}
      else
        var pair := if idx % 2 == 0 then (cur, hashes[0]) else (hashes[0], cur);
        {pair} + ClimbInputs(h, h(pair.0, pair.1), idx / 2, HalveUp(width), hashes[1..])
    else ClimbInputs(h, cur, idx / 2, HalveUp(width), hashes)
  }

  lemma SiblingAt<D>(level: seq<D>, idx: nat)
    requires idx < |level|
    ensures Sibling(level, idx) == [] <==> !HasSibling(idx, |level|)
    ensures HasSibling(idx, |level|) ==> Sibling(level, idx)[0] == level[if idx % 2 == 0 then idx + 1 else idx - 1]
  {
  }

  lemma ParentOf<D>(h: Hasher<D>, level: seq<D>, idx: nat)
    requires idx < |level|
    ensures idx / 2 < |Parents(h, level)|
    ensures Sibling(level, idx) == [] <==> !HasSibling(idx, |level|)
    ensures Parents(h, level)[idx / 2] ==
      if !HasSibling(idx, |level|) then level[idx]
      else if idx % 2 == 0 then h(level[idx], Sibling(level, idx)[0])
      else h(Sibling(level, idx)[0], level[idx])
  {
    HalfOf(idx);
    SiblingAt(level, idx);
    ParentAt(h, level, idx / 2);
  }

  lemma ClimbStep<D>(h: Hasher<D>, cur: D, idx: nat, width: nat, hashes: seq<D>)
    requires 1 < width <= MAX_LEN
    ensures HasSibling(idx, width) && hashes != [] ==>
      Climb(h, cur, idx, width, hashes) ==
        Climb(h, if idx % 2 == 0 then h(cur, hashes[0]) else h(hashes[0], cur), idx / 2, (width + 1) / 2, hashes[1..])
    ensures !HasSibling(idx, width) ==>
      Climb(h, cur, idx, width, hashes) == Climb(h, cur, idx / 2, (width + 1) / 2, hashes)
  {
  }

  lemma {:induction false} ClimbComplete<D>(h: Hasher<D>, level: seq<D>, idx: nat)
    requires idx < |level| <= MAX_LEN
    ensures Climb(h, level[idx], idx, |level|, AuditPath(h, level, idx)) == Some(Root(h, level))
    decreases |level|
  {
    if |level| > 1 {
      var up, path := Parents(h, level), AuditPath(h, level, idx);
      ParentOf(h, level, idx);
      ClimbComplete(h, up, idx / 2);
      ClimbStep(h, level[idx], idx, |level|, path);
      if HasSibling(idx, |level|) {
        assert path[1..] == AuditPath(h, up, idx / 2);
      } else {
        assert path == AuditPath(h, up, idx / 2);
      }
    }
  }

  lemma {:induction false} ClimbSound<D(!new)>(h: Hasher<D>, level: seq<D>, idx: nat, cur: D, hashes: seq<D>)
    requires idx < |level| <= MAX_LEN
    requires Climb(h, cur, idx, |level|, hashes) == Some(Root(h, level))
    requires NoClash(h, TreeInputs(h, level), ClimbInputs(h, cur, idx, |level|, hashes))
    ensures cur == level[idx] && hashes == AuditPath(h, level, idx)
    decreases |level|
  {
    if |level| > 1 {
      ParentOf(h, level, idx);
      ClimbStep(h, cur, idx, |level|, hashes);
      if HasSibling(idx, |level|) {
        ClimbSoundPaired(h, level, idx, cur, hashes);
      } else {
        ClimbSound(h, Parents(h, level), idx / 2, cur, hashes);
        assert [] + hashes == hashes;
      }
    }
  }

  lemma {:induction false} ClimbSoundPaired<D(!new)>(h: Hasher<D>, level: seq<D>, idx: nat, cur: D, hashes: seq<D>)
    requires idx < |level| <= MAX_LEN && |level| > 1 && HasSibling(idx, |level|)
    requires Climb(h, cur, idx, |level|, hashes) == Some(Root(h, level))
    requires NoClash(h, TreeInputs(h, level), ClimbInputs(h, cur, idx, |level|, hashes))
    ensures cur == level[idx] && hashes == AuditPath(h, level, idx)
    decreases |level|, 0
  {
    var pair := if idx % 2 == 0 then (cur, hashes[0]) else (hashes[0], cur);
    var inputs := ClimbInputs(h, cur, idx, |level|, hashes);
    assert pair in inputs && ClimbInputs(h, h(pair.0, pair.1), idx / 2, (|level| + 1) / 2, hashes[1..]) <= inputs;
    ParentOf(h, level, idx);
    ClimbStep(h, cur, idx, |level|, hashes);
    ClimbSound(h, Parents(h, level), idx / 2, h(pair.0, pair.1), hashes[1..]);
    ChildrenAreHashed(h, level, idx);
    ClashFree(h, TreeInputs(h, level), inputs, Children(level, idx), pair);
    assert hashes == [hashes[0]] + hashes[1..];
  }

  /** The children of the parent of a node with a sibling. */
  function Children<D>(level: seq<D>, idx: nat): (D, D)
    requires idx < |level| && HasSibling(idx, |level|)
  {
    if idx % 2 == 0 then (level[idx], level[idx + 1]) else (level[idx - 1], level[idx])
  }

  lemma ChildrenAt<D>(level: seq<D>, idx: nat, j: nat)
    requires idx < |level| && HasSibling(idx, |level|) && (idx == 2 * j || idx == 2 * j + 1)
    ensures 2 * j + 1 < |level| && Children(level, idx) == (level[2 * j], level[2 * j + 1])
  {
  }

  lemma PairIsHashed<D>(h: Hasher<D>, level: seq<D>, idx: nat, j: nat)
    requires idx < |level| && HasSibling(idx, |level|) && (idx == 2 * j || idx == 2 * j + 1)
    ensures Children(level, idx) in LevelInputs(level) && j < |Parents(h, level)|
    ensures var c := Children(level, idx); h(c.0, c.1) == Parents(h, level)[j]
  {
    ChildrenAt(level, idx, j);
    ParentAt(h, level, j);
    LevelInputAt(level, j);
  }

  lemma ChildrenAreHashed<D>(h: Hasher<D>, level: seq<D>, idx: nat)
    requires idx < |level| && HasSibling(idx, |level|)
    ensures Children(level, idx) in LevelInputs(level)
    ensures var c := Children(level, idx); h(c.0, c.1) == Parents(h, level)[idx / 2]
  {
    HalfOf(idx);
    PairIsHashed(h, level, idx, idx / 2);
  }

  lemma ClashFree<D(!new)>(h: Hasher<D>, xs: set<(D, D)>, ys: set<(D, D)>, x: (D, D), y: (D, D))
    requires NoClash(h, xs, ys) && x in xs && y in ys && h(x.0, x.1) == h(y.0, y.1)
    ensures x == y
  {
  }
}
