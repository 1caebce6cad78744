/**
 Inclusion proofs for any claimed number of leaves. The verifier is given a root and takes the size of the tree from the
 proof: what a proof of another size can show is a node of the tree, and which one.
 */
module MerkleSizes {
  import opened Basics
  import opened Merkle

  /** The leaves from one index up to another, at least one. */
  datatype Range = Range(from: nat, to: nat) {
    predicate Within(size: nat) {
      from < to <= size
    }

    predicate Splits() {
      from + 2 <= to
    }

    function Left(): Range
      requires Splits()
    {
      Range(from, from + SplitPoint(to - from))
    }

    function Right(): Range
      requires Splits()
    {
      Range(from + SplitPoint(to - from), to)
    }

    function Half(even: bool): Range
      requires Splits()
    {
      if even then Left() else Right()
    }
  }

  /** One step down from a node, at a position of n: to the half that the position is in, if it has a neighbour. */
  function Down(up: Option<Range>, idx: nat, n: nat): Option<Range> {
    match up
    case None => None
    case Some(r) =>
      if !HasSibling(idx, n) then up else if r.Splits() then Some(r.Half(idx % 2 == 0)) else None
  }

  /**
   The leaves under the node that a climb from position idx of n starts at, when it ends in the root of a tree of the
   given size: the climb is followed down from the root, turning left or right as it came up. None if a leaf is in the
   way.
   */
  function Part(size: nat, idx: nat, n: nat): (r: Option<Range>)
    requires size > 0
    ensures r.Some? ==> r.value.Within(size)
    decreases n
  {
    if n <= 1 then Some(Range(0, size)) else Down(Part(size, idx / 2, HalveUp(n)), idx, n)
  }

  function Under<D>(h: Hasher<D>, leaves: seq<D>, r: Range): D
    requires r.Within(|leaves|)
  {
    TreeHash(h, leaves[r.from..r.to])
  }

  /** The hashes that such a climb consumes. */
  function Siblings<D>(h: Hasher<D>, leaves: seq<D>, idx: nat, n: nat): seq<D>
    requires leaves != [] && Part(|leaves|, idx, n).Some?
    decreases n
  {
    if n <= 1 then []
    else
      var above := Siblings(h, leaves, idx / 2, HalveUp(n));
      if !HasSibling(idx, n) then above
      else [Under(h, leaves, Part(|leaves|, idx / 2, HalveUp(n)).value.Half(idx % 2 != 0))] + above
  }

  function Children<D>(h: Hasher<D>, leaves: seq<D>, r: Range): (D, D)
    requires r.Within(|leaves|) && r.Splits()
  {
    (Under(h, leaves, r.Left()), Under(h, leaves, r.Right()))
  }

  /** The pairs that the tree hash of a range hashes. */
  ghost function HashedPairs<D>(h: Hasher<D>, leaves: seq<D>, r: Range): set<(D, D)>
    requires r.Within(|leaves|)
    decreases r.to - r.from
  {
    if r.Splits() then
      {Children(h, leaves, r)} + HashedPairs(h, leaves, r.Left()) + HashedPairs(h, leaves, r.Right())
    else {}
  }

  /** Neither do the pairs hashed in the tree collide with the given ones, nor does one of these hash to a leaf. */
  ghost predicate Collisionless<D(!new)>(h: Hasher<D>, leaves: seq<D>, pairs: set<(D, D)>)
    requires leaves != []
  {
    && NoClash(h, HashedPairs(h, leaves, Range(0, |leaves|)), pairs)
    && forall p :: p in pairs ==> h(p.0, p.1) !in leaves
  }

  /** The climb starts at the node it should and consumes the hashes it should. */
  predicate ShowsPart<D(==)>(h: Hasher<D>, leaves: seq<D>, idx: nat, n: nat, cur: D, hashes: seq<D>)
    requires leaves != []
  {
    match Part(|leaves|, idx, n)
    case None => false
    case Some(r) => cur == Under(h, leaves, r) && hashes == Siblings(h, leaves, idx, n)
  }

  lemma UnderWhole<D>(h: Hasher<D>, leaves: seq<D>)
    requires leaves != []
    ensures Under(h, leaves, Range(0, |leaves|)) == TreeHash(h, leaves)
  {
    assert leaves[0..|leaves|] == leaves;
  }

  lemma UnderSplits<D>(h: Hasher<D>, leaves: seq<D>, r: Range)
    requires r.Within(|leaves|) && r.Splits()
    ensures var c := Children(h, leaves, r); Under(h, leaves, r) == h(c.0, c.1)
  {
    var slice, k := leaves[r.from..r.to], SplitPoint(r.to - r.from);
    assert |slice| == r.to - r.from;
    assert slice[..k] == leaves[r.from..r.from + k] && slice[k..] == leaves[r.from + k..r.to];
  }

  lemma UnderOne<D>(h: Hasher<D>, leaves: seq<D>, r: Range)
    requires r.Within(|leaves|) && !r.Splits()
    ensures Under(h, leaves, r) == leaves[r.from]
  {
    assert leaves[r.from..r.to] == [leaves[r.from]];
  }

  lemma {:induction false} PartIsHashed<D>(h: Hasher<D>, leaves: seq<D>, idx: nat, n: nat)
    requires leaves != [] && Part(|leaves|, idx, n).Some?
    ensures HashedPairs(h, leaves, Part(|leaves|, idx, n).value) <= HashedPairs(h, leaves, Range(0, |leaves|))
    decreases n
  {
    if n > 1 {
      PartIsHashed(h, leaves, idx / 2, HalveUp(n));
    }
  }

  /** A pair that hashes to a node is the pair of the node's children. */
  lemma PairUnder<D(!new)>(h: Hasher<D>, leaves: seq<D>, up: Range, pairs: set<(D, D)>, pair: (D, D))
    requires leaves != [] && up.Within(|leaves|) && Collisionless(h, leaves, pairs) && pair in pairs
    requires HashedPairs(h, leaves, up) <= HashedPairs(h, leaves, Range(0, |leaves|))
    ensures h(pair.0, pair.1) == Under(h, leaves, up) <==> up.Splits() && pair == Children(h, leaves, up)
  {
    if up.Splits() {
      UnderSplits(h, leaves, up);
      assert Children(h, leaves, up) in HashedPairs(h, leaves, up);
    } else {
      UnderOne(h, leaves, up);
    }
  }

  function PairAt<D>(cur: D, sibling: D, idx: nat): (D, D) {
    if idx % 2 == 0 then (cur, sibling) else (sibling, cur)
  }

  lemma PairedAbove<D(!new)>(
    h: Hasher<D>, leaves: seq<D>, idx: nat, n: nat, pairs: set<(D, D)>, cur: D, hashes: seq<D>)
    requires leaves != [] && n > 1 && HasSibling(idx, n) && hashes != []
    requires Collisionless(h, leaves, pairs) && PairAt(cur, hashes[0], idx) in pairs
    ensures var pair := PairAt(cur, hashes[0], idx);
      ShowsPart(h, leaves, idx / 2, HalveUp(n), h(pair.0, pair.1), hashes[1..])
      <==> ShowsPart(h, leaves, idx, n, cur, hashes)
  {
    var up := Part(|leaves|, idx / 2, HalveUp(n));
    assert Part(|leaves|, idx, n) == Down(up, idx, n);
    if up.Some? {
      PartIsHashed(h, leaves, idx / 2, HalveUp(n));
      PairUnder(h, leaves, up.value, pairs, PairAt(cur, hashes[0], idx));
      if up.value.Splits() {
        var sibling, above := Under(h, leaves, up.value.Half(idx % 2 != 0)), Siblings(h, leaves, idx / 2, HalveUp(n));
        assert Siblings(h, leaves, idx, n) == [sibling] + above;
        FirstAndRest(hashes, sibling, above);
      }
    }
  }

  lemma FirstAndRest<D>(hashes: seq<D>, first: D, rest: seq<D>)
    requires hashes != []
    ensures hashes == [first] + rest <==> hashes[0] == first && hashes[1..] == rest
  {
    assert hashes == [hashes[0]] + hashes[1..];
    assert ([first] + rest)[1..] == rest;
  }

  /**
   Whatever size a proof claims, a climb ends in the root if and only if it shows the part of the tree it leads to.
   */
  lemma {:induction false} ClimbAnywhere<D(!new)>(
    h: Hasher<D>, leaves: seq<D>, idx: nat, n: nat, cur: D, hashes: seq<D>, pairs: set<(D, D)>)
    requires leaves != [] && Collisionless(h, leaves, pairs) && ClimbInputs(h, cur, idx, n, hashes) <= pairs
    ensures Climb(h, cur, idx, n, hashes) == Some(TreeHash(h, leaves))
      <==> ShowsPart(h, leaves, idx, n, cur, hashes)
    decreases n
  {
    if n <= 1 {
      UnderWhole(h, leaves);
    } else if !HasSibling(idx, n) {
      ClimbAnywhere(h, leaves, idx / 2, HalveUp(n), cur, hashes, pairs);
    } else if hashes != [] {
      var pair := PairAt(cur, hashes[0], idx);
      ClimbAnywhere(h, leaves, idx / 2, HalveUp(n), h(pair.0, pair.1), hashes[1..], pairs);
      PairedAbove(h, leaves, idx, n, pairs, cur, hashes);
    }
  }

  // ---------------------------------------------------------------- which sizes show leaves

  /** The part is a single leaf. */
  predicate ShowsLeaf(size: nat, idx: nat, n: nat)
    requires size > 0
  {
    var r := Part(size, idx, n);
    r.Some? && r.value.to == r.value.from + 1
  }

  /** Trees of labels, and a hash without any collision. */
  datatype Free = Label(number: nat) | Node(left: Free, right: Free)

  function Pairing(): Hasher<Free> {
    (a: Free, b: Free) => Node(a, b)
  }

  function Labels(size: nat): (leaves: seq<Free>)
    ensures |leaves| == size
  {
    seq(size, i requires 0 <= i < size => Label(i))
  }

  /** A proof of the true size shows a leaf: in a tree of labels it can show nothing else. */
  lemma TrueSizeShowsLeaf(size: nat, idx: nat)
    requires idx < size <= MAX_LEN
    ensures ShowsLeaf(size, idx, size)
  {
    var h, leaves := Pairing(), Labels(size);
    var path := AuditPath(h, leaves, idx);
    ClimbComplete(h, leaves, idx);
    RootIsTreeHash(h, leaves);
    ClimbAnywhere(h, leaves, idx, size, leaves[idx], path, ClimbInputs(h, leaves[idx], idx, size, path));
    var r := Part(size, idx, size).value;
    if r.Splits() {
      UnderSplits(h, leaves, r);
    }
  }

  function Breadth(r: Option<Range>): int {
    if r.Some? then r.value.to - r.value.from else 0
  }

  /** The leaves under the first m positions of n. */
  function Covered(size: nat, n: nat, m: nat): int
    requires size > 0
  {
    if m == 0 then 0 else Covered(size, n, m - 1) + Breadth(Part(size, m - 1, n))
  }

  predicate AllParts(size: nat, n: nat)
    requires size > 0
  {
    forall idx :: 0 <= idx < n ==> Part(size, idx, n).Some?
  }

  lemma HalfOfPair(i: nat)
    ensures (2 * i) / 2 == i && (2 * i + 1) / 2 == i && (2 * i) % 2 == 0 && (2 * i + 1) % 2 == 1
  {
  }

  lemma PartBelow(size: nat, n: nat, i: nat, idx: nat)
    requires size > 0 && n > 1 && (idx == 2 * i || idx == 2 * i + 1)
    ensures Part(size, idx, n) == Down(Part(size, i, HalveUp(n)), idx, n)
  {
    HalfOfPair(i);
  }

  /** Two neighbours cover what the node above them covers. */
  lemma PairCovers(size: nat, n: nat, i: nat, left: nat, right: nat)
    requires size > 0 && left == 2 * i && right == left + 1 < n && Part(size, left, n).Some?
    ensures Breadth(Part(size, left, n)) + Breadth(Part(size, right, n)) == Breadth(Part(size, i, HalveUp(n)))
  {
    HalfOfPair(i);
    PartBelow(size, n, i, left);
    PartBelow(size, n, i, right);
  }

  lemma CoveredNext(size: nat, n: nat, m: nat, next: nat)
    requires size > 0 && next == m + 1
    ensures Covered(size, n, next) == Covered(size, n, m) + Breadth(Part(size, m, n))
  {
  }

  lemma {:induction false} PairsCover(size: nat, n: nat, i: nat, m: nat)
    requires size > 0 && n > 1 && m == 2 * i <= n && AllParts(size, n)
    ensures Covered(size, n, m) == Covered(size, HalveUp(n), i)
  {
    if i > 0 {
      var above, left, right := i - 1, m - 2, m - 1;
      PairsCover(size, n, above, left);
      CoveredNext(size, n, left, right);
      CoveredNext(size, n, right, m);
      CoveredNext(size, HalveUp(n), above, i);
      PairCovers(size, n, above, left, right);
    }
  }

  lemma AboveParts(size: nat, n: nat)
    requires size > 0 && 1 < n < MAX_UINT64 && AllParts(size, n)
    ensures AllParts(size, HalveUp(n))
  {
    forall i | 0 <= i < HalveUp(n) ensures Part(size, i, HalveUp(n)).Some? {
      PartBelow(size, n, i, 2 * i);
      assert Part(size, 2 * i, n).Some?;
    }
  }

  lemma LastCovers(size: nat, n: nat, i: nat, last: nat)
    requires size > 0 && n > 1 && last == 2 * i && n == last + 1
    ensures Breadth(Part(size, last, n)) == Breadth(Part(size, i, HalveUp(n)))
  {
    HalfOfPair(i);
    PartBelow(size, n, i, last);
  }

  /** If every position of n has a part, the parts make up the tree. */
  lemma {:induction false} PartsCover(size: nat, n: nat)
    requires size > 0 && 0 < n < MAX_UINT64 && AllParts(size, n)
    ensures Covered(size, n, n) == size
    decreases n
  {
    if n == 1 {
      CoveredNext(size, 1, 0, 1);
    } else {
      var i, up := n / 2, HalveUp(n);
      AboveParts(size, n);
      PartsCover(size, up);
      if n % 2 == 1 {
        var last := n - 1;
        PairsCover(size, n, i, last);
        LastCovers(size, n, i, last);
        CoveredNext(size, n, last, n);
        CoveredNext(size, up, i, up);
      } else {
        PairsCover(size, n, i, n);
      }
    }
  }

  lemma {:induction false} LeavesCover(size: nat, n: nat, m: nat)
    requires size > 0 && forall idx :: 0 <= idx < m ==> ShowsLeaf(size, idx, n)
    ensures Covered(size, n, m) == m
  {
    if m > 0 {
      LeavesCover(size, n, m - 1);
      assert ShowsLeaf(size, m - 1, n);
    }
  }

  /** Every position of a claimed size shows a leaf if and only if the size is the true one. */
  lemma OnlyTrueSizeShowsLeaves(size: nat, n: nat)
    requires 0 < size <= MAX_LEN && 0 < n < MAX_UINT64
    ensures (forall idx :: 0 <= idx < n ==> ShowsLeaf(size, idx, n)) <==> n == size
  {
    if n == size {
      forall idx | 0 <= idx < n ensures ShowsLeaf(size, idx, n) {
        TrueSizeShowsLeaf(size, idx);
      }
    } else if forall idx :: 0 <= idx < n ==> ShowsLeaf(size, idx, n) {
      LeavesCover(size, n, n);
      forall idx | 0 <= idx < n ensures Part(size, idx, n).Some? {
        assert ShowsLeaf(size, idx, n);
      }
      PartsCover(size, n);
    }
  }
}
