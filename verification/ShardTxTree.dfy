// The tree over the shards' cross-shard data and its paths (CreateShardTxRoot, GetMerklePathCrossShard and
// VerifyMerkleTree in blockchain/shardutils.go), for any power of two of at least two leaves. Leaves and levels are
// those of MerkleStore; here no node is missing.
module ShardTxTree {
  import opened MerkleStore

  // All levels of the tree, one after the other.
  function Flat(h: Branch, s: seq<Hash>): (r: seq<Hash>)
    requires s != []
    decreases |s|
  {
    if |s| == 1 then s else s + Flat(h, PairUp(h, s))
  }

  // The other child of the same parent.
  function Sibling(i: nat): (j: nat) { if i % 2 == 0 then i + 1 else i - 1 }

  // The siblings on the way from leaf i to the root, in a tree of depth d.
  function TruePath(h: Branch, s: seq<Hash>, d: nat, i: nat): (r: seq<Hash>)
    requires |s| == Pow2(d) && i < |s|
    decreases d
  {
    if d == 0 then [] else [s[Sibling(i)]] + TruePath(h, PairUp(h, s), d - 1, i / 2)
  }

  // ---------------------------------------------------------------------------------------------
  // Building
  // ---------------------------------------------------------------------------------------------

  predicate Joined(h: Branch, data: seq<Hash>, n: nat, k: nat) {
    2 * k + 1 < |data| && n + k < |data| && data[n + k] == h(data[2 * k], data[2 * k + 1])
  }

  predicate AllJoined(h: Branch, data: seq<Hash>, n: nat, count: int) {
    forall k :: 0 <= k < count ==> Joined(h, data, n, k)
  }

  lemma JoinedStays(h: Branch, data: seq<Hash>, n: nat, count: nat, x: Hash)
    requires AllJoined(h, data, n, count) && |data| == n + count && 2 * count + 1 < |data|
    requires x == h(data[2 * count], data[2 * count + 1])
    ensures AllJoined(h, data + [x], n, count + 1)
  {
    forall k | 0 <= k < count + 1 ensures Joined(h, data + [x], n, k) {
      assert k < count ==> Joined(h, data, n, k);
    }
  }

  // The level of width 2^d begins where twice its width is left over, and the one above it follows.
  lemma {:induction false} JoinedIsFlat(h: Branch, data: seq<Hash>, n: nat, d: nat)
    requires Pow2(d) <= n && |data| == 2 * n - 1 && AllJoined(h, data, n, n - 1)
    ensures data[2 * n - 2 * Pow2(d)..] == Flat(h, data[2 * n - 2 * Pow2(d)..2 * n - Pow2(d)])
    decreases d
  {
    if d > 0 {
      var w := Pow2(d - 1);
      JoinedIsFlat(h, data, n, d - 1);
      LevelAbove(h, data, n, w);
      assert data[2 * n - 4 * w..] == data[2 * n - 4 * w..2 * n - 2 * w] + data[2 * n - 2 * w..];
    } else {
      assert data[2 * n - 2..] == data[2 * n - 2..2 * n - 1];
    }
  }

  lemma LevelAbove(h: Branch, data: seq<Hash>, n: nat, w: nat)
    requires 0 < w && 2 * w <= n && |data| == 2 * n - 1 && AllJoined(h, data, n, n - 1)
    ensures data[2 * n - 2 * w..2 * n - w] == PairUp(h, data[2 * n - 4 * w..2 * n - 2 * w])
  {
    var s, up := data[2 * n - 4 * w..2 * n - 2 * w], data[2 * n - 2 * w..2 * n - w];
    var r := PairUp(h, s);
    forall p | 0 <= p < w ensures up[p] == r[p] {
      assert Joined(h, data, n, n - 2 * w + p);
      PairAt(h, s, p);
    }
  }

  /** The growing array with its cursor ends up holding all levels of the tree. */
  method CreateShardTxRoot(h: Branch, leaves: seq<Hash>, ghost d: nat) returns (merkleData: seq<Hash>)
    requires |leaves| == Pow2(d) && d > 0
    ensures merkleData == Flat(h, leaves) && |merkleData| == 2 * |leaves| - 1 && leaves <= merkleData
    ensures AllJoined(h, merkleData, |leaves|, |leaves| - 1)
  {
    merkleData := leaves;
    var cursor := 0;
    ghost var k := 0;
    while true
      invariant cursor == 2 * k && k < |leaves| - 1 && |merkleData| == |leaves| + k
      invariant merkleData[..|leaves|] == leaves && AllJoined(h, merkleData, |leaves|, k)
      decreases |leaves| - k
    {
      var v1, v2 := merkleData[cursor], merkleData[cursor + 1];
      JoinedStays(h, merkleData, |leaves|, k, h(v1, v2));
      merkleData := merkleData + [h(v1, v2)];
      cursor, k := cursor + 2, k + 1;
      if cursor >= |merkleData| - 1 {
        break;
      }
    }
    JoinedIsFlat(h, merkleData, |leaves|, d);
    assert merkleData[0..] == merkleData && merkleData[0..|leaves|] == leaves;
  }

  lemma {:induction false} FlatEndsInRoot(h: Branch, s: seq<Hash>)
    requires s != []
    ensures Flat(h, s) != [] && Flat(h, s)[|Flat(h, s)| - 1] == Root(h, s)
    decreases |s|
  {
    if |s| > 1 {
      FlatEndsInRoot(h, PairUp(h, s));
    }
  }

  // ---------------------------------------------------------------------------------------------
  // Paths
  // ---------------------------------------------------------------------------------------------

  lemma SiblingInside(w: nat, i: nat)
    requires i < 2 * w
    ensures Sibling(i) < 2 * w && i / 2 < w
  {
  }

  // The rest of the path, from node i of the level of width 2^e, read off the array.
  ghost function PathIn(data: seq<Hash>, n: nat, e: nat, i: nat): (r: seq<Hash>)
    requires Pow2(e) <= n && |data| == 2 * n - 1 && i < Pow2(e)
    decreases e
  {
    if e == 0 then []
    else
      SiblingInside(Pow2(e - 1), i);
      [data[2 * n - 2 * Pow2(e) + Sibling(i)]] + PathIn(data, n, e - 1, i / 2)
  }

  // The level of width 2^e in the array is s.
  predicate LevelIs(data: seq<Hash>, n: nat, e: nat, s: seq<Hash>) {
    Pow2(e) <= n && |data| == 2 * n - 1 && s == data[2 * n - 2 * Pow2(e)..2 * n - Pow2(e)]
  }

  lemma NextLevel(h: Branch, data: seq<Hash>, n: nat, e: nat, s: seq<Hash>, i: nat)
    requires e > 0 && LevelIs(data, n, e, s) && AllJoined(h, data, n, n - 1) && i < Pow2(e)
    ensures LevelIs(data, n, e - 1, PairUp(h, s)) && Sibling(i) < |s| && i / 2 < Pow2(e - 1)
    ensures data[2 * n - 2 * Pow2(e) + Sibling(i)] == s[Sibling(i)]
  {
    var w := Pow2(e - 1);
    SiblingInside(w, i);
    assert s == data[2 * n - 4 * w..2 * n - 2 * w];
    LevelAbove(h, data, n, w);
  }

  lemma {:induction false} PathInIsTrue(h: Branch, data: seq<Hash>, n: nat, e: nat, i: nat, s: seq<Hash>)
    requires LevelIs(data, n, e, s) && AllJoined(h, data, n, n - 1) && i < Pow2(e)
    ensures PathIn(data, n, e, i) == TruePath(h, s, e, i)
    decreases e
  {
    if e > 0 {
      NextLevel(h, data, n, e, s, i);
      PathInIsTrue(h, data, n, e - 1, i / 2, PairUp(h, s));
    }
  }

  lemma Reassociate(a: seq<Hash>, x: Hash, b: seq<Hash>)
    ensures a + ([x] + b) == (a + [x]) + b
  {
  }

  lemma PathInStep(data: seq<Hash>, n: nat, e: nat, w: nat, i: nat, cursor: nat)
    requires e > 0 && w == Pow2(e) <= n && |data| == 2 * n - 1 && i < w && cursor == 2 * n - 2 * w
    ensures w == 2 * Pow2(e - 1) && i / 2 < Pow2(e - 1) && cursor + Sibling(i) < |data|
    ensures PathIn(data, n, e, i) == [data[cursor + Sibling(i)]] + PathIn(data, n, e - 1, i / 2)
  {
    SiblingInside(Pow2(e - 1), i);
  }

  // The node beside position i of a level, and the position above it.
  method Beside(data: seq<Hash>, cursor: nat, i: nat) returns (sibling: Hash, above: nat)
    requires cursor + Sibling(i) < |data|
    ensures sibling == data[cursor + Sibling(i)] && above == i / 2
  {
    if i % 2 == 0 {
      sibling := data[cursor + i + 1];
    } else {
      sibling := data[cursor + i - 1];
    }
    above := i / 2;
  }

  // The loop that collects the path: every index is in range.
  method WalkUp(merkleData: seq<Hash>, n: nat, sid: nat, ghost d: nat) returns (path: seq<Hash>)
    requires n == Pow2(d) && |merkleData| == 2 * n - 1 && sid < n
    ensures path == PathIn(merkleData, n, d, sid)
  {
    var cursor, lastCursor, i, time := 0, 0, sid, 0;
    path := [];
    ghost var e: nat, w: nat := d, n;
    while cursor < |merkleData| - 2
      invariant w == Pow2(e) <= n && 0 <= i < w && cursor == 2 * n - 2 * w
      invariant if time == 0 then w == n && lastCursor == 0 else cursor - lastCursor == 2 * w
      invariant PathIn(merkleData, n, d, sid) == path + PathIn(merkleData, n, e, i)
      decreases e
    {
      PathInStep(merkleData, n, e, w, i, cursor);
      ghost var rest := PathIn(merkleData, n, e - 1, i / 2);
      var sibling;
      sibling, i := Beside(merkleData, cursor, i);
      Reassociate(path, sibling, rest);
      path := path + [sibling];
      if time == 0 {
        cursor := cursor + n;
      } else {
        var tmp := cursor;
        cursor := cursor + (cursor - lastCursor) / 2;
        lastCursor := tmp;
      }
      time := time + 1;
      e, w := e - 1, w / 2;
    }
  }

  /** The path is that of the siblings of the shard's leaf, and the root is that of the leaves' tree. */
  method GetMerklePathCrossShard(h: Branch, leaves: seq<Hash>, sid: nat, ghost d: nat)
    returns (path: seq<Hash>, root: Hash)
    requires |leaves| == Pow2(d) && d > 0 && sid < |leaves|
    ensures path == TruePath(h, leaves, d, sid) && root == Root(h, leaves)
  {
    var merkleData := CreateShardTxRoot(h, leaves, d);
    path := WalkUp(merkleData, |leaves|, sid, d);
    assert merkleData[0..|leaves|] == leaves;
    PathInIsTrue(h, merkleData, |leaves|, d, sid, leaves);
    FlatEndsInRoot(h, leaves);
    root := merkleData[|merkleData| - 1];
  }

  function Fold(h: Branch, x: Hash, path: seq<Hash>, i: nat): (r: Hash)
    decreases path
  {
    if path == [] then x else Fold(h, if i % 2 == 0 then h(x, path[0]) else h(path[0], x), path[1..], i / 2)
  }

  method VerifyMerkleTree(h: Branch, leaf: Hash, path: seq<Hash>, root: Hash, receiver: nat) returns (ok: bool)
    ensures ok == (Fold(h, leaf, path, receiver) == root)
  {
    var finalHash, i := leaf, receiver;
    assert path[0..] == path;
    for k := 0 to |path|
      invariant Fold(h, leaf, path, receiver) == Fold(h, finalHash, path[k..], i)
    {
      if i % 2 == 0 {
        finalHash := h(finalHash, path[k]);
      } else {
        finalHash := h(path[k], finalHash);
      }
      i := i / 2;
    }
    ok := finalHash == root;
  }

  // The parent of leaf i, computed from the leaf and its sibling.
  lemma ParentOf(h: Branch, s: seq<Hash>, i: nat)
    requires |s| % 2 == 0 && i < |s|
    ensures Sibling(i) < |s| && i / 2 < |PairUp(h, s)| == |s| / 2
    ensures PairUp(h, s)[i / 2] == if i % 2 == 0 then h(s[i], s[Sibling(i)]) else h(s[Sibling(i)], s[i])
  {
    PairAt(h, s, i / 2);
  }

  /** Folding the true path from the leaf gives the root. */
  lemma {:induction false} PathLeadsToRoot(h: Branch, s: seq<Hash>, d: nat, i: nat)
    requires |s| == Pow2(d) && i < |s|
    ensures Fold(h, s[i], TruePath(h, s, d, i), i) == Root(h, s)
    decreases d
  {
    if d > 0 {
      ParentOf(h, s, i);
      var rest := TruePath(h, PairUp(h, s), d - 1, i / 2);
      assert ([s[Sibling(i)]] + rest)[1..] == rest;
      PathLeadsToRoot(h, PairUp(h, s), d - 1, i / 2);
    }
  }

  ghost predicate Injective(h: Branch) { forall a, b, c, d :: h(a, b) == h(c, d) ==> a == c && b == d }

  /** With an injective hash, a path of full depth is accepted for shard i exactly when it is the true one and starts
      from leaf i. */
  lemma {:induction false} OnlyTruePath(h: Branch, s: seq<Hash>, i: nat, x: Hash, path: seq<Hash>)
    requires Injective(h) && |s| == Pow2(|path|) && i < |s|
    ensures Fold(h, x, path, i) == Root(h, s) <==> x == s[i] && path == TruePath(h, s, |path|, i)
    decreases path
  {
    if path != [] {
      ParentOf(h, s, i);
      var y := if i % 2 == 0 then h(x, path[0]) else h(path[0], x);
      OnlyTruePath(h, PairUp(h, s), i / 2, y, path[1..]);
      SplitHead(path, s[Sibling(i)], TruePath(h, PairUp(h, s), |path| - 1, i / 2));
    }
  }

  lemma SplitHead(path: seq<Hash>, x: Hash, rest: seq<Hash>)
    requires path != []
    ensures path == [x] + rest <==> path[0] == x && path[1..] == rest
  {
    assert path == [path[0]] + path[1..];
    assert ([x] + rest)[1..] == rest;
  }

  // The number in the low k bits of i.
  function Low(i: nat, k: nat): (r: nat)
    ensures r < Pow2(k) && (i < Pow2(k) ==> r == i)
  {
    if k == 0 then 0 else i % 2 + 2 * Low(i / 2, k - 1)
  }

  // Only as many bits of the shard's number count as the path is long.
  lemma {:induction false} LowBits(h: Branch, x: Hash, path: seq<Hash>, i: nat)
    ensures Fold(h, x, path, i) == Fold(h, x, path, Low(i, |path|))
    decreases path
  {
    if path != [] {
      var y := if i % 2 == 0 then h(x, path[0]) else h(path[0], x);
      LowBits(h, y, path[1..], i / 2);
    }
  }

  lemma {:induction false} LevelOfPow2(h: Branch, s: seq<Hash>, d: nat, l: nat)
    requires |s| == Pow2(d) && l <= d
    ensures |Level(h, s, l)| == Pow2(d - l) && Root(h, Level(h, s, l)) == Root(h, s)
  {
    if l > 0 {
      LevelOfPow2(h, s, d, l - 1);
      assert Pow2(d - (l - 1)) == 2 * Pow2(d - l);
    }
  }

  /** A path of any length up to the depth is accepted exactly when it is the true path of a node that many levels below
      the root, at the position given by the low bits of the shard's number. */
  lemma AcceptedExactly(h: Branch, s: seq<Hash>, d: nat, i: nat, x: Hash, path: seq<Hash>)
    requires Injective(h) && |s| == Pow2(d) && |path| <= d
    ensures var level, p := Level(h, s, d - |path|), Low(i, |path|);
            && |level| == Pow2(|path|) && p < |level|
            && (Fold(h, x, path, i) == Root(h, s) <==> x == level[p] && path == TruePath(h, level, |path|, p))
  {
    LevelOfPow2(h, s, d, d - |path|);
    LowBits(h, x, path, i);
    OnlyTruePath(h, Level(h, s, d - |path|), Low(i, |path|), x, path);
  }
}
