// The transaction tree in a linear array with missing nodes (blockchain/merkle.go), for any function that hashes two
// nodes into their parent.
module MerkleStore {
  type Hash = nat

  // A node of the array; the program's nil pointer is Nil.
  datatype Node = Nil | Is(hash: Hash)

  type Branch = (Hash, Hash) -> Hash

  // ---------------------------------------------------------------------------------------------
  // The recursive tree
  // ---------------------------------------------------------------------------------------------

  // One level up: neighbours are paired, and a lone last node is paired with itself.
  function PairUp(h: Branch, s: seq<Hash>): (r: seq<Hash>)
    ensures |r| == (|s| + 1) / 2
  {
    if |s| == 0 then [] else if |s| == 1 then [h(s[0], s[0])] else [h(s[0], s[1])] + PairUp(h, s[2..])
  }

  // Node k of the level above.
  lemma {:induction false} PairAt(h: Branch, s: seq<Hash>, k: nat)
    requires 2 * k < |s|
    ensures PairUp(h, s)[k] == h(s[2 * k], if 2 * k + 1 < |s| then s[2 * k + 1] else s[2 * k])
  {
    if k > 0 {
      PairAt(h, s[2..], k - 1);
    }
  }

  function Root(h: Branch, s: seq<Hash>): (r: Hash)
    requires s != []
    decreases |s|
  {
    if |s| == 1 then s[0] else Root(h, PairUp(h, s))
  }

  function Level(h: Branch, s: seq<Hash>, l: nat): (r: seq<Hash>) {
    if l == 0 then s else PairUp(h, Level(h, s, l - 1))
  }

  function Pow2(n: nat): (r: nat)
    ensures r > 0
  {
    if n == 0 then 1 else 2 * Pow2(n - 1)
  }

  /** Level l has a node at p exactly when the first leaf below it exists: p below n / 2^l, rounded up. */
  lemma {:induction false} LevelSize(h: Branch, s: seq<Hash>, l: nat, p: nat)
    ensures p < |Level(h, s, l)| <==> p * Pow2(l) < |s|
  {
    if l > 0 {
      LevelSize(h, s, l - 1, 2 * p);
      assert (2 * p) * Pow2(l - 1) == p * Pow2(l);
    }
  }

  // ---------------------------------------------------------------------------------------------
  // The array
  // ---------------------------------------------------------------------------------------------

  function Combine(h: Branch, left: Node, right: Node): (r: Node) {
    if left.Nil? then Nil else if right.Nil? then Is(h(left.hash, left.hash)) else Is(h(left.hash, right.hash))
  }

  function Leaf(s: seq<Hash>, i: nat): (r: Node) { if i < |s| then Is(s[i]) else Nil }

  predicate Parent(h: Branch, a: seq<Node>, width: nat, k: nat) {
    2 * k + 1 < |a| && width + k < |a| && a[width + k] == Combine(h, a[2 * k], a[2 * k + 1])
  }

  predicate Parents(h: Branch, a: seq<Node>, width: nat, n: int) { forall k :: 0 <= k < n ==> Parent(h, a, width, k) }

  // The leaves come first, padded with missing nodes; slot width + k is the parent of slots 2k and 2k + 1.
  predicate Store(h: Branch, leaves: seq<Hash>, width: nat, a: seq<Node>) {
    && 0 < width && |a| == 2 * width - 1
    && (forall i :: 0 <= i < width ==> a[i] == Leaf(leaves, i))
    && Parents(h, a, width, width - 1)
  }

  // The least power of two at or above n.
  method NextPowerOfTwo(n: nat) returns (p: nat, ghost exponent: nat)
    requires n > 0
    ensures n <= p < 2 * n && p == Pow2(exponent)
  {
    p, exponent := 1, 0;
    while p < n
      invariant p < 2 * n && p == Pow2(exponent)
      decreases n - p
    {
      p, exponent := 2 * p, exponent + 1;
    }
  }

  lemma OneMoreParent(h: Branch, was: seq<Node>, a: seq<Node>, width: nat, n: nat)
    requires Parents(h, was, width, n) && |a| == |was| && n + 1 < width && width + n < |a|
    requires a == was[width + n := Combine(h, was[2 * n], was[2 * n + 1])]
    ensures Parents(h, a, width, n + 1)
  {
    forall k | 0 <= k < n ensures Parent(h, a, width, k) {
      assert Parent(h, was, width, k);
    }
  }

  method BuildMerkleTreeStore(h: Branch, leaves: seq<Hash>) returns (merkles: array<Node>, ghost depth: nat)
    ensures leaves == [] ==> merkles.Length == 0
    ensures leaves != [] ==> |leaves| <= Pow2(depth) < 2 * |leaves| && Store(h, leaves, Pow2(depth), merkles[..])
  {
    if |leaves| == 0 {
      return new Node[0], 0;
    }
    var nextPoT;
    nextPoT, depth := NextPowerOfTwo(|leaves|);
    var arraySize := nextPoT * 2 - 1;
    merkles := new Node[arraySize](_ => Nil);
    for i := 0 to |leaves|
      invariant forall j :: 0 <= j < arraySize ==> merkles[j] == if j < i then Is(leaves[j]) else Nil
    {
      merkles[i] := Is(leaves[i]);
    }
    var offset, i := nextPoT, 0;
    while i < arraySize - 1
      invariant 0 <= i <= arraySize - 1 && i % 2 == 0 && offset == nextPoT + i / 2
      invariant forall j :: 0 <= j < nextPoT ==> merkles[j] == Leaf(leaves, j)
      invariant Parents(h, merkles[..], nextPoT, i / 2)
    {
      ghost var was := merkles[..];
      if merkles[i].Nil? {
        merkles[offset] := Nil;
      } else if merkles[i + 1].Nil? {
        merkles[offset] := Is(h(merkles[i].hash, merkles[i].hash));
      } else {
        merkles[offset] := Is(h(merkles[i].hash, merkles[i + 1].hash));
      }
      OneMoreParent(h, was, merkles[..], nextPoT, i / 2);
      i, offset := i + 2, offset + 1;
    }
  }

  // A stretch of the array is a level of the tree, padded with missing nodes.
  predicate Padded(a: seq<Node>, start: nat, width: nat, s: seq<Hash>) {
    start + width <= |a| && forall p :: 0 <= p < width ==> NodeIs(a, start, p, s)
  }

  predicate NodeIs(a: seq<Node>, start: nat, p: nat, s: seq<Hash>) { start + p < |a| && a[start + p] == Leaf(s, p) }

  lemma ParentLevel(h: Branch, a: seq<Node>, n: nat, width: nat, s: seq<Hash>)
    requires |a| == 2 * n - 1 && 0 < width && 2 * width <= n && Parents(h, a, n, n - 1)
    requires Padded(a, 2 * n - 4 * width, 2 * width, s)
    ensures Padded(a, 2 * n - 2 * width, width, PairUp(h, s))
  {
    var up, start := PairUp(h, s), 2 * n - 2 * width;
    forall p | 0 <= p < width ensures NodeIs(a, start, p, up) {
      assert Parent(h, a, n, n - 2 * width + p);
      assert NodeIs(a, 2 * n - 4 * width, 2 * p, s) && NodeIs(a, 2 * n - 4 * width, 2 * p + 1, s);
      if p < |up| {
        PairAt(h, s, p);
      }
    }
  }

  /** Every level of the tree lies in its place in the array: level l, of width 2^(depth - l), begins where twice its
      width is left over. */
  lemma {:induction false} StoreLevel(h: Branch, leaves: seq<Hash>, depth: nat, a: seq<Node>, l: nat)
    requires Store(h, leaves, Pow2(depth), a) && |leaves| <= Pow2(depth) && l <= depth
    ensures Pow2(depth - l) <= Pow2(depth)
    ensures Padded(a, 2 * Pow2(depth) - 2 * Pow2(depth - l), Pow2(depth - l), Level(h, leaves, l))
  {
    if l > 0 {
      StoreLevel(h, leaves, depth, a, l - 1);
      assert Pow2(depth - (l - 1)) == 2 * Pow2(depth - l);
      ParentLevel(h, a, Pow2(depth), Pow2(depth - l), Level(h, leaves, l - 1));
    }
  }

  /** Node p of level l is missing exactly when p is at least n / 2^l rounded up, and is otherwise the tree's node. */
  lemma NodeOfLevel(h: Branch, leaves: seq<Hash>, depth: nat, a: seq<Node>, l: nat, p: nat)
    requires Store(h, leaves, Pow2(depth), a) && |leaves| <= Pow2(depth) && l <= depth && p < Pow2(depth - l)
    ensures Pow2(depth - l) <= Pow2(depth)
    ensures var node := a[2 * Pow2(depth) - 2 * Pow2(depth - l) + p];
            && (node.Nil? <==> |leaves| <= p * Pow2(l))
            && (node.Is? ==> p < |Level(h, leaves, l)| && node.hash == Level(h, leaves, l)[p])
  {
    StoreLevel(h, leaves, depth, a, l);
    LevelSize(h, leaves, l, p);
    assert NodeIs(a, 2 * Pow2(depth) - 2 * Pow2(depth - l), p, Level(h, leaves, l));
  }

  lemma {:induction false} RootOfLevel(h: Branch, s: seq<Hash>, depth: nat, l: nat)
    requires s != [] && |s| <= Pow2(depth) < 2 * |s| && l <= depth
    ensures |Level(h, s, l)| <= Pow2(depth - l) < 2 * |Level(h, s, l)|
    ensures Level(h, s, l) != [] && Root(h, Level(h, s, l)) == Root(h, s)
  {
    if l > 0 {
      RootOfLevel(h, s, depth, l - 1);
      assert Pow2(depth - (l - 1)) == 2 * Pow2(depth - l);
    }
  }

  /** The last slot is the root of the recursive tree that duplicates a lone left child. */
  lemma LastIsRoot(h: Branch, leaves: seq<Hash>, depth: nat, a: seq<Node>)
    requires leaves != [] && |leaves| <= Pow2(depth) < 2 * |leaves| && Store(h, leaves, Pow2(depth), a)
    ensures a[|a| - 1] == Is(Root(h, leaves))
  {
    RootOfLevel(h, leaves, depth, depth);
    TopNode(h, leaves, depth, a);
  }

  lemma TopNode(h: Branch, leaves: seq<Hash>, depth: nat, a: seq<Node>)
    requires leaves != [] && |leaves| <= Pow2(depth) < 2 * |leaves| && Store(h, leaves, Pow2(depth), a)
    ensures NodeIs(a, 2 * Pow2(depth) - 2, 0, Level(h, leaves, depth))
  {
    StoreLevel(h, leaves, depth, a, depth);
    assert Pow2(depth - depth) == 1;
  }

  method CalcMerkleRoot(h: Branch, leaves: seq<Hash>) returns (root: Hash)
    ensures root == if leaves == [] then 0 else Root(h, leaves)
  {
    if |leaves| == 0 {
      return 0;
    }
    var merkles, depth := BuildMerkleTreeStore(h, leaves);
    LastIsRoot(h, leaves, depth, merkles[..]);
    root := merkles[merkles.Length - 1].hash;
  }
}
