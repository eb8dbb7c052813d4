// The cross-shard coins in the body of a shard block: the root in its header (CreateMerkleCrossOutputCoin and
// VerifyMerkleCrossOutputCoin in blockchain/shardutils.go), the pre-sign check of the whole body, and the best heights
// that Update reads off it (blockchain/shardprocess.go), which indexes the last coin of every list.
module CrossShardBody {
  import opened Common
  import opened Delivery
  import opened MerkleStore
  import opened Sorting

  type Body = map<Shard, seq<Coin>>

  // ---------------------------------------------------------------------------------------------
  // The root in the header
  // ---------------------------------------------------------------------------------------------

  function Hashes(hash: Coin -> Hash, coins: seq<Coin>): (r: seq<Hash>) {
    if coins == [] then [] else Hashes(hash, coins[..|coins| - 1]) + [hash(coins[|coins| - 1])]
  }

  function Part(body: Body, s: int): (coins: seq<Coin>) { if 0 <= s < 256 && s in body then body[s] else [] }

  // The hashes of all coins of the shards below n, in shard order.
  function Listing(hash: Coin -> Hash, body: Body, n: nat): (r: seq<Hash>) {
    if n == 0 then [] else Listing(hash, body, n - 1) + Hashes(hash, Part(body, n - 1))
  }

  // The tree of fixed size: four leaf slots, whatever the number of hashes.
  function Four(h: Branch, s: seq<Hash>): (root: Node) {
    Combine(h, Combine(h, Leaf(s, 0), Leaf(s, 1)), Combine(h, Leaf(s, 2), Leaf(s, 3)))
  }

  predicate RootFits(h: Branch, hash: Coin -> Hash, body: Body, root: Hash) {
    if body == map[] then root == 0 else Four(h, Listing(hash, body, 256)) == Is(root)
  }

  method BuildMerkleTreeOfHashs(h: Branch, hashes: seq<Hash>) returns (root: Node)
    ensures root == Four(h, hashes)
  {
    var merkles := new Node[7](i => Leaf(hashes, i));
    var offset := 4;
    for k := 0 to 3
      invariant offset == 4 + k
      invariant forall j :: 0 <= j < 4 ==> merkles[j] == Leaf(hashes, j)
      invariant k > 0 ==> merkles[4] == Combine(h, Leaf(hashes, 0), Leaf(hashes, 1))
      invariant k > 1 ==> merkles[5] == Combine(h, Leaf(hashes, 2), Leaf(hashes, 3))
      invariant k > 2 ==> merkles[6] == Four(h, hashes)
    {
      var i := 2 * k;
      if merkles[i].Nil? {
        merkles[offset] := Nil;
      } else if merkles[i + 1].Nil? {
        merkles[offset] := Is(h(merkles[i].hash, merkles[i].hash));
      } else {
        merkles[offset] := Is(h(merkles[i].hash, merkles[i + 1].hash));
      }
      offset := offset + 1;
    }
    root := merkles[6];
  }

  method VerifyMerkleCrossOutputCoin(h: Branch, hash: Coin -> Hash, body: Body, root: Hash) returns (ok: bool)
    ensures ok == RootFits(h, hash, body, root)
  {
    if |body| == 0 {
      return root == 0;
    }
    var hashes: seq<Hash> := [];
    for s := 0 to 256
      invariant hashes == Listing(hash, body, s)
    {
      if s in body {
        var coins := body[s];
        for i := 0 to |coins|
          invariant hashes == Listing(hash, body, s) + Hashes(hash, coins[..i])
        {
          assert coins[..i + 1][..i] == coins[..i];
          hashes := hashes + [hash(coins[i])];
        }
        assert coins[..|coins|] == coins;
      }
    }
    var node := BuildMerkleTreeOfHashs(h, hashes);
    ok := node == Is(root);
  }

  lemma HashesSize(hash: Coin -> Hash, coins: seq<Coin>)
    ensures |Hashes(hash, coins)| == |coins|
  {
  }

  predicate Below(body: Body, n: nat) { exists s: Shard :: s < n && s in body && body[s] != [] }

  lemma {:induction false} ListingWhen(hash: Coin -> Hash, body: Body, n: nat)
    requires n <= 256
    ensures Listing(hash, body, n) != [] <==> Below(body, n)
  {
    if n > 0 {
      ListingWhen(hash, body, n - 1);
      HashesSize(hash, Part(body, n - 1));
      var last: Shard := n - 1;
      assert Below(body, n) <==> Below(body, n - 1) || (last in body && body[last] != []);
    }
  }

  // How many coins the shards below n have.
  function CoinsBelow(body: Body, n: nat): (c: nat) {
    if n == 0 then 0 else CoinsBelow(body, n - 1) + |Part(body, n - 1)|
  }

  lemma {:induction false} HashAt(hash: Coin -> Hash, coins: seq<Coin>, j: nat)
    requires j < |coins|
    ensures |Hashes(hash, coins)| == |coins| && Hashes(hash, coins)[j] == hash(coins[j])
  {
    HashesSize(hash, coins);
    HashesSize(hash, coins[..|coins| - 1]);
    if j < |coins| - 1 {
      HashAt(hash, coins[..|coins| - 1], j);
    }
  }

  /** The hashed coins come shard by shard in rising order, within a shard in the order of its list. */
  lemma {:induction false} ListingAt(hash: Coin -> Hash, body: Body, n: nat, s: nat, j: nat)
    requires s < n <= 256 && j < |Part(body, s)|
    ensures |Listing(hash, body, n)| == CoinsBelow(body, n)
    ensures CoinsBelow(body, s) + j < |Listing(hash, body, n)|
    ensures Listing(hash, body, n)[CoinsBelow(body, s) + j] == hash(Part(body, s)[j])
  {
    ListingSize(hash, body, n);
    ListingSize(hash, body, n - 1);
    if s == n - 1 {
      HashAt(hash, Part(body, s), j);
    } else {
      ListingAt(hash, body, n - 1, s, j);
    }
  }

  lemma {:induction false} ListingSize(hash: Coin -> Hash, body: Body, n: nat)
    ensures |Listing(hash, body, n)| == CoinsBelow(body, n)
  {
    if n > 0 {
      ListingSize(hash, body, n - 1);
      HashesSize(hash, Part(body, n - 1));
    }
  }

  predicate SomeFull(body: Body) { exists s: Shard :: s in body && body[s] != [] }

  predicate SomeEmpty(body: Body) { exists s: Shard :: s in body && body[s] == [] }

  /** Some header fits a body that names a shard exactly when some list in it holds a coin. */
  lemma SomeRootFits(h: Branch, hash: Coin -> Hash, body: Body)
    requires body != map[]
    ensures (exists root :: RootFits(h, hash, body, root)) <==> SomeFull(body)
  {
    var hashes := Listing(hash, body, 256);
    ListingWhen(hash, body, 256);
    assert Below(body, 256) <==> SomeFull(body);
    if hashes != [] {
      assert RootFits(h, hash, body, Four(h, hashes).hash);
    }
  }

  // ---------------------------------------------------------------------------------------------
  // The best heights
  // ---------------------------------------------------------------------------------------------

  // Indexing the last coin of an empty list stops the program.
  datatype Outcome = Panicked | Updated(best: map<Shard, nat>)

  function Last(coins: seq<Coin>): (h: nat)
    requires coins != []
  {
    coins[|coins| - 1].height
  }

  function Apply(best: map<Shard, nat>, body: Body): (r: Outcome) {
    if SomeEmpty(body) then Panicked
    else Updated(map s: Shard | s in best.Keys + body.Keys :: if s in body then Last(body[s]) else best[s])
  }

  /** The loop of Update over the named shards, in any order: it panics exactly when some list is empty. */
  method UpdateBest(best: map<Shard, nat>, body: Body) returns (r: Outcome)
    ensures r.Panicked? <==> SomeEmpty(body)
    ensures r == Apply(best, body)
  {
    var now := best;
    var todo := body.Keys;
    while todo != {}
      invariant todo <= body.Keys && now.Keys == best.Keys + (body.Keys - todo)
      invariant forall s: Shard :: s in body && s !in todo ==> body[s] != [] && now[s] == Last(body[s])
      invariant forall s: Shard :: s in best && (s !in body || s in todo) ==> now[s] == best[s]
      decreases todo
    {
      var shardID :| shardID in todo;
      var coins := body[shardID];
      if |coins| == 0 {
        return Panicked;
      }
      now := now[shardID := coins[|coins| - 1].height];
      todo := todo - {shardID};
    }
    r := Updated(now);
    assert now == Apply(best, body).best;
  }

  // ---------------------------------------------------------------------------------------------
  // Accepted, and then
  // ---------------------------------------------------------------------------------------------

  /** The tests on the cross-shard coins of a block before it is signed: the root, then every list. */
  method VerifyPreSign(h: Branch, hash: Coin -> Hash, body: Body, root: Hash, valid: map<Shard, seq<Cross>>,
                       best: map<Shard, nat>, next: map<Shard, map<nat, nat>>) returns (ok: bool)
    ensures ok <==> RootFits(h, hash, body, root) && AllPass(body, valid, best, next)
  {
    var fits := VerifyMerkleCrossOutputCoin(h, hash, body, root);
    if !fits {
      return false;
    }
    ok := VerifyCrossShard(body, valid, best, next);
  }

  /** A body passes the tests under some header and then stops Update exactly when one of its lists is empty, another is
      not, every named shard is pooled, and every list passes. */
  lemma AcceptedThenPanics(h: Branch, hash: Coin -> Hash, body: Body, valid: map<Shard, seq<Cross>>,
                           best: map<Shard, nat>, next: map<Shard, map<nat, nat>>)
    ensures (exists root :: RootFits(h, hash, body, root) && AllPass(body, valid, best, next))
            && Apply(best, body).Panicked?
            <==> SomeEmpty(body) && SomeFull(body) && AllPass(body, valid, best, next)
  {
    if SomeEmpty(body) {
      var s: Shard :| s in body && body[s] == [];
      assert body != map[];
      SomeRootFits(h, hash, body);
    }
  }

  /** Under the same tests, Update goes through exactly when no list is empty. */
  lemma AcceptedThenApplied(h: Branch, hash: Coin -> Hash, body: Body, root: Hash, valid: map<Shard, seq<Cross>>,
                            best: map<Shard, nat>, next: map<Shard, map<nat, nat>>)
    requires RootFits(h, hash, body, root) && AllPass(body, valid, best, next)
    ensures Apply(best, body).Updated? <==> forall s: Shard :: s in body ==> body[s] != []
    ensures Apply(best, body).Updated? ==>
              forall s: Shard :: s in body ==> Best(Apply(best, body).best, s) == Last(body[s])
  {
  }

  // Two shards, one with an empty list and one with the coin of its next block.
  lemma TwoShards(h: Branch, hash: Coin -> Hash, p: nat, other: Cross)
    ensures var body: Body := map[1 := [], 2 := [Coin(7, p)]];
            var valid: map<Shard, seq<Cross>> := map[1 := [other], 2 := [Cross(7, p, true)]];
            var next: map<Shard, map<nat, nat>> := map[2 := map[0 := 7, 7 := 0]];
            && (exists root :: RootFits(h, hash, body, root) && AllPass(body, valid, map[], next))
            && Apply(map[], body).Panicked?
  {
    var body: Body := map[1 := [], 2 := [Coin(7, p)]];
    var valid: map<Shard, seq<Cross>> := map[1 := [other], 2 := [Cross(7, p, true)]];
    var next: map<Shard, map<nat, nat>> := map[2 := map[0 := 7, 7 := 0]];
    OnePasses(p);
    assert body[1] == [] && body[2] != [];
    AcceptedThenPanics(h, hash, body, valid, map[], next);
  }

  lemma OnePasses(p: nat)
    ensures Passes([Coin(7, p)], Sort([Cross(7, p, true)], HeightKey), 0, map[0 := 7, 7 := 0])
  {
    var pool := [Cross(7, p, true)];
    assert Strict(pool, HeightKey);
    SortStrict(pool, HeightKey);
    assert Find(pool, 7) == 0;
  }
}
