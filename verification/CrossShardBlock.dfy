// Cross-shard blocks: what a sending shard puts into the block for one receiver (CreateCrossShardBlock in
// blockchain/shardblock.go) against the leaf the receiver recomputes and proves (VerifyCrossShardBlockUTXO and the
// grouping helpers in blockchain/shardutils.go).
module CrossShardBlock {
  import opened Filtering
  import opened Sorting
  import opened MerkleStore
  import opened ShardTxTree

  const SHARDS := 4   // MAX_SHARD_NUMBER
  const DEPTH := 2

  type Byte = n: nat | n < 256

  datatype Kind = Normal | Salary | CustomToken | CustomTokenPrivacy

  datatype Coin = Coin(lastByte: Byte, content: nat)

  datatype Vout = Vout(lastByte: Byte, content: nat)

  // The terms are the fields that a cross-shard copy keeps: name, symbol, amount and so on.
  datatype Token = Token(property: nat, terms: nat, vouts: seq<Vout>)

  // A transaction without a proof has no coins. The hidden coins are those inside a privacy-token transaction.
  datatype Tx = Tx(kind: Kind, coins: seq<Coin>, token: Token, hidden: seq<Coin>)

  // The hashes of a list of coins and of a list of tokens, and of two hashes.
  datatype Hashing = Hashing(coins: seq<Coin> -> Hash, tokens: seq<Token> -> Hash, pair: Branch)

  function ShardOf(b: Byte): (s: nat) { b % SHARDS }

  // The kinds whose coins the all-shards grouping looks at.
  predicate Counted(tx: Tx) { tx.kind.Normal? || tx.kind.Salary? || tx.kind.CustomToken? }

  // ---------------------------------------------------------------------------------------------
  // Coins
  // ---------------------------------------------------------------------------------------------

  // The sender compares the last byte itself, the grouping its remainder.
  predicate Goes(c: Coin, sid: nat, exact: bool) { if exact then c.lastByte == sid else ShardOf(c.lastByte) == sid }

  function Keep(coins: seq<Coin>, sid: nat, exact: bool): (r: seq<Coin>) {
    if coins == [] then []
    else
      var front := Keep(coins[..|coins| - 1], sid, exact);
      if Goes(coins[|coins| - 1], sid, exact) then front + [coins[|coins| - 1]] else front
  }

  function Sent(txs: seq<Tx>, sid: nat): (r: seq<Coin>) {
    if txs == [] then [] else Sent(txs[..|txs| - 1], sid) + Keep(txs[|txs| - 1].coins, sid, true)
  }

  function GroupedOne(tx: Tx, sid: nat): (r: seq<Coin>) { if Counted(tx) then Keep(tx.coins, sid, false) else [] }

  function Grouped(txs: seq<Tx>, sid: nat): (r: seq<Coin>) {
    if txs == [] then [] else Grouped(txs[..|txs| - 1], sid) + GroupedOne(txs[|txs| - 1], sid)
  }

  // Each coin goes to the shard by the sender's test exactly when it does by the grouping's.
  predicate Plain(tx: Tx, sid: nat) {
    forall j :: 0 <= j < |tx.coins| ==> (Goes(tx.coins[j], sid, true) <==> Counted(tx) && Goes(tx.coins[j], sid, false))
  }

  predicate AllPlain(txs: seq<Tx>, sid: nat) { forall i :: 0 <= i < |txs| ==> Plain(txs[i], sid) }

  lemma {:induction false} KeepMember(coins: seq<Coin>, sid: nat, exact: bool, c: Coin)
    ensures c in Keep(coins, sid, exact) <==> c in coins && Goes(c, sid, exact)
  {
    if coins != [] {
      KeepMember(coins[..|coins| - 1], sid, exact, c);
      assert coins == coins[..|coins| - 1] + [coins[|coins| - 1]];
    }
  }

  lemma {:induction false} KeepSame(coins: seq<Coin>, sid: nat)
    requires forall j :: 0 <= j < |coins| ==> (Goes(coins[j], sid, true) <==> Goes(coins[j], sid, false))
    ensures Keep(coins, sid, true) == Keep(coins, sid, false)
  {
    if coins != [] {
      KeepSame(coins[..|coins| - 1], sid);
    }
  }

  lemma KeepNone(coins: seq<Coin>, sid: nat, exact: bool)
    ensures Keep(coins, sid, exact) == [] <==> forall j :: 0 <= j < |coins| ==> !Goes(coins[j], sid, exact)
  {
    forall j | 0 <= j < |coins| ensures Goes(coins[j], sid, exact) ==> coins[j] in Keep(coins, sid, exact) {
      KeepMember(coins, sid, exact, coins[j]);
    }
    if Keep(coins, sid, exact) != [] {
      KeepMember(coins, sid, exact, Keep(coins, sid, exact)[0]);
    }
  }

  lemma PlainKeeps(tx: Tx, sid: nat)
    requires Plain(tx, sid)
    ensures Keep(tx.coins, sid, true) == GroupedOne(tx, sid)
  {
    if Counted(tx) {
      KeepSame(tx.coins, sid);
    } else {
      KeepNone(tx.coins, sid, true);
    }
  }

  // Every coin the grouping gives to the shard has the shard's number as its last byte.
  predicate NoStranger(tx: Tx, sid: nat) {
    forall c :: c in GroupedOne(tx, sid) ==> c.lastByte == sid
  }

  // Without strangers, the sender sends at least the grouped coins, and more unless the transaction is plain.
  lemma NoStrangerCount(tx: Tx, sid: nat)
    requires sid < SHARDS && NoStranger(tx, sid)
    ensures |GroupedOne(tx, sid)| <= |Keep(tx.coins, sid, true)|
    ensures |GroupedOne(tx, sid)| == |Keep(tx.coins, sid, true)| ==> Plain(tx, sid)
  {
    if Counted(tx) {
      forall j | 0 <= j < |tx.coins| ensures Goes(tx.coins[j], sid, true) <==> Goes(tx.coins[j], sid, false) {
        KeepMember(tx.coins, sid, false, tx.coins[j]);
      }
      KeepSame(tx.coins, sid);
    } else {
      KeepNone(tx.coins, sid, true);
    }
  }

  lemma PlainSnoc(txs: seq<Tx>, sid: nat)
    requires txs != []
    ensures AllPlain(txs[..|txs| - 1], sid) && Plain(txs[|txs| - 1], sid) ==> AllPlain(txs, sid)
  {
    assert txs == txs[..|txs| - 1] + [txs[|txs| - 1]];
  }

  lemma {:induction false} CountAll(txs: seq<Tx>, sid: nat)
    requires sid < SHARDS && forall c :: c in Grouped(txs, sid) ==> c.lastByte == sid
    ensures |Grouped(txs, sid)| <= |Sent(txs, sid)|
    ensures |Grouped(txs, sid)| == |Sent(txs, sid)| ==> AllPlain(txs, sid)
  {
    if txs != [] {
      var front, tx := txs[..|txs| - 1], txs[|txs| - 1];
      CountAll(front, sid);
      assert NoStranger(tx, sid);
      NoStrangerCount(tx, sid);
      PlainSnoc(txs, sid);
    }
  }

  lemma {:induction false} SentExact(txs: seq<Tx>, sid: nat, c: Coin)
    requires c in Sent(txs, sid)
    ensures c.lastByte == sid
  {
    var front, tx := txs[..|txs| - 1], txs[|txs| - 1];
    if c in Sent(front, sid) {
      SentExact(front, sid, c);
    } else {
      KeepMember(tx.coins, sid, true, c);
    }
  }

  lemma {:induction false} PlainSent(txs: seq<Tx>, sid: nat)
    requires AllPlain(txs, sid)
    ensures Sent(txs, sid) == Grouped(txs, sid)
  {
    if txs != [] {
      PlainSent(txs[..|txs| - 1], sid);
      PlainKeeps(txs[|txs| - 1], sid);
    }
  }

  /** The sender's coins for a shard are the grouped ones exactly when every coin passes both tests or neither. */
  lemma CoinsAgree(txs: seq<Tx>, sid: nat)
    requires sid < SHARDS
    ensures Sent(txs, sid) == Grouped(txs, sid) <==> AllPlain(txs, sid)
  {
    if AllPlain(txs, sid) {
      PlainSent(txs, sid);
    }
    if Sent(txs, sid) == Grouped(txs, sid) {
      forall c | c in Grouped(txs, sid) ensures c.lastByte == sid {
        SentExact(txs, sid, c);
      }
      CountAll(txs, sid);
    }
  }

  // The coins of all transactions, and of those that the grouping looks at.
  function Coins(txs: seq<Tx>, all: bool): (r: seq<Coin>) {
    if txs == [] then []
    else
      var front, last := Coins(txs[..|txs| - 1], all), txs[|txs| - 1];
      if all || !last.kind.CustomTokenPrivacy? then front + last.coins else front
  }

  function Ends(sid: nat, exact: bool): (goes: Coin -> bool) { (c: Coin) => Goes(c, sid, exact) }

  lemma {:induction false} KeepIsFilter(coins: seq<Coin>, sid: nat, exact: bool)
    ensures Keep(coins, sid, exact) == Filter(coins, Ends(sid, exact))
  {
    if coins != [] {
      KeepIsFilter(coins[..|coins| - 1], sid, exact);
    }
  }

  /** The sender sends, in order, exactly the coins of all transactions whose last byte is the shard's number. */
  lemma {:induction false} SentIsFilter(txs: seq<Tx>, sid: nat)
    ensures Sent(txs, sid) == Filter(Coins(txs, true), Ends(sid, true))
  {
    if txs != [] {
      var front, last := txs[..|txs| - 1], txs[|txs| - 1];
      SentIsFilter(front, sid);
      KeepIsFilter(last.coins, sid, true);
      FilterAppend(Coins(front, true), last.coins, Ends(sid, true));
    }
  }

  /** The group of a shard is, in order, exactly the coins whose remainder it is, of the transactions looked at. */
  lemma {:induction false} GroupedIsFilter(txs: seq<Tx>, sid: nat)
    ensures Grouped(txs, sid) == Filter(Coins(txs, false), Ends(sid, false))
  {
    if txs != [] {
      var front, last := txs[..|txs| - 1], txs[|txs| - 1];
      GroupedIsFilter(front, sid);
      KeepIsFilter(last.coins, sid, false);
      FilterAppend(Coins(front, false), last.coins, Ends(sid, false));
    }
  }

  /** Each coin of the transactions looked at is in the groups of the four shards as often as it is there. */
  lemma CoinsConserved(txs: seq<Tx>, c: Coin)
    ensures multiset(Grouped(txs, 0))[c] + multiset(Grouped(txs, 1))[c] + multiset(Grouped(txs, 2))[c]
            + multiset(Grouped(txs, 3))[c] == multiset(Coins(txs, false))[c]
  {
    GroupCount(txs, 0, c);
    GroupCount(txs, 1, c);
    GroupCount(txs, 2, c);
    GroupCount(txs, 3, c);
  }

  lemma GroupCount(txs: seq<Tx>, sid: nat, c: Coin)
    ensures multiset(Grouped(txs, sid))[c] == if c.lastByte % SHARDS == sid then multiset(Coins(txs, false))[c] else 0
  {
    GroupedIsFilter(txs, sid);
    FilterCount(Coins(txs, false), Ends(sid, false), c);
  }

  // ---------------------------------------------------------------------------------------------
  // Tokens
  // ---------------------------------------------------------------------------------------------

  function PropertyKey(t: Token): (k: int) { t.property }

  // One more output for a token: its record is copied on first use.
  function AddVout(m: map<nat, Token>, token: Token, v: Vout): (r: map<nat, Token>) {
    var t := if token.property in m then m[token.property] else token.(vouts := []);
    m[token.property := t.(vouts := t.vouts + [v])]
  }

  function AddVouts(m: map<nat, Token>, token: Token, vouts: seq<Vout>, sid: nat): (r: map<nat, Token>) {
    if vouts == [] then m
    else
      var front := AddVouts(m, token, vouts[..|vouts| - 1], sid);
      if ShardOf(vouts[|vouts| - 1].lastByte) == sid then AddVout(front, token, vouts[|vouts| - 1]) else front
  }

  function TokensOne(m: map<nat, Token>, tx: Tx, sid: nat): (r: map<nat, Token>) {
    if tx.kind.CustomToken? then AddVouts(m, tx.token, tx.token.vouts, sid) else m
  }

  function TokensFor(txs: seq<Tx>, sid: nat): (r: map<nat, Token>) {
    if txs == [] then map[] else TokensOne(TokensFor(txs[..|txs| - 1], sid), txs[|txs| - 1], sid)
  }

  // The records of a token map in the order of their properties.
  ghost predicate ListOf(m: map<nat, Token>, list: seq<Token>) {
    Strict(list, PropertyKey) && forall t :: t in list <==> t.property in m && m[t.property] == t
  }

  lemma ListUnique(m: map<nat, Token>, a: seq<Token>, b: seq<Token>)
    requires ListOf(m, a) && ListOf(m, b)
    ensures a == b
  {
    StrictUnique(a, b, PropertyKey);
  }

  predicate Keyed(m: map<nat, Token>) { forall k :: k in m ==> m[k].property == k }

  lemma {:induction false} AddVoutsKeyed(m: map<nat, Token>, token: Token, vouts: seq<Vout>, sid: nat)
    requires Keyed(m)
    ensures Keyed(AddVouts(m, token, vouts, sid))
  {
    if vouts != [] {
      AddVoutsKeyed(m, token, vouts[..|vouts| - 1], sid);
    }
  }

  lemma {:induction false} TokensKeyed(txs: seq<Tx>, sid: nat)
    ensures Keyed(TokensFor(txs, sid))
  {
    if txs != [] {
      TokensKeyed(txs[..|txs| - 1], sid);
      AddVoutsKeyed(TokensFor(txs[..|txs| - 1], sid), txs[|txs| - 1].token, txs[|txs| - 1].token.vouts, sid);
    }
  }

  // ---------------------------------------------------------------------------------------------
  // What the token records hold
  // ---------------------------------------------------------------------------------------------

  function To(sid: nat): (goes: Vout -> bool) { (v: Vout) => ShardOf(v.lastByte) == sid }

  // The outputs of a property, in the order of transactions and outputs.
  function Outputs(txs: seq<Tx>, property: nat): (r: seq<Vout>) {
    if txs == [] then []
    else
      var front, last := Outputs(txs[..|txs| - 1], property), txs[|txs| - 1];
      if last.kind.CustomToken? && last.token.property == property then front + last.token.vouts else front
  }

  predicate Sends(tx: Tx, property: nat, sid: nat) {
    tx.kind.CustomToken? && tx.token.property == property && Filter(tx.token.vouts, To(sid)) != []
  }

  // Transaction i is the first to send this property to the shard.
  predicate FirstSender(txs: seq<Tx>, property: nat, sid: nat, i: nat) {
    i < |txs| && Sends(txs[i], property, sid) && forall j :: 0 <= j < i ==> !Sends(txs[j], property, sid)
  }

  /** The record of a property for a shard: exactly the outputs that go there, in order, under the terms of the first
      transaction that sends there. */
  ghost predicate RecordFor(txs: seq<Tx>, sid: nat, t: Token) {
    && t.vouts == Filter(Outputs(txs, t.property), To(sid)) && t.vouts != []
    && exists i: nat :: FirstSender(txs, t.property, sid, i) && t.terms == txs[i].token.terms
  }

  /** A list of such records by property, one for every property that goes to the shard. */
  ghost predicate RecordsFor(txs: seq<Tx>, sid: nat, list: seq<Token>) {
    && Strict(list, PropertyKey)
    && (forall t :: t in list ==> RecordFor(txs, sid, t))
    && forall k :: Filter(Outputs(txs, k), To(sid)) != [] ==> exists t :: t in list && t.property == k
  }

  // One transaction's outputs for the shard join the record of its property.
  lemma {:induction false} VoutsJoin(m: map<nat, Token>, token: Token, vouts: seq<Vout>, sid: nat)
    ensures var r, p, kept := AddVouts(m, token, vouts, sid), token.property, Filter(vouts, To(sid));
            && (kept == [] ==> r == m)
            && (kept != [] ==> p in r && r == m[p := r[p]])
            && (kept != [] && p in m ==> r[p] == m[p].(vouts := m[p].vouts + kept))
            && (kept != [] && p !in m ==> r[p] == token.(vouts := kept))
  {
    if vouts != [] {
      var front, v := vouts[..|vouts| - 1], vouts[|vouts| - 1];
      VoutsJoin(m, token, front, sid);
      FilterOneMore(front, v, To(sid));
      assert vouts == front + [v];
    }
  }

  // The record of property k after the transactions so far.
  ghost predicate Recorded(txs: seq<Tx>, sid: nat, m: map<nat, Token>, k: nat) {
    && (k in m <==> Filter(Outputs(txs, k), To(sid)) != [])
    && (k in m ==> m[k].property == k && RecordFor(txs, sid, m[k]))
  }

  lemma OutputsOneMore(txs: seq<Tx>, tx: Tx, k: nat, sid: nat)
    ensures var more := if tx.kind.CustomToken? && tx.token.property == k then Filter(tx.token.vouts, To(sid)) else [];
            Filter(Outputs(txs + [tx], k), To(sid)) == Filter(Outputs(txs, k), To(sid)) + more
  {
    assert (txs + [tx])[..|txs|] == txs;
    FilterAppend(Outputs(txs, k), tx.token.vouts, To(sid));
  }

  // Nobody sends a property exactly when none of its outputs goes to the shard.
  lemma {:induction false} NobodySends(txs: seq<Tx>, k: nat, sid: nat)
    ensures Filter(Outputs(txs, k), To(sid)) == [] <==> forall i :: 0 <= i < |txs| ==> !Sends(txs[i], k, sid)
  {
    if txs != [] {
      var front, last := txs[..|txs| - 1], txs[|txs| - 1];
      NobodySends(front, k, sid);
      OutputsOneMore(front, last, k, sid);
      assert txs == front + [last];
    }
  }

  lemma FirstStays(txs: seq<Tx>, tx: Tx, k: nat, sid: nat, i: nat)
    requires FirstSender(txs, k, sid, i)
    ensures FirstSender(txs + [tx], k, sid, i) && (txs + [tx])[i] == txs[i]
  {
  }

  lemma FirstIsLast(txs: seq<Tx>, tx: Tx, k: nat, sid: nat)
    requires Sends(tx, k, sid) && forall i :: 0 <= i < |txs| ==> !Sends(txs[i], k, sid)
    ensures FirstSender(txs + [tx], k, sid, |txs|)
  {
  }

  lemma RecordedOneMore(txs: seq<Tx>, tx: Tx, sid: nat, m: map<nat, Token>, k: nat)
    requires Recorded(txs, sid, m, k)
    ensures Recorded(txs + [tx], sid, TokensOne(m, tx, sid), k)
  {
    OutputsOneMore(txs, tx, k, sid);
    if tx.kind.CustomToken? {
      VoutsJoin(m, tx.token, tx.token.vouts, sid);
    }
    if k in m {
      var i: nat :| FirstSender(txs, k, sid, i) && m[k].terms == txs[i].token.terms;
      FirstStays(txs, tx, k, sid, i);
    } else if Sends(tx, k, sid) {
      NobodySends(txs, k, sid);
      FirstIsLast(txs, tx, k, sid);
    }
  }

  lemma {:induction false} TokensAreRecorded(txs: seq<Tx>, sid: nat, k: nat)
    ensures Recorded(txs, sid, TokensFor(txs, sid), k)
  {
    if txs != [] {
      var front, last := txs[..|txs| - 1], txs[|txs| - 1];
      TokensAreRecorded(front, sid, k);
      RecordedOneMore(front, last, sid, TokensFor(front, sid), k);
      assert txs == front + [last];
    }
  }

  lemma ListIsRecords(txs: seq<Tx>, sid: nat, list: seq<Token>)
    requires ListOf(TokensFor(txs, sid), list)
    ensures RecordsFor(txs, sid, list)
  {
    var m := TokensFor(txs, sid);
    forall t | t in list ensures RecordFor(txs, sid, t) {
      TokensAreRecorded(txs, sid, t.property);
    }
    forall k | Filter(Outputs(txs, k), To(sid)) != [] ensures exists t :: t in list && t.property == k {
      TokensAreRecorded(txs, sid, k);
      assert m[k] in list;
    }
  }

  /** Nothing is lost between the shards: each output is in the records of the four shards as often as in the
      transactions of its property. */
  lemma OutputsConserved(txs: seq<Tx>, property: nat, v: Vout)
    ensures multiset(Filter(Outputs(txs, property), To(0)))[v] + multiset(Filter(Outputs(txs, property), To(1)))[v]
            + multiset(Filter(Outputs(txs, property), To(2)))[v] + multiset(Filter(Outputs(txs, property), To(3)))[v]
            == multiset(Outputs(txs, property))[v]
  {
    var all := Outputs(txs, property);
    FilterCount(all, To(0), v);
    FilterCount(all, To(1), v);
    FilterCount(all, To(2), v);
    FilterCount(all, To(3), v);
  }

  // The records in any order, then sorted.
  method ListTokens(m: map<nat, Token>) returns (list: seq<Token>)
    requires Keyed(m)
    ensures ListOf(m, list)
  {
    list := [];
    var todo := m.Keys;
    while todo != {}
      invariant todo <= m.Keys && DistinctKeys(list, PropertyKey)
      invariant forall t :: t in list <==> t.property in m && t.property !in todo && m[t.property] == t
      decreases todo
    {
      var k :| k in todo;
      forall j | 0 <= j < |list| ensures PropertyKey(list[j]) != k {
        assert list[j] in list;
      }
      list := list + [m[k]];
      todo := todo - {k};
    }
    SortDistinct(list, PropertyKey);
    SameElements(Sort(list, PropertyKey), list);
    list := Sort(list, PropertyKey);
  }

  // ---------------------------------------------------------------------------------------------
  // The sender's side
  // ---------------------------------------------------------------------------------------------

  method GetOutCoinCrossShard(txs: seq<Tx>, sid: nat) returns (coins: seq<Coin>)
    ensures coins == Sent(txs, sid)
  {
    coins := [];
    for i := 0 to |txs|
      invariant coins == Sent(txs[..i], sid)
    {
      var own := txs[i].coins;
      assert txs[..i + 1][..i] == txs[..i];
      for j := 0 to |own|
        invariant coins == Sent(txs[..i], sid) + Keep(own[..j], sid, true)
      {
        assert own[..j + 1][..j] == own[..j];
        if own[j].lastByte == sid {
          coins := coins + [own[j]];
        }
      }
      assert own[..|own|] == own;
    }
    assert txs[..|txs|] == txs;
  }

  method GetTxTokenDataCrossShard(txs: seq<Tx>, sid: nat) returns (list: seq<Token>)
    ensures ListOf(TokensFor(txs, sid), list)
    ensures RecordsFor(txs, sid, list)
  {
    var m: map<nat, Token> := map[];
    for i := 0 to |txs|
      invariant m == TokensFor(txs[..i], sid)
    {
      assert txs[..i + 1][..i] == txs[..i];
      if txs[i].kind.CustomToken? {
        var token, vouts := txs[i].token, txs[i].token.vouts;
        for j := 0 to |vouts|
          invariant m == AddVouts(TokensFor(txs[..i], sid), token, vouts[..j], sid)
        {
          assert vouts[..j + 1][..j] == vouts[..j];
          if ShardOf(vouts[j].lastByte) == sid {
            if token.property !in m {
              m := m[token.property := token.(vouts := [])];
            }
            ghost var before := AddVouts(TokensFor(txs[..i], sid), token, vouts[..j], sid);
            m := m[token.property := m[token.property].(vouts := m[token.property].vouts + [vouts[j]])];
            assert m == AddVout(before, token, vouts[j]);
          }
        }
        assert vouts[..|vouts|] == vouts;
      }
    }
    assert txs[..|txs|] == txs;
    TokensKeyed(txs, sid);
    list := ListTokens(m);
    ListIsRecords(txs, sid, list);
  }

  // ---------------------------------------------------------------------------------------------
  // The grouping for all shards
  // ---------------------------------------------------------------------------------------------

  method PutCoins(groups: seq<seq<Coin>>, coins: seq<Coin>) returns (r: seq<seq<Coin>>)
    requires |groups| == SHARDS
    ensures |r| == SHARDS && forall s :: 0 <= s < SHARDS ==> r[s] == groups[s] + Keep(coins, s, false)
  {
    r := groups;
    for i := 0 to |coins|
      invariant |r| == SHARDS && forall s :: 0 <= s < SHARDS ==> r[s] == groups[s] + Keep(coins[..i], s, false)
    {
      assert coins[..i + 1][..i] == coins[..i];
      var shard := ShardOf(coins[i].lastByte);
      r := r[shard := r[shard] + [coins[i]]];
    }
    assert coins[..|coins|] == coins;
  }

  method PutVouts(maps: seq<map<nat, Token>>, token: Token) returns (r: seq<map<nat, Token>>)
    requires |maps| == SHARDS
    ensures |r| == SHARDS && forall s :: 0 <= s < SHARDS ==> r[s] == AddVouts(maps[s], token, token.vouts, s)
  {
    r := maps;
    var vouts := token.vouts;
    for i := 0 to |vouts|
      invariant |r| == SHARDS && forall s :: 0 <= s < SHARDS ==> r[s] == AddVouts(maps[s], token, vouts[..i], s)
    {
      assert vouts[..i + 1][..i] == vouts[..i];
      var shard := ShardOf(vouts[i].lastByte);
      r := r[shard := AddVout(r[shard], token, vouts[i])];
    }
    assert vouts[..|vouts|] == vouts;
  }

  method GroupAll(txs: seq<Tx>) returns (coins: seq<seq<Coin>>, tokens: seq<map<nat, Token>>)
    ensures |coins| == SHARDS && forall s :: 0 <= s < SHARDS ==> coins[s] == Grouped(txs, s)
    ensures |tokens| == SHARDS && forall s :: 0 <= s < SHARDS ==> tokens[s] == TokensFor(txs, s)
  {
    coins, tokens := [[], [], [], []], [map[], map[], map[], map[]];
    for i := 0 to |txs|
      invariant |coins| == SHARDS && forall s :: 0 <= s < SHARDS ==> coins[s] == Grouped(txs[..i], s)
      invariant |tokens| == SHARDS && forall s :: 0 <= s < SHARDS ==> tokens[s] == TokensFor(txs[..i], s)
    {
      assert txs[..i + 1][..i] == txs[..i];
      if Counted(txs[i]) {
        coins := PutCoins(coins, txs[i].coins);
      }
      if txs[i].kind.CustomToken? {
        tokens := PutVouts(tokens, txs[i].token);
      }
    }
    assert txs[..|txs|] == txs;
  }

  // The data hash of one shard, from some listing of its tokens.
  ghost predicate DataHash(hs: Hashing, txs: seq<Tx>, s: nat, leaf: Hash) {
    exists list :: ListOf(TokensFor(txs, s), list) && leaf == hs.pair(hs.coins(Grouped(txs, s)), hs.tokens(list))
  }

  ghost predicate DataHashes(hs: Hashing, txs: seq<Tx>, leaves: seq<Hash>) {
    |leaves| == SHARDS && forall s :: 0 <= s < SHARDS ==> DataHash(hs, txs, s, leaves[s])
  }

  method GetCrossShardDataHash(hs: Hashing, txs: seq<Tx>) returns (leaves: seq<Hash>)
    ensures DataHashes(hs, txs, leaves)
  {
    var coins, tokens := GroupAll(txs);
    leaves := [];
    for s := 0 to SHARDS
      invariant |leaves| == s && forall t :: 0 <= t < s ==> DataHash(hs, txs, t, leaves[t])
    {
      TokensKeyed(txs, s);
      var list := ListTokens(tokens[s]);
      var leaf := hs.pair(hs.coins(coins[s]), hs.tokens(list));
      assert DataHash(hs, txs, s, leaf);
      leaves := leaves + [leaf];
    }
  }

  // ---------------------------------------------------------------------------------------------
  // The block
  // ---------------------------------------------------------------------------------------------

  datatype CrossBlock = CrossBlock(root: Hash, path: seq<Hash>, coins: seq<Coin>, tokens: seq<Token>, toShard: nat)

  datatype Creation = Created(block: CrossBlock) | NothingToSend | RootMismatch

  // What a created block holds.
  ghost predicate Creates(hs: Hashing, txs: seq<Tx>, sid: nat, b: CrossBlock) {
    && sid < SHARDS && b.coins == Sent(txs, sid) && ListOf(TokensFor(txs, sid), b.tokens) && b.toShard == sid
    && exists leaves :: CarriesPath(hs, txs, sid, b, leaves)
  }

  ghost predicate CarriesPath(hs: Hashing, txs: seq<Tx>, sid: nat, b: CrossBlock, leaves: seq<Hash>)
    requires sid < SHARDS
  {
    DataHashes(hs, txs, leaves) && b.path == TruePath(hs.pair, leaves, DEPTH, sid) && b.root == Root(hs.pair, leaves)
  }

  lemma LeavesUnique(hs: Hashing, txs: seq<Tx>, a: seq<Hash>, b: seq<Hash>)
    requires DataHashes(hs, txs, a) && DataHashes(hs, txs, b)
    ensures a == b
  {
    forall s | 0 <= s < SHARDS ensures a[s] == b[s] {
      SameHash(hs, txs, s, a[s], b[s]);
    }
  }

  lemma SameHash(hs: Hashing, txs: seq<Tx>, s: nat, a: Hash, b: Hash)
    requires DataHash(hs, txs, s, a) && DataHash(hs, txs, s, b)
    ensures a == b
  {
    var x :| ListOf(TokensFor(txs, s), x) && a == hs.pair(hs.coins(Grouped(txs, s)), hs.tokens(x));
    var y :| ListOf(TokensFor(txs, s), y) && b == hs.pair(hs.coins(Grouped(txs, s)), hs.tokens(y));
    ListUnique(TokensFor(txs, s), x, y);
  }

  // There is something to send to the shard.
  predicate Builds(txs: seq<Tx>, sid: nat) { Sent(txs, sid) != [] || TokensFor(txs, sid) != map[] }

  method CreateCrossShardBlock(hs: Hashing, txs: seq<Tx>, shardTxRoot: Hash, sid: nat) returns (r: Creation)
    requires sid < SHARDS
    ensures r.Created? ==> Creates(hs, txs, sid, r.block) && r.block.root == shardTxRoot
    ensures r.NothingToSend? <==> !Builds(txs, sid)
    ensures r.RootMismatch? ==> forall leaves :: DataHashes(hs, txs, leaves) ==> Root(hs.pair, leaves) != shardTxRoot
  {
    var coins := GetOutCoinCrossShard(txs, sid);
    var tokens := GetTxTokenDataCrossShard(txs, sid);
    ListEmpty(txs, sid, tokens);
    if |coins| == 0 && |tokens| == 0 {
      return NothingToSend;
    }
    var leaves := GetCrossShardDataHash(hs, txs);
    var path, root := GetMerklePathCrossShard(hs.pair, leaves, sid, DEPTH);
    if root != shardTxRoot {
      forall other | DataHashes(hs, txs, other) ensures Root(hs.pair, other) != shardTxRoot {
        LeavesUnique(hs, txs, leaves, other);
      }
      return RootMismatch;
    }
    var block := CrossBlock(root, path, coins, tokens, sid);
    assert CarriesPath(hs, txs, sid, block, leaves);
    return Created(block);
  }

  lemma ListEmpty(txs: seq<Tx>, sid: nat, list: seq<Token>)
    requires ListOf(TokensFor(txs, sid), list)
    ensures list == [] <==> TokensFor(txs, sid) == map[]
  {
    var m := TokensFor(txs, sid);
    TokensKeyed(txs, sid);
    if list != [] {
      assert list[0] in list;
    }
    if m != map[] {
      var k :| k in m;
      assert m[k] in list;
    }
  }

  function DataHashOf(hs: Hashing, b: CrossBlock): (leaf: Hash) { hs.pair(hs.coins(b.coins), hs.tokens(b.tokens)) }

  predicate Verifies(hs: Hashing, b: CrossBlock) { Fold(hs.pair, DataHashOf(hs, b), b.path, b.toShard) == b.root }

  method VerifyCrossShardBlockUTXO(hs: Hashing, b: CrossBlock) returns (ok: bool)
    ensures ok == Verifies(hs, b)
  {
    var finalHash := hs.pair(hs.coins(b.coins), hs.tokens(b.tokens));
    ok := VerifyMerkleTree(hs.pair, finalHash, b.path, b.root, b.toShard);
  }

  lemma SameLeaf(hs: Hashing, txs: seq<Tx>, sid: nat, b: CrossBlock, leaf: Hash)
    requires Creates(hs, txs, sid, b) && DataHash(hs, txs, sid, leaf)
    ensures leaf == hs.pair(hs.coins(Grouped(txs, sid)), hs.tokens(b.tokens))
  {
    var list :| ListOf(TokensFor(txs, sid), list) && leaf == hs.pair(hs.coins(Grouped(txs, sid)), hs.tokens(list));
    ListUnique(TokensFor(txs, sid), list, b.tokens);
  }

  /** A created block verifies whenever every coin to the shard passes both tests or neither. */
  lemma CreatedVerifies(hs: Hashing, txs: seq<Tx>, sid: nat, b: CrossBlock)
    requires Creates(hs, txs, sid, b) && AllPlain(txs, sid)
    ensures Verifies(hs, b)
  {
    var leaves :| CarriesPath(hs, txs, sid, b, leaves);
    assert DataHash(hs, txs, sid, leaves[sid]);
    SameLeaf(hs, txs, sid, b, leaves[sid]);
    CoinsAgree(txs, sid);
    assert Pow2(DEPTH) == SHARDS by { assert Pow2(0) == 1 && Pow2(1) == 2; }
    PathLeadsToRoot(hs.pair, leaves, DEPTH, sid);
  }

  /** With hashes that tell their inputs apart, a created block verifies exactly then. */
  lemma CreatedVerifiesExactly(hs: Hashing, txs: seq<Tx>, sid: nat, b: CrossBlock)
    requires Creates(hs, txs, sid, b) && Injective(hs.pair)
    requires hs.coins(Sent(txs, sid)) == hs.coins(Grouped(txs, sid)) ==> Sent(txs, sid) == Grouped(txs, sid)
    ensures Verifies(hs, b) <==> AllPlain(txs, sid)
  {
    if AllPlain(txs, sid) {
      CreatedVerifies(hs, txs, sid, b);
    }
    if Verifies(hs, b) {
      var leaves :| CarriesPath(hs, txs, sid, b, leaves);
      assert DataHash(hs, txs, sid, leaves[sid]);
      SameLeaf(hs, txs, sid, b, leaves[sid]);
      assert Pow2(DEPTH) == SHARDS by { assert Pow2(0) == 1 && Pow2(1) == 2; }
      assert |b.path| == DEPTH;
      OnlyTruePath(hs.pair, leaves, sid, DataHashOf(hs, b), b.path);
      CoinsAgree(txs, sid);
    }
  }

  // Two coins, one with the shard's number as its last byte and one with that number plus the number of shards: only
  // the first is sent and both are grouped, so the block is built and does not verify.
  lemma StrayCoin(hs: Hashing, sid: nat, tx: Tx, sent: Coin, stray: Coin, block: CrossBlock)
    requires sid < SHARDS && sent.lastByte == sid && stray.lastByte == sid + SHARDS
    requires tx.kind.Normal? && tx.coins == [sent, stray]
    requires Injective(hs.pair) && hs.coins([sent]) != hs.coins([sent, stray])
    requires Creates(hs, [tx], sid, block)
    ensures Builds([tx], sid) && !Verifies(hs, block)
  {
    StrayLists(tx, sid, sent, stray);
    NotPlain(tx, sid);
    CreatedVerifiesExactly(hs, [tx], sid, block);
  }

  lemma NotPlain(tx: Tx, sid: nat)
    requires sid < SHARDS && |tx.coins| == 2 && tx.coins[1].lastByte == sid + SHARDS && tx.kind.Normal?
    ensures !AllPlain([tx], sid)
  {
    assert Goes(tx.coins[1], sid, false) && !Goes(tx.coins[1], sid, true);
    assert !Plain([tx][0], sid);
  }

  lemma StrayLists(tx: Tx, sid: nat, sent: Coin, stray: Coin)
    requires sid < SHARDS && sent.lastByte == sid && stray.lastByte == sid + SHARDS
    requires tx.kind.Normal? && tx.coins == [sent, stray]
    ensures Sent([tx], sid) == [sent] && Grouped([tx], sid) == [sent, stray]
  {
    assert [tx][..0] == [] && tx.coins[..1] == [sent] && [sent][..0] == [];
    assert Keep([sent], sid, true) == [sent] && Keep([sent], sid, false) == [sent];
  }

  // ---------------------------------------------------------------------------------------------
  // Registered and built
  // ---------------------------------------------------------------------------------------------

  predicate VoutTo(vouts: seq<Vout>, sid: nat) { exists j :: 0 <= j < |vouts| && ShardOf(vouts[j].lastByte) == sid }

  predicate CoinTo(coins: seq<Coin>, sid: nat, exact: bool) {
    exists j :: 0 <= j < |coins| && Goes(coins[j], sid, exact)
  }

  // The header's byte array looks at coins, token outputs or hidden coins, depending on the kind.
  predicate MarkedByCoin(tx: Tx, sid: nat) {
    match tx.kind
    case Normal | Salary => CoinTo(tx.coins, sid, false)
    case CustomToken => false
    case CustomTokenPrivacy => CoinTo(tx.hidden, sid, false)
  }

  predicate SendsToken(tx: Tx, sid: nat) { tx.kind.CustomToken? && VoutTo(tx.token.vouts, sid) }

  predicate Marks(txs: seq<Tx>, sid: nat) {
    exists i :: 0 <= i < |txs| && (MarkedByCoin(txs[i], sid) || SendsToken(txs[i], sid))
  }

  // The last bytes that the header's byte array looks at.
  function LookedAt(tx: Tx): (bytes: seq<Byte>) {
    match tx.kind
    case Normal => LastBytes(tx.coins)
    case Salary => LastBytes(tx.coins)
    case CustomToken => seq(|tx.token.vouts|, i requires 0 <= i < |tx.token.vouts| => tx.token.vouts[i].lastByte)
    case CustomTokenPrivacy => LastBytes(tx.hidden)
  }

  function LastBytes(coins: seq<Coin>): (bytes: seq<Byte>) {
    seq(|coins|, i requires 0 <= i < |coins| => coins[i].lastByte)
  }

  predicate LooksTo(tx: Tx, sid: nat) { exists j :: 0 <= j < |LookedAt(tx)| && LookedAt(tx)[j] % 4 == sid }

  lemma MarkedMeans(tx: Tx, sid: nat)
    ensures MarkedByCoin(tx, sid) || SendsToken(tx, sid) <==> LooksTo(tx, sid)
  {
    if LooksTo(tx, sid) {
      var j :| 0 <= j < |LookedAt(tx)| && LookedAt(tx)[j] % 4 == sid;
      match tx.kind
      case Normal => assert Goes(tx.coins[j], sid, false);
      case Salary => assert Goes(tx.coins[j], sid, false);
      case CustomToken => assert ShardOf(tx.token.vouts[j].lastByte) == sid;
      case CustomTokenPrivacy => assert Goes(tx.hidden[j], sid, false);
    }
    if SendsToken(tx, sid) {
      var j :| 0 <= j < |tx.token.vouts| && ShardOf(tx.token.vouts[j].lastByte) == sid;
      assert LookedAt(tx)[j] % 4 == sid;
    }
    if MarkedByCoin(tx, sid) {
      var coins := if tx.kind.CustomTokenPrivacy? then tx.hidden else tx.coins;
      var j :| 0 <= j < |coins| && Goes(coins[j], sid, false);
      assert LookedAt(tx)[j] % 4 == sid;
    }
  }

  /** A shard is marked exactly when some last byte that is looked at has its number as remainder. */
  lemma MarksExactly(txs: seq<Tx>, sid: nat)
    ensures Marks(txs, sid) <==> exists i :: 0 <= i < |txs| && LooksTo(txs[i], sid)
  {
    forall i | 0 <= i < |txs| ensures MarkedByCoin(txs[i], sid) || SendsToken(txs[i], sid) <==> LooksTo(txs[i], sid) {
      MarkedMeans(txs[i], sid);
    }
  }

  method MarkCoins(marks: seq<bool>, coins: seq<Coin>) returns (r: seq<bool>)
    requires |marks| == SHARDS
    ensures |r| == SHARDS && forall s :: 0 <= s < SHARDS ==> r[s] == (marks[s] || CoinTo(coins, s, false))
  {
    r := marks;
    for j := 0 to |coins|
      invariant |r| == SHARDS && forall s :: 0 <= s < SHARDS ==> r[s] == (marks[s] || CoinTo(coins[..j], s, false))
    {
      CoinToSnoc(coins, j);
      r := r[ShardOf(ShardOf(coins[j].lastByte)) := true];
    }
    assert coins[..|coins|] == coins;
  }

  lemma CoinToSnoc(coins: seq<Coin>, j: nat)
    requires j < |coins|
    ensures forall s: nat ::
            CoinTo(coins[..j + 1], s, false) <==> CoinTo(coins[..j], s, false) || Goes(coins[j], s, false)
  {
    var a, b := coins[..j + 1], coins[..j];
    assert a == b + [coins[j]];
    forall s: nat ensures CoinTo(a, s, false) <==> CoinTo(b, s, false) || Goes(coins[j], s, false) {
      if CoinTo(b, s, false) {
        var k :| 0 <= k < |b| && Goes(b[k], s, false);
        assert Goes(a[k], s, false);
      }
      if Goes(coins[j], s, false) {
        assert Goes(a[j], s, false);
      }
    }
  }

  method MarkVouts(marks: seq<bool>, vouts: seq<Vout>) returns (r: seq<bool>)
    requires |marks| == SHARDS
    ensures |r| == SHARDS && forall s :: 0 <= s < SHARDS ==> r[s] == (marks[s] || VoutTo(vouts, s))
  {
    r := marks;
    for j := 0 to |vouts|
      invariant |r| == SHARDS && forall s :: 0 <= s < SHARDS ==> r[s] == (marks[s] || VoutTo(vouts[..j], s))
    {
      VoutToSnoc(vouts, j);
      r := r[ShardOf(ShardOf(vouts[j].lastByte)) := true];
    }
    assert vouts[..|vouts|] == vouts;
  }

  lemma VoutToSnoc(vouts: seq<Vout>, j: nat)
    requires j < |vouts|
    ensures forall s: nat :: VoutTo(vouts[..j + 1], s) <==> VoutTo(vouts[..j], s) || ShardOf(vouts[j].lastByte) == s
  {
    var a, b := vouts[..j + 1], vouts[..j];
    assert a == b + [vouts[j]];
    forall s: nat ensures VoutTo(a, s) <==> VoutTo(b, s) || ShardOf(vouts[j].lastByte) == s {
      if VoutTo(b, s) {
        var k :| 0 <= k < |b| && ShardOf(b[k].lastByte) == s;
        assert ShardOf(a[k].lastByte) == s;
      }
      if ShardOf(vouts[j].lastByte) == s {
        assert ShardOf(a[j].lastByte) == s;
      }
    }
  }

  lemma MarksSnoc(txs: seq<Tx>, i: nat)
    requires i < |txs|
    ensures forall s: nat ::
            Marks(txs[..i + 1], s) <==> Marks(txs[..i], s) || MarkedByCoin(txs[i], s) || SendsToken(txs[i], s)
  {
    var a, b := txs[..i + 1], txs[..i];
    assert a == b + [txs[i]];
    forall s: nat ensures Marks(a, s) <==> Marks(b, s) || MarkedByCoin(txs[i], s) || SendsToken(txs[i], s) {
      if Marks(b, s) {
        var k :| 0 <= k < |b| && (MarkedByCoin(b[k], s) || SendsToken(b[k], s));
        assert MarkedByCoin(a[k], s) || SendsToken(a[k], s);
      }
      if MarkedByCoin(txs[i], s) || SendsToken(txs[i], s) {
        assert MarkedByCoin(a[i], s) || SendsToken(a[i], s);
      }
    }
  }

  /** The shards named in the header: those marked, without the sender itself. */
  method CreateCrossShardByteArray(txs: seq<Tx>, from: nat) returns (ids: seq<nat>)
    ensures forall s: nat :: s in ids <==> s < SHARDS && s != from && Marks(txs, s)
    ensures forall i, j :: 0 <= i < j < |ids| ==> ids[i] < ids[j]
  {
    var marks := [false, false, false, false];
    for i := 0 to |txs|
      invariant |marks| == SHARDS && forall s :: 0 <= s < SHARDS ==> marks[s] == Marks(txs[..i], s)
    {
      MarksSnoc(txs, i);
      match txs[i].kind {
        case Normal | Salary => marks := MarkCoins(marks, txs[i].coins);
        case CustomToken => marks := MarkVouts(marks, txs[i].token.vouts);
        case CustomTokenPrivacy => marks := MarkCoins(marks, txs[i].hidden);
      }
    }
    assert txs[..|txs|] == txs;
    ids := [];
    for k := 0 to SHARDS
      invariant forall s: nat :: s in ids <==> s < k && s != from && Marks(txs, s)
      invariant forall i, j :: 0 <= i < j < |ids| ==> ids[i] < ids[j]
      invariant forall i :: 0 <= i < |ids| ==> ids[i] in ids
    {
      if marks[k] && k != from {
        ids := ids + [k];
      }
    }
  }

  // Some transaction has a coin that the sender sends to the shard.
  predicate SendsCoin(txs: seq<Tx>, sid: nat) { exists i :: 0 <= i < |txs| && CoinTo(txs[i].coins, sid, true) }

  predicate SomeToken(txs: seq<Tx>, sid: nat) { exists i :: 0 <= i < |txs| && SendsToken(txs[i], sid) }

  predicate SomeMarkedByCoin(txs: seq<Tx>, sid: nat) { exists i :: 0 <= i < |txs| && MarkedByCoin(txs[i], sid) }

  lemma {:induction false} SentWhen(txs: seq<Tx>, sid: nat)
    ensures Sent(txs, sid) != [] <==> SendsCoin(txs, sid)
  {
    if txs != [] {
      var front, last := txs[..|txs| - 1], txs[|txs| - 1];
      SentWhen(front, sid);
      KeepNone(last.coins, sid, true);
      assert txs == front + [last];
      assert SendsCoin(txs, sid) <==> SendsCoin(front, sid) || CoinTo(last.coins, sid, true) by {
        if SendsCoin(front, sid) {
          var i :| 0 <= i < |front| && CoinTo(front[i].coins, sid, true);
          assert CoinTo(txs[i].coins, sid, true);
        }
      }
    }
  }

  lemma {:induction false} VoutsFill(m: map<nat, Token>, token: Token, vouts: seq<Vout>, sid: nat)
    ensures AddVouts(m, token, vouts, sid) != map[] <==> m != map[] || VoutTo(vouts, sid)
  {
    if vouts != [] {
      var front, last := vouts[..|vouts| - 1], vouts[|vouts| - 1];
      VoutsFill(m, token, front, sid);
      VoutToSnoc(vouts, |vouts| - 1);
      assert vouts[..|vouts|] == vouts;
      var before := AddVouts(m, token, front, sid);
      assert token.property in AddVout(before, token, last);
    }
  }

  lemma {:induction false} TokensWhen(txs: seq<Tx>, sid: nat)
    ensures TokensFor(txs, sid) != map[] <==> SomeToken(txs, sid)
  {
    if txs != [] {
      var front, last := txs[..|txs| - 1], txs[|txs| - 1];
      TokensWhen(front, sid);
      VoutsFill(TokensFor(front, sid), last.token, last.token.vouts, sid);
      assert txs == front + [last];
      assert SomeToken(txs, sid) <==> SomeToken(front, sid) || SendsToken(last, sid) by {
        if SomeToken(front, sid) {
          var i :| 0 <= i < |front| && SendsToken(front[i], sid);
          assert SendsToken(txs[i], sid);
        }
      }
    }
  }

  lemma MarksWhen(txs: seq<Tx>, sid: nat)
    ensures Marks(txs, sid) <==> SomeToken(txs, sid) || SomeMarkedByCoin(txs, sid)
  {
  }

  /** The header names another shard exactly when a block is built for it, if and only if a token output goes there, or
      a coin that the header looks at goes there by its remainder just when some coin goes there by its last byte. */
  lemma RegisteredWhenBuilt(txs: seq<Tx>, sid: nat)
    ensures (Marks(txs, sid) <==> Builds(txs, sid)) <==>
              SomeToken(txs, sid) || (SomeMarkedByCoin(txs, sid) <==> SendsCoin(txs, sid))
  {
    SentWhen(txs, sid);
    TokensWhen(txs, sid);
    MarksWhen(txs, sid);
  }

  // A coin whose last byte is beyond the shard numbers: the beacon registers the height, and no block is built.
  lemma RegisteredNotBuilt(sid: nat, content: nat, token: Token)
    requires sid < SHARDS
    ensures var txs := [Tx(Normal, [Coin(sid + SHARDS, content)], token, [])]; Marks(txs, sid) && !Builds(txs, sid)
  {
    var tx := Tx(Normal, [Coin(sid + SHARDS, content)], token, []);
    assert Goes(tx.coins[0], sid, false) && MarkedByCoin([tx][0], sid);
    assert !CoinTo([tx][0].coins, sid, true) && !SendsCoin([tx], sid) && !SomeToken([tx], sid);
    RegisteredWhenBuilt([tx], sid);
  }

  // A coin of a token transaction: a block is built that the beacon never registers.
  lemma BuiltNotRegistered(sid: nat, content: nat, token: Token)
    requires sid < SHARDS && token.vouts == []
    ensures var txs := [Tx(CustomToken, [Coin(sid, content)], token, [])]; Builds(txs, sid) && !Marks(txs, sid)
  {
    var tx := Tx(CustomToken, [Coin(sid, content)], token, []);
    assert Goes(tx.coins[0], sid, true) && CoinTo([tx][0].coins, sid, true);
    assert !SomeToken([tx], sid) && !SomeMarkedByCoin([tx], sid);
    RegisteredWhenBuilt([tx], sid);
  }
}
