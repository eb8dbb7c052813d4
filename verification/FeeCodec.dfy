// The binary format of the saved fee estimator: Save and RestoreFeeEstimator of mempool/estimatefee.go.
module FeeCodec {
  import opened FeeLedger
  import opened MachineWords
  import opened Sorting

  type Byte = n: nat | n < 256

  const VERSION: Uint32 := 1
  const TWO31: nat := 0x8000_0000

  // ---------------------------------------------------------------------------------------------
  // Words
  // ---------------------------------------------------------------------------------------------

  function Pow256(k: nat): (p: nat) { if k == 0 then 1 else 256 * Pow256(k - 1) }

  // The k low bytes of n, most significant first.
  function BigEndian(n: nat, k: nat): (s: seq<Byte>)
    ensures |s| == k
  {
    if k == 0 then [] else BigEndian(n / 256, k - 1) + [n % 256]
  }

  function FromBigEndian(s: seq<Byte>): (n: nat)
    ensures n < Pow256(|s|)
  {
    if s == [] then 0 else FromBigEndian(s[..|s| - 1]) * 256 + s[|s| - 1]
  }

  lemma {:induction false} WordRoundTrip(n: nat, k: nat)
    requires n < Pow256(k)
    ensures FromBigEndian(BigEndian(n, k)) == n
  {
    if k > 0 {
      WordRoundTrip(n / 256, k - 1);
      assert BigEndian(n, k)[..k - 1] == BigEndian(n / 256, k - 1);
    }
  }

  lemma {:induction false} PowAdd(a: nat, b: nat)
    ensures Pow256(a + b) == Pow256(a) * Pow256(b)
  {
    if a > 0 {
      PowAdd(a - 1, b);
      assert 256 * (Pow256(a - 1) * Pow256(b)) == (256 * Pow256(a - 1)) * Pow256(b);
    }
  }

  lemma WordSizes()
    ensures Pow256(4) == TWO32 && Pow256(8) == TWO64 && Pow256(32) == TWO256
  {
    assert Pow256(2) == 0x1_0000;
    PowAdd(2, 2);
    PowAdd(4, 4);
    PowAdd(8, 8);
    PowAdd(16, 16);
    assert Pow256(16) == TWO64 * TWO64;
    assert Pow256(32) == (TWO64 * TWO64) * (TWO64 * TWO64) == TWO256;
  }

  function Reverse<T>(s: seq<T>): (r: seq<T>)
    ensures |r| == |s| && forall i :: 0 <= i < |s| ==> r[i] == s[|s| - 1 - i]
  {
    seq(|s|, i requires 0 <= i < |s| => s[|s| - 1 - i])
  }

  // A hash is written as its 32 bytes; its printed form, which orders hashes, has them reversed.
  function HashBytes(h: Hash): (s: seq<Byte>) ensures |s| == 32 { Reverse(BigEndian(h, 32)) }

  // A reader is the rest of the data. A read past the end consumes it and leaves zero.
  datatype Read<T> = Read(value: T, rest: seq<Byte>)

  function ReadWord(data: seq<Byte>, k: nat): (r: Read<nat>)
    ensures r.value < Pow256(k)
  {
    if |data| < k then ZeroFits(k); Read(0, []) else Read(FromBigEndian(data[..k]), data[k..])
  }

  lemma {:induction false} ZeroFits(k: nat)
    ensures 0 < Pow256(k)
  {
    if k > 0 {
      ZeroFits(k - 1);
    }
  }

  function ReadHash(data: seq<Byte>): (r: Read<Hash>) {
    WordSizes();
    if |data| < 32 then Read(0, []) else Read(FromBigEndian(Reverse(data[..32])), data[32..])
  }

  lemma ReadWritten(n: nat, k: nat, rest: seq<Byte>)
    requires n < Pow256(k)
    ensures ReadWord(BigEndian(n, k) + rest, k) == Read(n, rest)
  {
    WordRoundTrip(n, k);
    assert (BigEndian(n, k) + rest)[..k] == BigEndian(n, k);
    assert (BigEndian(n, k) + rest)[k..] == rest;
  }

  lemma ReadWritten32(n: Uint32, rest: seq<Byte>)
    ensures ReadWord(BigEndian(n, 4) + rest, 4) == Read(n, rest)
  {
    WordSizes();
    ReadWritten(n, 4, rest);
  }

  lemma ReadWritten64(n: Uint64, rest: seq<Byte>)
    ensures ReadWord(BigEndian(n, 8) + rest, 8) == Read(n, rest)
  {
    WordSizes();
    ReadWritten(n, 8, rest);
  }

  lemma ReadWrittenHash(h: Hash, rest: seq<Byte>)
    ensures ReadHash(HashBytes(h) + rest) == Read(h, rest)
  {
    WordSizes();
    WordRoundTrip(h, 32);
    var data := HashBytes(h) + rest;
    assert data[..32] == HashBytes(h) && data[32..] == rest;
    assert Reverse(HashBytes(h)) == BigEndian(h, 32);
  }

  // ---------------------------------------------------------------------------------------------
  // The saved state
  // ---------------------------------------------------------------------------------------------

  datatype Params = Params(maxRollback: Uint32, binSize: int, maxReplacements: int, minBlocks: Uint32,
                           height: Uint64, blocks: Uint32)

  datatype State = State(params: Params, txs: map<Ref, Tx>, observed: map<Hash, Ref>,
                         bin: seq<seq<Ref>>, dropped: seq<Registered>)

  predicate Int32(n: int) { -(TWO31 as int) <= n < TWO31 }

  function Unsigned32(n: int): (u: Uint32) requires Int32(n) { if n < 0 then n + TWO32 else n }
  function Signed32(u: Uint32): (n: int) ensures Int32(n) { if u < TWO31 then u else u - TWO32 }

  // What the format can hold: 32-bit counts, and an index that leads to records of the right hash.
  predicate Storable(s: State) {
    && Int32(s.params.binSize) && Int32(s.params.maxReplacements)
    && Indexed(s.txs, s.observed)
    && |s.observed| < TWO32 && |s.bin| == DEPTH && |s.dropped| < TWO32
    && (forall b :: 0 <= b < DEPTH ==> |s.bin[b]| < TWO32)
    && (forall k :: 0 <= k < |s.dropped| ==> |s.dropped[k].transactions| < TWO32)
  }

  // The observed hashes in ascending order: what Save writes first.
  ghost predicate InOrder(order: seq<Hash>, observed: map<Hash, Ref>) {
    && Sorted(order, (h: Hash) => h) && NoDup(order)
    && forall h :: h in order <==> h in observed
  }

  function RecordAt(s: State, order: seq<Hash>, i: nat): (t: Tx)
    requires i < |order| && forall h :: h in order ==> h in s.observed && s.observed[h] in s.txs
  {
    s.txs[s.observed[order[i]]]
  }

  predicate Listed(s: State, order: seq<Hash>) { forall h :: h in order ==> h in s.observed && s.observed[h] in s.txs }

  function Records(s: State, order: seq<Hash>): (ts: seq<Tx>)
    requires Listed(s, order)
    ensures |ts| == |order|
  {
    seq(|order|, i requires 0 <= i < |order| => RecordAt(s, order, i))
  }

  // The place of a record in the list; a record that is not in the list gets the zero value of the map.
  function IndexOf(s: State, order: seq<Hash>, r: Ref): (i: nat)
    requires Listed(s, order)
    ensures i < |order| || i == 0
  {
    if order == [] then 0
    else if s.observed[order[|order| - 1]] == r then |order| - 1
    else IndexOf(s, order[..|order| - 1], r)
  }

  function Indices(s: State, order: seq<Hash>, refs: seq<Ref>): (ix: seq<nat>)
    requires Listed(s, order)
    ensures |ix| == |refs|
  {
    seq(|refs|, i requires 0 <= i < |refs| => IndexOf(s, order, refs[i]))
  }

  // ---------------------------------------------------------------------------------------------
  // Writing
  // ---------------------------------------------------------------------------------------------

  function WriteParams(p: Params): (w: seq<Byte>)
    requires Int32(p.binSize) && Int32(p.maxReplacements)
  {
    BigEndian(p.maxRollback, 4) + BigEndian(Unsigned32(p.binSize), 4) + BigEndian(Unsigned32(p.maxReplacements), 4)
    + BigEndian(p.minBlocks, 4) + BigEndian(p.height, 8) + BigEndian(p.blocks, 4)
  }

  function WriteTx(t: Tx): (w: seq<Byte>) {
    HashBytes(t.hash) + (BigEndian(t.feeRate, 8) + (BigEndian(t.observed, 8) + BigEndian(t.mined, 8)))
  }

  function WriteTxs(ts: seq<Tx>): (w: seq<Byte>) {
    if ts == [] then [] else WriteTx(ts[0]) + WriteTxs(ts[1..])
  }

  function WriteWords(ns: seq<nat>): (w: seq<Byte>) {
    if ns == [] then [] else BigEndian(ns[0], 4) + WriteWords(ns[1..])
  }

  function WriteList(ns: seq<nat>): (w: seq<Byte>) { BigEndian(|ns|, 4) + WriteWords(ns) }

  function WriteLists(lists: seq<seq<nat>>): (w: seq<Byte>) {
    if lists == [] then [] else WriteList(lists[0]) + WriteLists(lists[1..])
  }

  datatype Entry = Entry(hash: Hash, indices: seq<nat>)

  function WriteEntries(es: seq<Entry>): (w: seq<Byte>) {
    if es == [] then [] else HashBytes(es[0].hash) + (WriteList(es[0].indices) + WriteEntries(es[1..]))
  }

  function BinIndices(s: State, order: seq<Hash>): (lists: seq<seq<nat>>)
    requires Listed(s, order)
    ensures |lists| == |s.bin|
  {
    seq(|s.bin|, b requires 0 <= b < |s.bin| => Indices(s, order, s.bin[b]))
  }

  function Entries(s: State, order: seq<Hash>): (es: seq<Entry>)
    requires Listed(s, order)
    ensures |es| == |s.dropped|
  {
    seq(|s.dropped|, k requires 0 <= k < |s.dropped| =>
      Entry(s.dropped[k].hash, Indices(s, order, s.dropped[k].transactions)))
  }

  function Encode(s: State, order: seq<Hash>): (w: seq<Byte>)
    requires Storable(s) && Listed(s, order)
  {
    BigEndian(VERSION, 4) + (WriteParams(s.params) + (BigEndian(|order|, 4) + (WriteTxs(Records(s, order))
    + (WriteLists(BinIndices(s, order)) + (BigEndian(|s.dropped|, 4) + WriteEntries(Entries(s, order)))))))
  }

  // ---------------------------------------------------------------------------------------------
  // Reading
  // ---------------------------------------------------------------------------------------------

  function ReadParams(data: seq<Byte>): (r: Read<Params>) {
    WordSizes();
    var a := ReadWord(data, 4);
    var b := ReadWord(a.rest, 4);
    var c := ReadWord(b.rest, 4);
    var d := ReadWord(c.rest, 4);
    var e := ReadWord(d.rest, 8);
    var f := ReadWord(e.rest, 4);
    Read(Params(a.value, Signed32(b.value), Signed32(c.value), d.value, e.value, f.value), f.rest)
  }

  function ReadTx(data: seq<Byte>): (r: Read<Tx>) {
    WordSizes();
    var a := ReadHash(data);
    var b := ReadWord(a.rest, 8);
    var c := ReadWord(b.rest, 8);
    var d := ReadWord(c.rest, 8);
    Read(Tx(a.value, b.value, c.value, d.value), d.rest)
  }

  function ReadTxs(data: seq<Byte>, n: nat): (r: Read<seq<Tx>>)
    ensures |r.value| == n
    decreases n
  {
    if n == 0 then Read([], data)
    else
      var a := ReadTx(data);
      var b := ReadTxs(a.rest, n - 1);
      Read([a.value] + b.value, b.rest)
  }

  function ReadWords(data: seq<Byte>, n: nat): (r: Read<seq<nat>>)
    ensures |r.value| == n
    decreases n
  {
    if n == 0 then Read([], data)
    else
      var a := ReadWord(data, 4);
      var b := ReadWords(a.rest, n - 1);
      Read([a.value] + b.value, b.rest)
  }

  function ReadList(data: seq<Byte>): (r: Read<seq<nat>>) {
    var n := ReadWord(data, 4);
    ReadWords(n.rest, n.value)
  }

  function ReadLists(data: seq<Byte>, n: nat): (r: Read<seq<seq<nat>>>)
    ensures |r.value| == n
    decreases n
  {
    if n == 0 then Read([], data)
    else
      var a := ReadList(data);
      var b := ReadLists(a.rest, n - 1);
      Read([a.value] + b.value, b.rest)
  }

  function ReadEntries(data: seq<Byte>, n: nat): (r: Read<seq<Entry>>)
    ensures |r.value| == n
    decreases n
  {
    if n == 0 then Read([], data)
    else
      var h := ReadHash(data);
      var a := ReadList(h.rest);
      var b := ReadEntries(a.rest, n - 1);
      Read([Entry(h.value, a.value)] + b.value, b.rest)
  }

  datatype Result<T> = Ok(value: T) | NoVersion | WrongVersion(found: nat) | BadReference

  // Record i of the data is allocated as Ref(i); an index past the list is a nil pointer.
  function Pointer(n: nat, count: nat): (r: Ref) { if n < count then Ref(n) else Nil }

  function Pointers(ix: seq<nat>, count: nat): (rs: seq<Ref>)
    ensures |rs| == |ix|
  {
    seq(|ix|, i requires 0 <= i < |ix| => Pointer(ix[i], count))
  }

  function Store(ts: seq<Tx>): (m: map<Ref, Tx>) {
    map i | 0 <= i < |ts| :: Ref(i) := ts[i]
  }

  // A later record of the same hash replaces an earlier one.
  function IndexByHash(ts: seq<Tx>): (m: map<Hash, Ref>) {
    if ts == [] then map[] else IndexByHash(ts[..|ts| - 1])[ts[|ts| - 1].hash := Ref(|ts| - 1)]
  }

  function Assemble(p: Params, ts: seq<Tx>, lists: seq<seq<nat>>, es: seq<Entry>): (r: Result<State>) {
    if exists b, j :: 0 <= b < |lists| && 0 <= j < |lists[b]| && lists[b][j] >= |ts| then BadReference
    else Ok(State(p, Store(ts), IndexByHash(ts),
                  seq(|lists|, b requires 0 <= b < |lists| => Pointers(lists[b], |ts|)),
                  seq(|es|, k requires 0 <= k < |es| => Registered(es[k].hash, Pointers(es[k].indices, |ts|)))))
  }

  function DecodeLists(p: Params, ts: seq<Tx>, data: seq<Byte>): (r: Result<State>) {
    var lists := ReadLists(data, DEPTH);
    var m := ReadWord(lists.rest, 4);
    var es := ReadEntries(m.rest, m.value);
    Assemble(p, ts, lists.value, es.value)
  }

  function DecodeBody(data: seq<Byte>): (r: Result<State>) {
    var p := ReadParams(data);
    var n := ReadWord(p.rest, 4);
    var ts := ReadTxs(n.rest, n.value);
    DecodeLists(p.value, ts.value, ts.rest)
  }

  function Decode(data: seq<Byte>): (r: Result<State>) {
    if |data| < 4 then NoVersion
    else
      var version := ReadWord(data, 4);
      if version.value != VERSION then WrongVersion(version.value) else DecodeBody(version.rest)
  }

  // ---------------------------------------------------------------------------------------------
  // What is written is read back
  // ---------------------------------------------------------------------------------------------

  lemma ParamsRoundTrip(p: Params, rest: seq<Byte>)
    requires Int32(p.binSize) && Int32(p.maxReplacements)
    ensures ReadParams(WriteParams(p) + rest) == Read(p, rest)
  {
    var f := BigEndian(p.blocks, 4) + rest;
    var e := BigEndian(p.height, 8) + f;
    var d := BigEndian(p.minBlocks, 4) + e;
    var c := BigEndian(Unsigned32(p.maxReplacements), 4) + d;
    var b := BigEndian(Unsigned32(p.binSize), 4) + c;
    assert WriteParams(p) + rest == BigEndian(p.maxRollback, 4) + b;
    ReadWritten32(p.maxRollback, b);
    ReadWritten32(Unsigned32(p.binSize), c);
    ReadWritten32(Unsigned32(p.maxReplacements), d);
    ReadWritten32(p.minBlocks, e);
    ReadWritten64(p.height, f);
    ReadWritten32(p.blocks, rest);
  }

  lemma TxRoundTrip(t: Tx, rest: seq<Byte>)
    ensures ReadTx(WriteTx(t) + rest) == Read(t, rest)
  {
    var d := BigEndian(t.mined, 8) + rest;
    var c := BigEndian(t.observed, 8) + d;
    var b := BigEndian(t.feeRate, 8) + c;
    assert WriteTx(t) + rest == HashBytes(t.hash) + b;
    ReadWrittenHash(t.hash, b);
    ReadWritten64(t.feeRate, c);
    ReadWritten64(t.observed, d);
    ReadWritten64(t.mined, rest);
  }

  lemma {:induction false} TxsRoundTrip(ts: seq<Tx>, rest: seq<Byte>)
    ensures ReadTxs(WriteTxs(ts) + rest, |ts|) == Read(ts, rest)
  {
    if ts == [] {
      assert WriteTxs(ts) + rest == rest;
    } else {
      var after := WriteTxs(ts[1..]) + rest;
      assert WriteTxs(ts) + rest == WriteTx(ts[0]) + after;
      TxRoundTrip(ts[0], after);
      TxsRoundTrip(ts[1..], rest);
      assert ts == [ts[0]] + ts[1..];
    }
  }

  predicate Small(ns: seq<nat>) { |ns| < TWO32 && forall i :: 0 <= i < |ns| ==> ns[i] < TWO32 }

  lemma {:induction false} WordsRoundTrip(ns: seq<nat>, rest: seq<Byte>)
    requires forall i :: 0 <= i < |ns| ==> ns[i] < TWO32
    ensures ReadWords(WriteWords(ns) + rest, |ns|) == Read(ns, rest)
  {
    if ns == [] {
      assert WriteWords(ns) + rest == rest;
    } else {
      var after := WriteWords(ns[1..]) + rest;
      assert WriteWords(ns) + rest == BigEndian(ns[0], 4) + after;
      ReadWritten32(ns[0], after);
      WordsRoundTrip(ns[1..], rest);
      assert ns == [ns[0]] + ns[1..];
    }
  }

  lemma ListRoundTrip(ns: seq<nat>, rest: seq<Byte>)
    requires Small(ns)
    ensures ReadList(WriteList(ns) + rest) == Read(ns, rest)
  {
    assert WriteList(ns) + rest == BigEndian(|ns|, 4) + (WriteWords(ns) + rest);
    ReadWritten32(|ns|, WriteWords(ns) + rest);
    WordsRoundTrip(ns, rest);
  }

  lemma {:induction false} ListsRoundTrip(lists: seq<seq<nat>>, rest: seq<Byte>)
    requires forall b :: 0 <= b < |lists| ==> Small(lists[b])
    ensures ReadLists(WriteLists(lists) + rest, |lists|) == Read(lists, rest)
  {
    if lists == [] {
      assert WriteLists(lists) + rest == rest;
    } else {
      var after := WriteLists(lists[1..]) + rest;
      assert WriteLists(lists) + rest == WriteList(lists[0]) + after;
      ListRoundTrip(lists[0], after);
      ListsRoundTrip(lists[1..], rest);
      assert lists == [lists[0]] + lists[1..];
    }
  }

  lemma {:induction false} EntriesRoundTrip(es: seq<Entry>, rest: seq<Byte>)
    requires forall k :: 0 <= k < |es| ==> Small(es[k].indices)
    ensures ReadEntries(WriteEntries(es) + rest, |es|) == Read(es, rest)
  {
    if es == [] {
      assert WriteEntries(es) + rest == rest;
    } else {
      var after := WriteEntries(es[1..]) + rest;
      var list := WriteList(es[0].indices) + after;
      assert WriteEntries(es) + rest == HashBytes(es[0].hash) + list;
      ReadWrittenHash(es[0].hash, list);
      ListRoundTrip(es[0].indices, after);
      EntriesRoundTrip(es[1..], rest);
      assert es == [es[0]] + es[1..];
    }
  }

  lemma IndicesAreSmall(s: State, order: seq<Hash>, refs: seq<Ref>)
    requires Listed(s, order) && |order| < TWO32 && |refs| < TWO32
    ensures Small(Indices(s, order, refs))
  {
  }

  lemma OrderSize(order: seq<Hash>, observed: map<Hash, Ref>)
    requires NoDup(order) && forall h :: h in order <==> h in observed
    ensures |order| == |observed|
  {
    CountElems(order);
    assert observed.Keys == Elems(order);
  }

  lemma ListsDecode(p: Params, ts: seq<Tx>, lists: seq<seq<nat>>, es: seq<Entry>)
    requires |lists| == DEPTH && |es| < TWO32
    requires forall b :: 0 <= b < |lists| ==> Small(lists[b])
    requires forall k :: 0 <= k < |es| ==> Small(es[k].indices)
    ensures DecodeLists(p, ts, WriteLists(lists) + (BigEndian(|es|, 4) + WriteEntries(es)))
            == Assemble(p, ts, lists, es)
  {
    var r := WriteEntries(es);
    ListsRoundTrip(lists, BigEndian(|es|, 4) + r);
    ReadWritten32(|es|, r);
    assert r == r + [];
    EntriesRoundTrip(es, []);
  }

  lemma BodyDecodes(p: Params, ts: seq<Tx>, rest: seq<Byte>)
    requires Int32(p.binSize) && Int32(p.maxReplacements) && |ts| < TWO32
    ensures DecodeBody(WriteParams(p) + (BigEndian(|ts|, 4) + (WriteTxs(ts) + rest))) == DecodeLists(p, ts, rest)
  {
    var r := WriteTxs(ts) + rest;
    ParamsRoundTrip(p, BigEndian(|ts|, 4) + r);
    ReadWritten32(|ts|, r);
    TxsRoundTrip(ts, rest);
  }

  // Decoding what was encoded assembles exactly the written parts.
  lemma DecodeEncode(s: State, order: seq<Hash>)
    requires Storable(s) && InOrder(order, s.observed)
    ensures Listed(s, order)
    ensures Decode(Encode(s, order)) == Assemble(s.params, Records(s, order), BinIndices(s, order), Entries(s, order))
  {
    OrderSize(order, s.observed);
    var lists, es := BinIndices(s, order), Entries(s, order);
    forall b | 0 <= b < |lists| ensures Small(lists[b]) {
      IndicesAreSmall(s, order, s.bin[b]);
    }
    forall k | 0 <= k < |es| ensures Small(es[k].indices) {
      IndicesAreSmall(s, order, s.dropped[k].transactions);
    }
    var ts := Records(s, order);
    var tail := WriteLists(lists) + (BigEndian(|es|, 4) + WriteEntries(es));
    ReadWritten32(VERSION, WriteParams(s.params) + (BigEndian(|ts|, 4) + (WriteTxs(ts) + tail)));
    BodyDecodes(s.params, ts, tail);
    ListsDecode(s.params, ts, lists, es);
  }

  // ---------------------------------------------------------------------------------------------
  // Sharing is preserved
  // ---------------------------------------------------------------------------------------------

  function Image(f: map<Ref, Ref>, refs: seq<Ref>): (rs: seq<Ref>) {
    seq(|refs|, i requires 0 <= i < |refs| => if refs[i] in f then f[refs[i]] else Nil)
  }

  // f renames the records of s to those of t, one to one, and everything that points to a record follows.
  ghost predicate Renames(s: State, t: State, f: map<Ref, Ref>) {
    && (forall q, r :: q in f && r in f && f[q] == f[r] ==> q == r)
    && (forall r :: r in f ==> r in s.txs && f[r] in t.txs && t.txs[f[r]] == s.txs[r])
    && t.params == s.params
    && t.observed.Keys == s.observed.Keys
    && (forall h :: h in s.observed ==> s.observed[h] in f && t.observed[h] == f[s.observed[h]])
    && |t.bin| == |s.bin|
    && (forall b :: 0 <= b < |s.bin| ==> Elems(s.bin[b]) <= f.Keys && t.bin[b] == Image(f, s.bin[b]))
    && |t.dropped| == |s.dropped|
    && (forall k :: 0 <= k < |s.dropped| ==>
          Elems(s.dropped[k].transactions) <= f.Keys &&
          t.dropped[k] == Registered(s.dropped[k].hash, Image(f, s.dropped[k].transactions)))
  }

  ghost predicate Isomorphic(s: State, t: State) { exists f :: Renames(s, t, f) }

  predicate Reachable(s: State, r: Ref) { r in s.txs && s.txs[r].hash in s.observed && s.observed[s.txs[r].hash] == r }

  // Every binned or dropped record can be reached through `observed`.
  predicate AllReachable(s: State) {
    && (forall b, r :: 0 <= b < |s.bin| && r in s.bin[b] ==> Reachable(s, r))
    && (forall k, r :: 0 <= k < |s.dropped| && r in s.dropped[k].transactions ==> Reachable(s, r))
  }

  // A record of the list is found at its place.
  lemma {:induction false} IndexOfListed(s: State, order: seq<Hash>, i: nat)
    requires Listed(s, order) && Indexed(s.txs, s.observed) && NoDup(order) && i < |order|
    ensures IndexOf(s, order, s.observed[order[i]]) == i
  {
    var last := |order| - 1;
    if i < last {
      assert s.txs[s.observed[order[i]]].hash == order[i] && s.txs[s.observed[order[last]]].hash == order[last];
      IndexOfListed(s, order[..last], i);
    }
  }

  lemma {:induction false} HashIndex(ts: seq<Tx>, i: nat)
    requires i < |ts| && forall j, k :: 0 <= j < k < |ts| ==> ts[j].hash != ts[k].hash
    ensures ts[i].hash in IndexByHash(ts) && IndexByHash(ts)[ts[i].hash] == Ref(i)
  {
    if i < |ts| - 1 {
      HashIndex(ts[..|ts| - 1], i);
      assert ts[..|ts| - 1][i] == ts[i];
    }
  }

  lemma {:induction false} HashIndexKeys(ts: seq<Tx>, h: Hash)
    ensures h in IndexByHash(ts) <==> exists i :: 0 <= i < |ts| && ts[i].hash == h
  {
    if ts != [] {
      var front := ts[..|ts| - 1];
      HashIndexKeys(front, h);
      assert ts == front + [ts[|ts| - 1]];
      if i :| 0 <= i < |front| && front[i].hash == h {
        assert ts[i].hash == h;
      }
    }
  }

  // The restored index: the same hashes, each leading to the record at its place in the list.
  lemma RestoredIndex(s: State, order: seq<Hash>)
    requires Storable(s) && InOrder(order, s.observed) && Listed(s, order)
    ensures IndexByHash(Records(s, order)).Keys == s.observed.Keys
    ensures forall i :: 0 <= i < |order| ==> IndexByHash(Records(s, order))[order[i]] == Ref(i)
  {
    var ts := Records(s, order);
    forall i | 0 <= i < |order| ensures ts[i].hash == order[i] {
    }
    forall h ensures h in IndexByHash(ts) <==> h in s.observed {
      HashIndexKeys(ts, h);
      if h in order {
        var i :| 0 <= i < |order| && order[i] == h;
        assert ts[i].hash == h;
      }
    }
    forall i | 0 <= i < |order| ensures IndexByHash(ts)[order[i]] == Ref(i) {
      HashIndex(ts, i);
    }
  }

  function Renaming(s: State, order: seq<Hash>): (f: map<Ref, Ref>)
    requires Listed(s, order)
  {
    map r | r in s.txs && s.txs[r].hash in order && s.observed[s.txs[r].hash] == r :: Ref(IndexOf(s, order, r))
  }

  lemma RenamingAt(s: State, order: seq<Hash>, r: Ref) returns (i: nat)
    requires Storable(s) && InOrder(order, s.observed) && Listed(s, order) && Reachable(s, r)
    ensures i < |order| && s.observed[order[i]] == r && IndexOf(s, order, r) == i
    ensures r in Renaming(s, order) && Renaming(s, order)[r] == Ref(i)
  {
    i :| 0 <= i < |order| && order[i] == s.txs[r].hash;
    IndexOfListed(s, order, i);
  }

  lemma PointersFollow(s: State, order: seq<Hash>, refs: seq<Ref>)
    requires Storable(s) && InOrder(order, s.observed) && Listed(s, order)
    requires forall r :: r in refs ==> Reachable(s, r)
    ensures Pointers(Indices(s, order, refs), |order|) == Image(Renaming(s, order), refs)
    ensures Elems(refs) <= Renaming(s, order).Keys
    ensures forall j :: 0 <= j < |refs| ==> Indices(s, order, refs)[j] < |order|
  {
    forall j | 0 <= j < |refs|
      ensures refs[j] in Renaming(s, order) && Indices(s, order, refs)[j] < |order|
      ensures Pointer(Indices(s, order, refs)[j], |order|) == Renaming(s, order)[refs[j]]
    {
      var i := RenamingAt(s, order, refs[j]);
    }
  }

  lemma RenamingIsOneToOne(s: State, order: seq<Hash>, q: Ref, r: Ref)
    requires Storable(s) && InOrder(order, s.observed) && Listed(s, order)
    requires q in Renaming(s, order) && r in Renaming(s, order) && Renaming(s, order)[q] == Renaming(s, order)[r]
    ensures q == r
  {
    var i := RenamingAt(s, order, q);
    var j := RenamingAt(s, order, r);
  }

  lemma RenamingRecords(s: State, order: seq<Hash>, r: Ref)
    requires Storable(s) && InOrder(order, s.observed) && Listed(s, order) && r in Renaming(s, order)
    ensures Renaming(s, order)[r] in Store(Records(s, order))
    ensures Store(Records(s, order))[Renaming(s, order)[r]] == s.txs[r]
  {
    var i := RenamingAt(s, order, r);
    assert Records(s, order)[i] == s.txs[r];
  }

  // The state that is assembled from what Save wrote.
  function Rebuilt(s: State, order: seq<Hash>): (r: Result<State>)
    requires Listed(s, order)
  {
    Assemble(s.params, Records(s, order), BinIndices(s, order), Entries(s, order))
  }

  lemma RebuiltLists(s: State, order: seq<Hash>)
    requires Storable(s) && InOrder(order, s.observed) && Listed(s, order) && AllReachable(s)
    ensures Rebuilt(s, order).Ok?
    ensures var t, f := Rebuilt(s, order).value, Renaming(s, order);
            && |t.bin| == |s.bin| && |t.dropped| == |s.dropped|
            && (forall b :: 0 <= b < |s.bin| ==> Elems(s.bin[b]) <= f.Keys && t.bin[b] == Image(f, s.bin[b]))
            && (forall k :: 0 <= k < |s.dropped| ==>
                  Elems(s.dropped[k].transactions) <= f.Keys &&
                  t.dropped[k] == Registered(s.dropped[k].hash, Image(f, s.dropped[k].transactions)))
  {
    var f, n := Renaming(s, order), |order|;
    var lists := BinIndices(s, order);
    forall b | 0 <= b < |s.bin|
      ensures Pointers(lists[b], n) == Image(f, s.bin[b]) && Elems(s.bin[b]) <= f.Keys
      ensures forall j :: 0 <= j < |lists[b]| ==> lists[b][j] < n
    {
      PointersFollow(s, order, s.bin[b]);
    }
    forall k | 0 <= k < |s.dropped|
      ensures Pointers(Entries(s, order)[k].indices, n) == Image(f, s.dropped[k].transactions)
      ensures Elems(s.dropped[k].transactions) <= f.Keys
    {
      PointersFollow(s, order, s.dropped[k].transactions);
    }
  }

  lemma RebuiltIsIsomorphic(s: State, order: seq<Hash>)
    requires Storable(s) && InOrder(order, s.observed) && Listed(s, order) && AllReachable(s)
    ensures Rebuilt(s, order).Ok? && Isomorphic(s, Rebuilt(s, order).value)
  {
    RebuiltLists(s, order);
    RestoredIndex(s, order);
    var t, f := Rebuilt(s, order).value, Renaming(s, order);
    forall h | h in s.observed ensures s.observed[h] in f && t.observed[h] == f[s.observed[h]] {
      var i := RenamingAt(s, order, s.observed[h]);
    }
    forall q, r | q in f && r in f && f[q] == f[r] ensures q == r {
      RenamingIsOneToOne(s, order, q, r);
    }
    forall r | r in f ensures r in s.txs && f[r] in t.txs && t.txs[f[r]] == s.txs[r] {
      RenamingRecords(s, order, r);
    }
    assert Renames(s, t, f);
  }

  // A restored pointer that is the image of a record can only be the image of an observed one.
  lemma ImageIsReachable(s: State, order: seq<Hash>, t: State, f: map<Ref, Ref>, r: Ref, n: nat)
    requires Storable(s) && InOrder(order, s.observed) && Listed(s, order)
    requires t.txs == Store(Records(s, order)) && t.observed == IndexByHash(Records(s, order))
    requires Renames(s, t, f) && r in f && f[r] == Pointer(n, |order|)
    ensures Reachable(s, r)
  {
    RestoredIndex(s, order);
    assert f[r] in t.txs;
    assert t.observed[order[n]] == Ref(n) == f[s.observed[order[n]]];
  }

  lemma ListIsReachable(s: State, order: seq<Hash>, t: State, f: map<Ref, Ref>, refs: seq<Ref>)
    requires Storable(s) && InOrder(order, s.observed) && Listed(s, order)
    requires t.txs == Store(Records(s, order)) && t.observed == IndexByHash(Records(s, order))
    requires Renames(s, t, f) && Elems(refs) <= f.Keys
    requires Pointers(Indices(s, order, refs), |order|) == Image(f, refs)
    ensures forall r :: r in refs ==> Reachable(s, r)
  {
    forall r | r in refs ensures Reachable(s, r) {
      var i :| 0 <= i < |refs| && refs[i] == r;
      assert r in Elems(refs);
      assert Image(f, refs)[i] == f[r];
      ImageIsReachable(s, order, t, f, r, Indices(s, order, refs)[i]);
    }
  }

  lemma RenamedListsReachable(s: State, order: seq<Hash>, t: State, f: map<Ref, Ref>)
    requires Storable(s) && InOrder(order, s.observed) && Listed(s, order)
    requires Rebuilt(s, order) == Ok(t) && Renames(s, t, f)
    ensures forall b, r :: 0 <= b < |s.bin| && r in s.bin[b] ==> Reachable(s, r)
  {
    forall b | 0 <= b < |s.bin| ensures forall r :: r in s.bin[b] ==> Reachable(s, r) {
      assert t.bin[b] == Pointers(BinIndices(s, order)[b], |order|);
      ListIsReachable(s, order, t, f, s.bin[b]);
    }
  }

  lemma RenamedEntriesReachable(s: State, order: seq<Hash>, t: State, f: map<Ref, Ref>)
    requires Storable(s) && InOrder(order, s.observed) && Listed(s, order)
    requires Rebuilt(s, order) == Ok(t) && Renames(s, t, f)
    ensures forall k, r :: 0 <= k < |s.dropped| && r in s.dropped[k].transactions ==> Reachable(s, r)
  {
    forall k | 0 <= k < |s.dropped| ensures forall r :: r in s.dropped[k].transactions ==> Reachable(s, r) {
      assert t.dropped[k].transactions == Pointers(Entries(s, order)[k].indices, |order|);
      ListIsReachable(s, order, t, f, s.dropped[k].transactions);
    }
  }

  lemma IsomorphicMeansReachable(s: State, order: seq<Hash>)
    requires Storable(s) && InOrder(order, s.observed) && Listed(s, order)
    requires Rebuilt(s, order).Ok? && Isomorphic(s, Rebuilt(s, order).value)
    ensures AllReachable(s)
  {
    var t := Rebuilt(s, order).value;
    var f :| Renames(s, t, f);
    RenamedListsReachable(s, order, t, f);
    RenamedEntriesReachable(s, order, t, f);
  }

  /** Restoring a saved estimator gives it back up to renaming of records, with the sharing between `observed`,
      bins and dropped lists intact, exactly when every binned or dropped record is in `observed`. */
  lemma SaveRestore(s: State, order: seq<Hash>)
    requires Storable(s) && InOrder(order, s.observed)
    ensures Listed(s, order)
    ensures (Decode(Encode(s, order)).Ok? && Isomorphic(s, Decode(Encode(s, order)).value)) <==> AllReachable(s)
  {
    DecodeEncode(s, order);
    assert Decode(Encode(s, order)) == Rebuilt(s, order);
    if AllReachable(s) {
      RebuiltIsIsomorphic(s, order);
    } else if Rebuilt(s, order).Ok? && Isomorphic(s, Rebuilt(s, order).value) {
      IsomorphicMeansReachable(s, order);
    }
  }

  /** There is only one order to write the records in, so a state has only one saved form. */
  lemma SaveIsDeterministic(s: State, order: seq<Hash>, order': seq<Hash>)
    requires Storable(s) && InOrder(order, s.observed) && InOrder(order', s.observed)
    ensures Listed(s, order) && Listed(s, order') && Encode(s, order) == Encode(s, order')
  {
    SameHashes(order, order');
    SortedUnique(order, order', (h: Hash) => h);
  }

  lemma SameHashes(a: seq<Hash>, b: seq<Hash>)
    requires NoDup(a) && NoDup(b) && forall h :: h in a <==> h in b
    ensures multiset(a) == multiset(b)
  {
    forall h ensures multiset(a)[h] == multiset(b)[h] {
      NoDupCount(a, h);
      NoDupCount(b, h);
    }
  }
}
