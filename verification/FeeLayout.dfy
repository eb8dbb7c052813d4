// Where the saved form of the fee estimator has its fields, byte by byte, and which data are refused.
module FeeLayout {
  import opened FeeLedger
  import opened MachineWords
  import opened FeeCodec

  // The piece stands at this position.
  predicate Puts(w: seq<Byte>, at: nat, piece: seq<Byte>) {
    at + |piece| <= |w| && forall i :: 0 <= i < |piece| ==> w[at + i] == piece[i]
  }

  lemma PutsFront(piece: seq<Byte>, rest: seq<Byte>)
    ensures Puts(piece + rest, 0, piece)
  {
  }

  lemma PutsLater(front: seq<Byte>, rest: seq<Byte>, at: nat, piece: seq<Byte>)
    requires Puts(rest, at, piece)
    ensures Puts(front + rest, |front| + at, piece)
  {
    forall i | 0 <= i < |piece| ensures (front + rest)[|front| + at + i] == piece[i] {
      assert rest[at + i] == piece[i];
    }
  }

  lemma PutsInside(w: seq<Byte>, at: nat, outer: seq<Byte>, offset: nat, piece: seq<Byte>)
    requires Puts(w, at, outer) && Puts(outer, offset, piece)
    ensures Puts(w, at + offset, piece)
  {
    forall i | 0 <= i < |piece| ensures w[at + offset + i] == piece[i] {
      assert outer[offset + i] == w[at + (offset + i)];
    }
  }

  // ---------------------------------------------------------------------------------------------
  // Words
  // ---------------------------------------------------------------------------------------------

  /** A word is written with its highest byte first. */
  lemma {:induction false} WordByte(n: nat, k: nat, j: nat)
    requires j < k
    ensures Pow256(k - 1 - j) > 0 && BigEndian(n, k)[j] == n / Pow256(k - 1 - j) % 256
  {
    ZeroFits(k - 1 - j);
    if j < k - 1 {
      WordByte(n / 256, k - 1, j);
      ZeroFits(k - 2 - j);
      DivideTwice(n, Pow256(k - 2 - j));
    }
  }

  lemma DivideTwice(n: nat, p: nat)
    requires p > 0
    ensures n / 256 / p == n / (256 * p)
  {
    var y := n / 256;
    var q := y / p;
    QuotientIs(y, p, q);
    assert 256 * y <= n < 256 * (y + 1);
    assert q * (256 * p) == 256 * (q * p) && (q + 1) * (256 * p) == 256 * ((q + 1) * p);
    QuotientIs(n, 256 * p, q);
  }

  /** A hash is written with its lowest byte first. */
  lemma HashByte(h: Hash, j: nat)
    requires j < 32
    ensures Pow256(j) > 0 && HashBytes(h)[j] == h / Pow256(j) % 256
  {
    WordByte(h, 32, 31 - j);
  }

  // ---------------------------------------------------------------------------------------------
  // Lists of records, words, bins and entries
  // ---------------------------------------------------------------------------------------------

  // A record: hash, fee rate, height when observed, height when mined.
  predicate PutsTx(w: seq<Byte>, at: nat, t: Tx) {
    && Puts(w, at, HashBytes(t.hash)) && Puts(w, at + 32, BigEndian(t.feeRate, 8))
    && Puts(w, at + 40, BigEndian(t.observed, 8)) && Puts(w, at + 48, BigEndian(t.mined, 8))
  }

  lemma TxLayout(t: Tx)
    ensures |WriteTx(t)| == 56 && PutsTx(WriteTx(t), 0, t)
  {
    var a, b, c, d := HashBytes(t.hash), BigEndian(t.feeRate, 8), BigEndian(t.observed, 8), BigEndian(t.mined, 8);
    PutsFront(a, b + (c + d));
    PutsFront(b, c + d);
    PutsLater(a, b + (c + d), 0, b);
    PutsFront(c, d);
    PutsLater(b, c + d, 0, c);
    PutsLater(a, b + (c + d), 8, c);
    assert Puts(d, 0, d);
    PutsLater(c, d, 0, d);
    PutsLater(b, c + d, 8, d);
    PutsLater(a, b + (c + d), 16, d);
  }

  // The bytes that i records take.
  function TxsBefore(i: nat): (n: nat) { if i == 0 then 0 else 56 + TxsBefore(i - 1) }

  lemma {:induction false} TxsBeforeIs(i: nat)
    ensures TxsBefore(i) == 56 * i
  {
    if i > 0 {
      TxsBeforeIs(i - 1);
    }
  }

  lemma {:induction false} TxsLayout(ts: seq<Tx>, i: nat)
    requires i < |ts|
    ensures Puts(WriteTxs(ts), TxsBefore(i), WriteTx(ts[i]))
  {
    TxLayout(ts[0]);
    if i == 0 {
      PutsFront(WriteTx(ts[0]), WriteTxs(ts[1..]));
    } else {
      TxsLayout(ts[1..], i - 1);
      PutsLater(WriteTx(ts[0]), WriteTxs(ts[1..]), TxsBefore(i - 1), WriteTx(ts[i]));
    }
  }

  lemma {:induction false} TxsSize(ts: seq<Tx>)
    ensures |WriteTxs(ts)| == TxsBefore(|ts|)
  {
    if ts != [] {
      TxLayout(ts[0]);
      TxsSize(ts[1..]);
    }
  }

  // A list of indices: their number, then each of them.
  predicate PutsList(w: seq<Byte>, at: nat, ns: seq<nat>) {
    Puts(w, at, BigEndian(|ns|, 4)) && forall i :: 0 <= i < |ns| ==> Puts(w, at + 4 + 4 * i, BigEndian(ns[i], 4))
  }

  lemma {:induction false} WordsLayout(ns: seq<nat>, i: nat)
    requires i < |ns|
    ensures Puts(WriteWords(ns), 4 * i, BigEndian(ns[i], 4))
  {
    if i == 0 {
      PutsFront(BigEndian(ns[0], 4), WriteWords(ns[1..]));
    } else {
      WordsLayout(ns[1..], i - 1);
      PutsLater(BigEndian(ns[0], 4), WriteWords(ns[1..]), 4 * (i - 1), BigEndian(ns[i], 4));
    }
  }

  lemma {:induction false} WordsSize(ns: seq<nat>)
    ensures |WriteWords(ns)| == 4 * |ns|
  {
    if ns != [] {
      WordsSize(ns[1..]);
    }
  }

  lemma ListLayout(ns: seq<nat>)
    ensures |WriteList(ns)| == 4 + 4 * |ns| && PutsList(WriteList(ns), 0, ns)
  {
    WordsSize(ns);
    PutsFront(BigEndian(|ns|, 4), WriteWords(ns));
    forall i | 0 <= i < |ns| ensures Puts(WriteList(ns), 4 + 4 * i, BigEndian(ns[i], 4)) {
      WordsLayout(ns, i);
      PutsLater(BigEndian(|ns|, 4), WriteWords(ns), 4 * i, BigEndian(ns[i], 4));
    }
  }

  lemma ListInside(w: seq<Byte>, at: nat, ns: seq<nat>)
    requires Puts(w, at, WriteList(ns))
    ensures PutsList(w, at, ns)
  {
    ListLayout(ns);
    PutsInside(w, at, WriteList(ns), 0, BigEndian(|ns|, 4));
    forall i | 0 <= i < |ns| ensures Puts(w, at + 4 + 4 * i, BigEndian(ns[i], 4)) {
      PutsInside(w, at, WriteList(ns), 4 + 4 * i, BigEndian(ns[i], 4));
    }
  }

  // The bytes that the first b lists take.
  function ListsBefore(lists: seq<seq<nat>>, b: nat): (n: nat)
    requires b <= |lists|
  {
    if b == 0 then 0 else 4 + 4 * |lists[0]| + ListsBefore(lists[1..], b - 1)
  }

  lemma {:induction false} ListsLayout(lists: seq<seq<nat>>, b: nat)
    requires b < |lists|
    ensures Puts(WriteLists(lists), ListsBefore(lists, b), WriteList(lists[b]))
    decreases b
  {
    ListLayout(lists[0]);
    if b == 0 {
      PutsFront(WriteList(lists[0]), WriteLists(lists[1..]));
    } else {
      ListsLayout(lists[1..], b - 1);
      PutsLater(WriteList(lists[0]), WriteLists(lists[1..]), ListsBefore(lists[1..], b - 1), WriteList(lists[b]));
    }
  }

  lemma {:induction false} ListsSize(lists: seq<seq<nat>>)
    ensures |WriteLists(lists)| == ListsBefore(lists, |lists|)
  {
    if lists != [] {
      ListLayout(lists[0]);
      ListsSize(lists[1..]);
    }
  }

  // The bytes that the first k entries take: a hash and a list each.
  function EntriesBefore(es: seq<Entry>, k: nat): (n: nat)
    requires k <= |es|
  {
    if k == 0 then 0 else 36 + 4 * |es[0].indices| + EntriesBefore(es[1..], k - 1)
  }

  // An entry of the undo stack: the hash of its block, then its list.
  predicate PutsEntry(w: seq<Byte>, at: nat, e: Entry) {
    Puts(w, at, HashBytes(e.hash)) && PutsList(w, at + 32, e.indices)
  }

  function WriteEntry(e: Entry): (w: seq<Byte>) { HashBytes(e.hash) + WriteList(e.indices) }

  lemma {:induction false} EntriesLayout(es: seq<Entry>, k: nat)
    requires k < |es|
    ensures Puts(WriteEntries(es), EntriesBefore(es, k), WriteEntry(es[k]))
    decreases k
  {
    ListLayout(es[0].indices);
    EntriesFirst(es);
    if k == 0 {
      PutsFront(WriteEntry(es[0]), WriteEntries(es[1..]));
    } else {
      EntriesLayout(es[1..], k - 1);
      PutsLater(WriteEntry(es[0]), WriteEntries(es[1..]), EntriesBefore(es[1..], k - 1), WriteEntry(es[k]));
    }
  }

  lemma EntriesFirst(es: seq<Entry>)
    requires es != []
    ensures WriteEntries(es) == WriteEntry(es[0]) + WriteEntries(es[1..])
  {
  }

  lemma {:induction false} EntriesSize(es: seq<Entry>)
    ensures |WriteEntries(es)| == EntriesBefore(es, |es|)
  {
    if es != [] {
      ListLayout(es[0].indices);
      EntriesSize(es[1..]);
    }
  }

  // ---------------------------------------------------------------------------------------------
  // The whole
  // ---------------------------------------------------------------------------------------------

  // The version and the parameters.
  predicate PutsHeader(w: seq<Byte>, p: Params)
    requires Int32(p.binSize) && Int32(p.maxReplacements)
  {
    && Puts(w, 0, [0, 0, 0, 1]) && Puts(w, 4, BigEndian(p.maxRollback, 4))
    && Puts(w, 8, BigEndian(Unsigned32(p.binSize), 4)) && Puts(w, 12, BigEndian(Unsigned32(p.maxReplacements), 4))
    && Puts(w, 16, BigEndian(p.minBlocks, 4)) && Puts(w, 20, BigEndian(p.height, 8))
    && Puts(w, 28, BigEndian(p.blocks, 4))
  }

  lemma ParamsLayout(p: Params, w: seq<Byte>)
    requires Int32(p.binSize) && Int32(p.maxReplacements) && Puts(w, 4, WriteParams(p))
    ensures Puts(w, 4, BigEndian(p.maxRollback, 4))
    ensures Puts(w, 8, BigEndian(Unsigned32(p.binSize), 4)) && Puts(w, 12, BigEndian(Unsigned32(p.maxReplacements), 4))
    ensures Puts(w, 16, BigEndian(p.minBlocks, 4)) && Puts(w, 20, BigEndian(p.height, 8))
    ensures Puts(w, 28, BigEndian(p.blocks, 4))
  {
    var a, b := BigEndian(p.maxRollback, 4), BigEndian(Unsigned32(p.binSize), 4);
    var c, d := BigEndian(Unsigned32(p.maxReplacements), 4), BigEndian(p.minBlocks, 4);
    var e, f := BigEndian(p.height, 8), BigEndian(p.blocks, 4);
    SixPieces(a, b, c, d, e, f);
    var o := WriteParams(p);
    PutsInside(w, 4, o, 0, a);
    PutsInside(w, 4, o, 4, b);
    PutsInside(w, 4, o, 8, c);
    PutsInside(w, 4, o, 12, d);
    PutsInside(w, 4, o, 16, e);
    PutsInside(w, 4, o, 24, f);
  }

  lemma SixPieces(a: seq<Byte>, b: seq<Byte>, c: seq<Byte>, d: seq<Byte>, e: seq<Byte>, f: seq<Byte>)
    requires |a| == |b| == |c| == |d| == |f| == 4 && |e| == 8
    ensures var o := a + b + c + d + e + f;
            Puts(o, 0, a) && Puts(o, 4, b) && Puts(o, 8, c) && Puts(o, 12, d) && Puts(o, 16, e) && Puts(o, 24, f)
  {
  }

  // Six parts of which each begins where the one before ends.
  lemma Parts(v: seq<Byte>, p: seq<Byte>, n: seq<Byte>, t: seq<Byte>, l: seq<Byte>, m: seq<Byte>, e: seq<Byte>)
    requires |v| == 4 && |p| == 28 && |n| == 4 && |m| == 4
    ensures var w := v + (p + (n + (t + (l + (m + e)))));
            && Puts(w, 0, v) && Puts(w, 4, p) && Puts(w, 32, n) && Puts(w, 36, t) && Puts(w, 36 + |t|, l)
            && Puts(w, 36 + |t| + |l|, m) && Puts(w, 36 + |t| + |l| + 4, e) && |w| == 36 + |t| + |l| + 4 + |e|
  {
  }

  lemma One()
    ensures BigEndian(VERSION, 4) == [0, 0, 0, 1]
  {
    assert BigEndian(1, 4) == BigEndian(0, 3) + [1];
    assert BigEndian(0, 3) == BigEndian(0, 2) + [0];
    assert BigEndian(0, 2) == BigEndian(0, 1) + [0];
  }

  lemma TxsInside(w: seq<Byte>, ts: seq<Tx>, at: nat, i: nat)
    requires Puts(w, at, WriteTxs(ts)) && i < |ts|
    ensures PutsTx(w, at + TxsBefore(i), ts[i])
  {
    TxsLayout(ts, i);
    PutsInside(w, at, WriteTxs(ts), TxsBefore(i), WriteTx(ts[i]));
    TxInside(w, at + TxsBefore(i), ts[i]);
  }

  lemma ListsInside(w: seq<Byte>, lists: seq<seq<nat>>, at: nat, b: nat)
    requires Puts(w, at, WriteLists(lists)) && b < |lists|
    ensures PutsList(w, at + ListsBefore(lists, b), lists[b])
  {
    ListsLayout(lists, b);
    PutsInside(w, at, WriteLists(lists), ListsBefore(lists, b), WriteList(lists[b]));
    ListInside(w, at + ListsBefore(lists, b), lists[b]);
  }

  lemma EntriesInside(w: seq<Byte>, es: seq<Entry>, at: nat, k: nat)
    requires Puts(w, at, WriteEntries(es)) && k < |es|
    ensures PutsEntry(w, at + EntriesBefore(es, k), es[k])
  {
    EntriesLayout(es, k);
    PutsInside(w, at, WriteEntries(es), EntriesBefore(es, k), WriteEntry(es[k]));
    EntryInside(w, at + EntriesBefore(es, k), es[k]);
  }

  lemma TxInside(w: seq<Byte>, at: nat, t: Tx)
    requires Puts(w, at, WriteTx(t))
    ensures PutsTx(w, at, t)
  {
    TxLayout(t);
    PutsInside(w, at, WriteTx(t), 0, HashBytes(t.hash));
    PutsInside(w, at, WriteTx(t), 32, BigEndian(t.feeRate, 8));
    PutsInside(w, at, WriteTx(t), 40, BigEndian(t.observed, 8));
    PutsInside(w, at, WriteTx(t), 48, BigEndian(t.mined, 8));
  }

  lemma EntryInside(w: seq<Byte>, at: nat, e: Entry)
    requires Puts(w, at, WriteEntry(e))
    ensures PutsEntry(w, at, e)
  {
    var a, b := HashBytes(e.hash), WriteList(e.indices);
    PutsFront(a, b);
    PutsInside(w, at, WriteEntry(e), 0, a);
    assert Puts(b, 0, b);
    PutsLater(a, b, 0, b);
    PutsInside(w, at, WriteEntry(e), 32, b);
    ListInside(w, at + 32, e.indices);
  }

  // The saved form of parameters, records, bins and stack entries.
  function Whole(p: Params, ts: seq<Tx>, lists: seq<seq<nat>>, es: seq<Entry>): (w: seq<Byte>)
    requires Int32(p.binSize) && Int32(p.maxReplacements)
  {
    BigEndian(VERSION, 4) + (WriteParams(p) + (BigEndian(|ts|, 4) + (WriteTxs(ts)
    + (WriteLists(lists) + (BigEndian(|es|, 4) + WriteEntries(es))))))
  }

  lemma EncodeIsWhole(s: State, order: seq<Hash>)
    requires Storable(s) && Listed(s, order)
    ensures Encode(s, order) == Whole(s.params, Records(s, order), BinIndices(s, order), Entries(s, order))
  {
  }

  // Where the bins and the undo stack begin.
  function BinsAt(ts: seq<Tx>): (n: nat) { 36 + TxsBefore(|ts|) }

  function StackAt(ts: seq<Tx>, lists: seq<seq<nat>>): (n: nat) { BinsAt(ts) + ListsBefore(lists, |lists|) }

  /** The saved form begins with version 1, the parameters and the number of records. */
  lemma HeaderLayout(p: Params, ts: seq<Tx>, lists: seq<seq<nat>>, es: seq<Entry>)
    requires Int32(p.binSize) && Int32(p.maxReplacements)
    ensures var w := Whole(p, ts, lists, es); PutsHeader(w, p) && Puts(w, 32, BigEndian(|ts|, 4))
  {
    var w := Whole(p, ts, lists, es);
    Parts(BigEndian(VERSION, 4), WriteParams(p), BigEndian(|ts|, 4), WriteTxs(ts), WriteLists(lists),
          BigEndian(|es|, 4), WriteEntries(es));
    One();
    ParamsLayout(p, w);
  }

  lemma TxsPart(p: Params, ts: seq<Tx>, lists: seq<seq<nat>>, es: seq<Entry>)
    requires Int32(p.binSize) && Int32(p.maxReplacements)
    ensures Puts(Whole(p, ts, lists, es), 36, WriteTxs(ts))
  {
    Parts(BigEndian(VERSION, 4), WriteParams(p), BigEndian(|ts|, 4), WriteTxs(ts), WriteLists(lists),
          BigEndian(|es|, 4), WriteEntries(es));
  }

  lemma ListsPart(p: Params, ts: seq<Tx>, lists: seq<seq<nat>>, es: seq<Entry>)
    requires Int32(p.binSize) && Int32(p.maxReplacements)
    ensures Puts(Whole(p, ts, lists, es), BinsAt(ts), WriteLists(lists))
  {
    Parts(BigEndian(VERSION, 4), WriteParams(p), BigEndian(|ts|, 4), WriteTxs(ts), WriteLists(lists),
          BigEndian(|es|, 4), WriteEntries(es));
    TxsSize(ts);
  }

  lemma EntriesPart(p: Params, ts: seq<Tx>, lists: seq<seq<nat>>, es: seq<Entry>)
    requires Int32(p.binSize) && Int32(p.maxReplacements)
    ensures Puts(Whole(p, ts, lists, es), StackAt(ts, lists) + 4, WriteEntries(es))
  {
    Parts(BigEndian(VERSION, 4), WriteParams(p), BigEndian(|ts|, 4), WriteTxs(ts), WriteLists(lists),
          BigEndian(|es|, 4), WriteEntries(es));
    TxsSize(ts);
    ListsSize(lists);
  }

  /** Record i follows, after 56 bytes for each of those before it. */
  lemma RecordLayout(p: Params, ts: seq<Tx>, lists: seq<seq<nat>>, es: seq<Entry>, i: nat)
    requires Int32(p.binSize) && Int32(p.maxReplacements) && i < |ts|
    ensures TxsBefore(i) == 56 * i && PutsTx(Whole(p, ts, lists, es), 36 + TxsBefore(i), ts[i])
  {
    TxsPart(p, ts, lists, es);
    TxsInside(Whole(p, ts, lists, es), ts, 36, i);
    TxsBeforeIs(i);
  }

  /** Then each bin: its size and its records as places in the list. */
  lemma BinLayout(p: Params, ts: seq<Tx>, lists: seq<seq<nat>>, es: seq<Entry>, b: nat)
    requires Int32(p.binSize) && Int32(p.maxReplacements) && b < |lists|
    ensures PutsList(Whole(p, ts, lists, es), BinsAt(ts) + ListsBefore(lists, b), lists[b])
  {
    ListsPart(p, ts, lists, es);
    ListsInside(Whole(p, ts, lists, es), lists, BinsAt(ts), b);
  }

  /** Then the undo stack: its size first, and nothing after it. */
  lemma StackLayout(p: Params, ts: seq<Tx>, lists: seq<seq<nat>>, es: seq<Entry>)
    requires Int32(p.binSize) && Int32(p.maxReplacements)
    ensures var w, at := Whole(p, ts, lists, es), StackAt(ts, lists);
            Puts(w, at, BigEndian(|es|, 4)) && |w| == at + 4 + EntriesBefore(es, |es|)
  {
    Parts(BigEndian(VERSION, 4), WriteParams(p), BigEndian(|ts|, 4), WriteTxs(ts), WriteLists(lists),
          BigEndian(|es|, 4), WriteEntries(es));
    TxsSize(ts);
    ListsSize(lists);
    EntriesSize(es);
  }

  /** Each entry of the stack: the hash of its block and the dropped records as places in the list. */
  lemma EntryLayout(p: Params, ts: seq<Tx>, lists: seq<seq<nat>>, es: seq<Entry>, k: nat)
    requires Int32(p.binSize) && Int32(p.maxReplacements) && k < |es|
    ensures PutsEntry(Whole(p, ts, lists, es), StackAt(ts, lists) + 4 + EntriesBefore(es, k), es[k])
  {
    EntriesPart(p, ts, lists, es);
    EntriesInside(Whole(p, ts, lists, es), es, StackAt(ts, lists) + 4, k);
  }

  // ---------------------------------------------------------------------------------------------
  // Refusals
  // ---------------------------------------------------------------------------------------------

  /** Data are refused for their version exactly when they have fewer than four bytes or do not begin with version 1. */
  lemma Refusals(data: seq<Byte>)
    ensures Decode(data).NoVersion? <==> |data| < 4
    ensures Decode(data).WrongVersion? <==> |data| >= 4 && data[..4] != [0, 0, 0, 1]
    ensures Decode(data).WrongVersion? ==>
              Decode(data).found == Weighed(data[0], data[1], data[2], data[3])
  {
    if |data| >= 4 {
      FourBytes(data[..4]);
    }
  }

  // What the data of whole numbers in range decode to.
  predicate Whole32(ts: seq<Tx>, lists: seq<seq<nat>>, es: seq<Entry>) {
    && |ts| < TWO32 && |lists| == DEPTH && |es| < TWO32
    && (forall b :: 0 <= b < |lists| ==> Small(lists[b])) && forall k :: 0 <= k < |es| ==> Small(es[k].indices)
  }

  lemma WholeDecodes(p: Params, ts: seq<Tx>, lists: seq<seq<nat>>, es: seq<Entry>)
    requires Int32(p.binSize) && Int32(p.maxReplacements) && Whole32(ts, lists, es)
    ensures Decode(Whole(p, ts, lists, es)) == Assemble(p, ts, lists, es)
  {
    var tail := WriteLists(lists) + (BigEndian(|es|, 4) + WriteEntries(es));
    ReadWritten32(VERSION, WriteParams(p) + (BigEndian(|ts|, 4) + (WriteTxs(ts) + tail)));
    BodyDecodes(p, ts, tail);
    ListsDecode(p, ts, lists, es);
  }

  // Record n of the data, or a nil pointer when there is none.
  predicate LeadsTo(s: State, r: Ref, ts: seq<Tx>, n: nat) {
    if n < |ts| then r in s.txs && s.txs[r] == ts[n] else r == Nil
  }

  // The decoded state holds these records, lists and entries.
  predicate Holds(s: State, p: Params, ts: seq<Tx>, lists: seq<seq<nat>>, es: seq<Entry>) {
    && s.params == p && s.observed == IndexByHash(ts) && |s.bin| == |lists| && |s.dropped| == |es|
    && (forall b :: 0 <= b < |lists| ==> AllLead(s, s.bin[b], ts, lists[b]))
    && forall k :: 0 <= k < |es| ==>
         s.dropped[k].hash == es[k].hash && AllLead(s, s.dropped[k].transactions, ts, es[k].indices)
  }

  predicate AllLead(s: State, refs: seq<Ref>, ts: seq<Tx>, ns: seq<nat>) {
    |refs| == |ns| && forall j :: 0 <= j < |ns| ==> LeadsTo(s, refs[j], ts, ns[j])
  }

  lemma AssembledLeads(s: State, ts: seq<Tx>, ns: seq<nat>)
    requires s.txs == Store(ts)
    ensures AllLead(s, Pointers(ns, |ts|), ts, ns)
  {
  }

  lemma AssembledHolds(p: Params, ts: seq<Tx>, lists: seq<seq<nat>>, es: seq<Entry>, s: State)
    requires Assemble(p, ts, lists, es) == Ok(s)
    ensures Holds(s, p, ts, lists, es)
  {
    forall b | 0 <= b < |lists| ensures AllLead(s, s.bin[b], ts, lists[b]) {
      AssembledLeads(s, ts, lists[b]);
    }
    forall k | 0 <= k < |es| ensures AllLead(s, s.dropped[k].transactions, ts, es[k].indices) {
      AssembledLeads(s, ts, es[k].indices);
    }
  }

  /** Data in this form are refused exactly when a bin names a record that is not there. Otherwise every place leads to
      its record, and a dropped one that is not there becomes a nil pointer. */
  lemma BadReferences(p: Params, ts: seq<Tx>, lists: seq<seq<nat>>, es: seq<Entry>)
    requires Int32(p.binSize) && Int32(p.maxReplacements) && Whole32(ts, lists, es)
    ensures var r := Decode(Whole(p, ts, lists, es));
            && (if exists b, j :: 0 <= b < |lists| && 0 <= j < |lists[b]| && |ts| <= lists[b][j] then r.BadReference?
                else r.Ok?)
            && (r.Ok? ==> Holds(r.value, p, ts, lists, es))
  {
    WholeDecodes(p, ts, lists, es);
    var r := Assemble(p, ts, lists, es);
    if r.Ok? {
      AssembledHolds(p, ts, lists, es, r.value);
    }
  }

  /** In the index a hash leads to the last record that has it. */
  lemma {:induction false} LastOfHash(ts: seq<Tx>, i: nat)
    requires i < |ts| && forall j :: i < j < |ts| ==> ts[j].hash != ts[i].hash
    ensures ts[i].hash in IndexByHash(ts) && IndexByHash(ts)[ts[i].hash] == Ref(i)
  {
    if i < |ts| - 1 {
      LastOfHash(ts[..|ts| - 1], i);
      assert ts[..|ts| - 1][i] == ts[i];
    }
  }

  function Weighed(a: nat, b: nat, c: nat, d: nat): (n: nat) { a * 0x100_0000 + b * 0x1_0000 + c * 0x100 + d }

  lemma ByteMore(s: seq<Byte>, x: Byte)
    ensures FromBigEndian(s + [x]) == FromBigEndian(s) * 256 + x
  {
    assert (s + [x])[..|s|] == s;
  }

  lemma OnlyOne(a: nat, b: nat, c: nat, d: nat)
    requires d < 256
    ensures Weighed(a, b, c, d) == 1 <==> a == b == c == 0 && d == 1
  {
  }

  lemma FourBytes(s: seq<Byte>)
    requires |s| == 4
    ensures FromBigEndian(s) == Weighed(s[0], s[1], s[2], s[3])
    ensures FromBigEndian(s) == 1 <==> s == [0, 0, 0, 1]
  {
    OnlyOne(s[0], s[1], s[2], s[3]);
    var a, b, c, d := s[0], s[1], s[2], s[3];
    ByteMore([], a);
    ByteMore([a], b);
    ByteMore([a, b], c);
    ByteMore([a, b, c], d);
    assert [] + [a] == [a] && [a] + [b] == [a, b] && [a, b] + [c] == [a, b, c] && [a, b, c] + [d] == s;
    assert s == [a, b, c, d];
  }
}
