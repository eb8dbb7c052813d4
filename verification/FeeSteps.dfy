// The steps of the fee estimator as relations between views, and the facts about whole runs:
// undo really undoes, and no run reaches the "illegal state" panic of rollback.
module FeeSteps {
  import opened FeeLedger
  import opened MachineWords

  // ---------------------------------------------------------------------------------------------
  // Registering a block
  // ---------------------------------------------------------------------------------------------

  // Transaction x of the block is known, not yet mined, and waited b + 1 blocks.
  predicate Eligible(v: View, height: Uint64, x: Hash, b: int) {
    && x in v.observed && v.observed[x] in v.ledger.txs
    && v.ledger.txs[v.observed[x]].mined == UNMINED
    && Wait(v.ledger.txs[v.observed[x]], height) == b
  }

  // `gain` is what the bins gain: eligible transactions of the block, and all of them unless the
  // bin has used up its replacements.
  predicate TakesIn(v: View, height: Uint64, block: seq<Hash>, gain: seq<set<Ref>>) {
    && |gain| == DEPTH
    && (forall b, r :: 0 <= b < DEPTH && r in gain[b] ==>
          r in v.ledger.txs && v.ledger.txs[r].hash in block &&
          Eligible(v, height, v.ledger.txs[r].hash, b) && v.observed[v.ledger.txs[r].hash] == r)
    && (forall b :: 0 <= b < DEPTH ==> |gain[b]| <= v.cfg.maxReplacements)
    && (forall i, b :: 0 <= i < |block| && 0 <= b < DEPTH && Eligible(v, height, block[i], b) ==>
          v.observed[block[i]] in gain[b] || |gain[b]| == v.cfg.maxReplacements)
  }

  function Excess(size: nat, gained: nat, limit: nat): (n: nat) {
    if size + gained <= limit then 0 else size + gained - limit
  }

  // `out` is what the bins lose: members from before the block, one for each arrival past capacity.
  predicate GivesUp(v: View, gain: seq<set<Ref>>, out: seq<set<Ref>>)
    requires |gain| == DEPTH
  {
    && |out| == DEPTH == |v.ledger.bins|
    && forall b :: 0 <= b < DEPTH ==>
         out[b] <= v.ledger.bins[b] && |out[b]| == Excess(|v.ledger.bins[b]|, |gain[b]|, v.cfg.binSize)
  }

  predicate Among(sets: seq<set<Ref>>, r: Ref) { exists b :: 0 <= b < |sets| && r in sets[b] }

  function Mark(txs: map<Ref, Tx>, gain: seq<set<Ref>>, height: Uint64): (m: map<Ref, Tx>) {
    map r | r in txs :: if Among(gain, r) then txs[r].(mined := height) else txs[r]
  }

  function Place(l: Ledger, height: Uint64, gain: seq<set<Ref>>, out: seq<set<Ref>>): (p: Ledger)
    requires |l.bins| == |gain| == |out|
  {
    Ledger(Mark(l.txs, gain, height),
           seq(|l.bins|, b requires 0 <= b < |l.bins| => (l.bins[b] - out[b]) + gain[b]),
           l.dropped, height, Next32(l.blocks))
  }

  // The undo entry lists exactly what left the bins.
  ghost predicate Records(entry: Registered, hash: Hash, out: seq<set<Ref>>) {
    && entry.hash == hash
    && NoDup(entry.transactions)
    && forall r :: r in entry.transactions <==> Among(out, r)
  }

  // The stack keeps the latest maxRollback entries.
  function Push(stack: seq<Registered>, entry: Registered, limit: nat): (s: seq<Registered>) {
    if limit == 0 then stack
    else if |stack| == limit then stack[1..] + [entry]
    else stack + [entry]
  }

  function Purge(txs: map<Ref, Tx>, observed: map<Hash, Ref>, height: Uint64): (o: map<Hash, Ref>) {
    map h | h in observed && !(observed[h] in txs && TooOld(txs[observed[h]], height)) :: observed[h]
  }

  predicate Extends(v: View, height: Uint64) {
    v.ledger.height == UNMINED || height == Add64(v.ledger.height, 1)
  }

  /** A block was registered without error. */
  ghost predicate Registers(v: View, v': View, hash: Hash, height: Uint64, block: seq<Hash>,
                      gain: seq<set<Ref>>, out: seq<set<Ref>>, entry: Registered) {
    && Extends(v, height)
    && TakesIn(v, height, block, gain) && GivesUp(v, gain, out) && Records(entry, hash, out)
    && var placed := Place(v.ledger, height, gain, out);
    && v' == View(v.cfg, placed.(dropped := Push(v.ledger.dropped, entry, v.cfg.maxRollback)),
                  Purge(placed.txs, v.observed, height))
  }

  /** Registration stopped at an already mined transaction: bins and height moved, the stack did not. */
  predicate Aborts(v: View, v': View, height: Uint64, done: seq<Hash>, gain: seq<set<Ref>>, out: seq<set<Ref>>) {
    && Extends(v, height)
    && TakesIn(v, height, done, gain) && GivesUp(v, gain, out)
    && v' == View(v.cfg, Place(v.ledger, height, gain, out), v.observed)
  }

  // Transaction x is known and carries the mark of an earlier block.
  predicate AlreadyMined(v: View, x: Hash) {
    x in v.observed && v.observed[x] in v.ledger.txs && v.ledger.txs[v.observed[x]].mined != UNMINED
  }

  predicate NoneMined(v: View, block: seq<Hash>) {
    forall i :: 0 <= i < |block| ==> !AlreadyMined(v, block[i])
  }

  // The block has taken the record of x in before.
  predicate TakenAlready(v: View, gain: seq<set<Ref>>, x: Hash) { x in v.observed && Among(gain, v.observed[x]) }

  /** The block stops at position `done`, the first transaction mined by an earlier block or taken in before. */
  predicate Refuses(v: View, v': View, height: Uint64, block: seq<Hash>, done: nat,
                    gain: seq<set<Ref>>, out: seq<set<Ref>>)
  {
    && done < |block|
    && NoneMined(v, block[..done])
    && (AlreadyMined(v, block[done]) || TakenAlready(v, gain, block[done]))
    && Aborts(v, v', height, block[..done], gain, out)
  }

  // The height of a block is never the sentinel, and height 0 is only ever the first block.
  predicate HeightOk(v: View, height: Uint64) {
    height != UNMINED && (height == 0 ==> v.ledger.Blank())
  }

  // ---------------------------------------------------------------------------------------------
  // Undo undoes the last block
  // ---------------------------------------------------------------------------------------------

  lemma PlacedBin(l: Ledger, height: Uint64, gain: seq<set<Ref>>, out: seq<set<Ref>>, b: nat, r: Ref)
    requires |l.bins| == |gain| == |out| && b < |gain|
    ensures r in Place(l, height, gain, out).bins[b] <==> (r in l.bins[b] && r !in out[b]) || r in gain[b]
  {
  }

  lemma OldMark(v: View, height: Uint64, b: nat, r: Ref)
    requires v.Inv() && Extends(v, height) && HeightOk(v, height)
    requires b < DEPTH && r in v.ledger.bins[b]
    ensures r in v.ledger.txs && v.ledger.txs[r].mined < height && v.ledger.txs[r].mined != UNMINED
    ensures Wait(v.ledger.txs[r], v.ledger.txs[r].mined) == b
    ensures v.ledger.height + 1 == height
  {
    assert v.ledger.Settled(v.observed, r);
    assert !v.ledger.Blank();
  }

  // What a block takes in was not in any bin.
  lemma NewIsNew(v: View, height: Uint64, block: seq<Hash>, gain: seq<set<Ref>>, b: nat, r: Ref)
    requires v.Inv() && TakesIn(v, height, block, gain) && b < DEPTH && r in gain[b]
    ensures r in v.ledger.txs && v.ledger.txs[r].mined == UNMINED
    ensures forall c :: 0 <= c < DEPTH ==> r !in v.ledger.bins[c]
  {
  }

  lemma FreshIsNew(v: View, height: Uint64, block: seq<Hash>, gain: seq<set<Ref>>, out: seq<set<Ref>>,
                   p: Ledger, b: nat)
    requires v.Inv() && Extends(v, height) && HeightOk(v, height) && b < DEPTH
    requires TakesIn(v, height, block, gain) && GivesUp(v, gain, out)
    requires p.txs == Mark(v.ledger.txs, gain, height) && p.bins == Place(v.ledger, height, gain, out).bins
             && p.height == height
    ensures p.Fresh(b) == gain[b]
  {
    forall r ensures r in p.Fresh(b) <==> r in gain[b] {
      PlacedBin(v.ledger, height, gain, out, b, r);
      if r in gain[b] {
        NewIsNew(v, height, block, gain, b, r);
        assert Among(gain, r);
      } else if r in v.ledger.bins[b] {
        OldMark(v, height, b, r);
        OldNotAmong(v, height, block, gain, b, r);
      }
    }
  }

  lemma OldNotAmong(v: View, height: Uint64, block: seq<Hash>, gain: seq<set<Ref>>, b: nat, r: Ref)
    requires v.Inv() && TakesIn(v, height, block, gain) && b < DEPTH && r in v.ledger.bins[b]
    ensures !Among(gain, r)
  {
    assert v.ledger.Settled(v.observed, r);
  }

  lemma LeftIsOut(v: View, height: Uint64, block: seq<Hash>, gain: seq<set<Ref>>, out: seq<set<Ref>>,
                  entry: Registered, hash: Hash, p: Ledger, b: nat)
    requires v.Inv() && Extends(v, height) && HeightOk(v, height) && b < DEPTH
    requires TakesIn(v, height, block, gain) && GivesUp(v, gain, out) && Records(entry, hash, out)
    requires p.txs == Mark(v.ledger.txs, gain, height)
    ensures p.Left(entry.transactions, b) == out[b]
  {
    forall r ensures r in p.Left(entry.transactions, b) <==> r in out[b] {
      if Among(out, r) {
        var c :| 0 <= c < |out| && r in out[c];
        OldMark(v, height, c, r);
        OldNotAmong(v, height, block, gain, c, r);
      }
      if r in out[b] {
        assert Among(out, r);
      }
    }
  }

  function Trimmed(stack: seq<Registered>, limit: nat): (s: seq<Registered>)
    requires limit > 0
  {
    if |stack| == limit then stack[1..] else stack
  }

  lemma UndoRegisterBins(v: View, v': View, hash: Hash, height: Uint64, block: seq<Hash>,
                         gain: seq<set<Ref>>, out: seq<set<Ref>>, entry: Registered)
    requires v.Inv() && HeightOk(v, height) && v.cfg.maxRollback > 0
    requires Registers(v, v', hash, height, block, gain, out, entry)
    ensures v'.ledger.dropped != [] && v'.ledger.Fits()
    ensures v'.ledger.Undo().bins == v.ledger.bins
  {
    var p := v'.ledger;
    assert p.Top() == entry;
    forall b | 0 <= b < DEPTH
      ensures p.Undo().bins[b] == v.ledger.bins[b]
      ensures |p.Left(p.Top().transactions, b)| <= |p.Fresh(b)|
    {
      FreshIsNew(v, height, block, gain, out, p, b);
      LeftIsOut(v, height, block, gain, out, entry, hash, p, b);
      UndonePlace(v, height, block, gain, out, b);
    }
  }

  lemma UndoRegisterMarks(v: View, v': View, hash: Hash, height: Uint64, block: seq<Hash>,
                          gain: seq<set<Ref>>, out: seq<set<Ref>>, entry: Registered)
    requires v.Inv() && HeightOk(v, height) && v.cfg.maxRollback > 0
    requires Registers(v, v', hash, height, block, gain, out, entry)
    ensures v'.ledger.dropped != [] && v'.ledger.Undo().txs == v.ledger.txs
  {
    var p := v'.ledger;
    forall b | 0 <= b < DEPTH ensures p.Fresh(b) == gain[b] {
      FreshIsNew(v, height, block, gain, out, p, b);
    }
    forall r ensures p.IsFresh(r) <==> Among(gain, r) {
    }
    UnmarkMark(v, height, block, gain);
  }

  /** After a registered block, rollback has room, and restores bins, marks, counters and stack. */
  lemma UndoRegister(v: View, v': View, hash: Hash, height: Uint64, block: seq<Hash>,
                     gain: seq<set<Ref>>, out: seq<set<Ref>>, entry: Registered)
    requires v.Inv() && HeightOk(v, height) && v.cfg.maxRollback > 0
    requires Registers(v, v', hash, height, block, gain, out, entry)
    ensures v'.ledger.dropped != [] && v'.ledger.Fits()
    ensures v'.ledger.Undo() ==
            v.ledger.(dropped := Trimmed(v.ledger.dropped, v.cfg.maxRollback), height := Sub64(height, 1))
    ensures v.ledger.height != UNMINED ==> Sub64(height, 1) == v.ledger.height
  {
    UndoRegisterBins(v, v', hash, height, block, gain, out, entry);
    UndoRegisterMarks(v, v', hash, height, block, gain, out, entry);
  }

  lemma UndonePlace(v: View, height: Uint64, block: seq<Hash>, gain: seq<set<Ref>>, out: seq<set<Ref>>, b: nat)
    requires v.Inv() && b < DEPTH && TakesIn(v, height, block, gain) && GivesUp(v, gain, out)
    ensures (Place(v.ledger, height, gain, out).bins[b] - gain[b]) + out[b] == v.ledger.bins[b]
  {
    forall r | r in gain[b] ensures r !in v.ledger.bins[b] {
      NewIsNew(v, height, block, gain, b, r);
    }
  }

  lemma UnmarkMark(v: View, height: Uint64, block: seq<Hash>, gain: seq<set<Ref>>)
    requires v.Inv() && TakesIn(v, height, block, gain)
    ensures Mark(Mark(v.ledger.txs, gain, height), gain, UNMINED) == v.ledger.txs
  {
    forall r | r in v.ledger.txs && Among(gain, r) ensures v.ledger.txs[r].mined == UNMINED {
      var b :| 0 <= b < |gain| && r in gain[b];
      NewIsNew(v, height, block, gain, b, r);
    }
  }

  // ---------------------------------------------------------------------------------------------
  // The invariant is kept by every step
  // ---------------------------------------------------------------------------------------------

  // Forgetting the oldest entry keeps the rest undoable.
  lemma {:induction false} FitWithoutOldest(l: Ledger)
    requires l.dropped != [] && l.AllFit()
    ensures l.(dropped := l.dropped[1..]).AllFit()
    decreases |l.dropped|
  {
    var m := l.(dropped := l.dropped[1..]);
    if |l.dropped| > 1 {
      assert m.Top() == l.Top();
      forall b | 0 <= b < |l.bins|
        ensures m.Fresh(b) == l.Fresh(b) && m.Left(m.Top().transactions, b) == l.Left(l.Top().transactions, b)
      {
      }
      assert m.Undo() == l.Undo().(dropped := l.Undo().dropped[1..]) by {
        assert m.Undo().dropped == l.Undo().dropped[1..];
        assert m.Undo().bins == l.Undo().bins;
        forall r | r in l.txs ensures m.IsFresh(r) == l.IsFresh(r) {
        }
        assert m.Undo().txs == l.Undo().txs;
      }
      FitWithoutOldest(l.Undo());
    }
  }

  lemma RegisterBinsOk(v: View, v': View, hash: Hash, height: Uint64, block: seq<Hash>,
                       gain: seq<set<Ref>>, out: seq<set<Ref>>, entry: Registered)
    requires v.Inv() && HeightOk(v, height) && Registers(v, v', hash, height, block, gain, out, entry)
    ensures v'.ledger.BinsOk(v'.observed) && Indexed(v'.ledger.txs, v'.observed)
    ensures forall b :: 0 <= b < DEPTH ==> |v'.ledger.bins[b]| <= v.cfg.binSize
  {
    var p := v'.ledger;
    forall b, r | 0 <= b < DEPTH && r in p.bins[b]
      ensures p.Settled(v'.observed, r) && Wait(p.txs[r], p.txs[r].mined) == b && p.txs[r].mined <= p.height
    {
      PlacedBin(v.ledger, height, gain, out, b, r);
      if r in gain[b] {
        assert Among(gain, r);
      } else {
        OldMark(v, height, b, r);
        OldNotAmong(v, height, block, gain, b, r);
        assert v.ledger.Settled(v.observed, r);
      }
    }
    forall b | 0 <= b < DEPTH ensures |p.bins[b]| <= v.cfg.binSize {
      assert p.bins[b] == (v.ledger.bins[b] - out[b]) + gain[b];
      assert |v.ledger.bins[b] - out[b]| == |v.ledger.bins[b]| - |out[b]|;
      assert gain[b] !! v.ledger.bins[b] by {
        forall r | r in gain[b] ensures r !in v.ledger.bins[b] {
          NewIsNew(v, height, block, gain, b, r);
        }
      }
    }
  }

  /** A registered block takes the place of the last height, counts one, and its entry joins the stack, which keeps the
      latest entries up to the limit. */
  lemma RegisterCounts(v: View, v': View, hash: Hash, height: Uint64, block: seq<Hash>,
                       gain: seq<set<Ref>>, out: seq<set<Ref>>, entry: Registered)
    requires v.Inv() && Registers(v, v', hash, height, block, gain, out, entry)
    ensures v'.ledger.height == height && v'.ledger.blocks == (v.ledger.blocks + 1) % TWO32
    ensures var all := v.ledger.dropped + [entry];
            v'.ledger.dropped == if |all| <= v.cfg.maxRollback then all else all[1..]
  {
    assert |v.ledger.dropped| == 0 ==> v.ledger.dropped + [entry] == [entry] && [entry][1..] == [];
  }

  // A rollback takes one back.
  lemma UndoCounts(l: Ledger)
    requires l.dropped != []
    ensures l.Undo().blocks == (l.blocks + TWO32 - 1) % TWO32 && l.Undo().height == (l.height + TWO64 - 1) % TWO64
    ensures l.Undo().dropped == l.dropped[..|l.dropped| - 1]
  {
  }

  /** A record is in bin b when it was mined b + 1 blocks after it was observed. */
  lemma BinMeansWait(v: View, b: nat, r: Ref)
    requires v.Inv() && b < DEPTH && r in v.ledger.bins[b]
    ensures r in v.ledger.txs
    ensures var t := v.ledger.txs[r]; t.mined == (t.observed + b + 1) % TWO64 && t.mined <= v.ledger.height
  {
    assert v.ledger.Settled(v.observed, r) && Wait(v.ledger.txs[r], v.ledger.txs[r].mined) == b;
  }

  /** A registered block forgets exactly the known transactions that it leaves unmined although it comes 25 blocks or
      more after they were observed. */
  lemma PurgeExactly(v: View, v': View, hash: Hash, height: Uint64, block: seq<Hash>,
                     gain: seq<set<Ref>>, out: seq<set<Ref>>, entry: Registered, x: Hash)
    requires v.Inv() && Registers(v, v', hash, height, block, gain, out, entry) && x in v.observed
    ensures v.observed[x] in v'.ledger.txs
    ensures var t := v'.ledger.txs[v.observed[x]];
            x in v'.observed <==> t.mined != UNMINED || (height + TWO64 - t.observed) % TWO64 < 25
    ensures x in v'.observed ==> v'.observed[x] == v.observed[x]
  {
  }

  // A registered block makes no transaction known.
  lemma PurgeAddsNone(v: View, v': View, hash: Hash, height: Uint64, block: seq<Hash>,
                      gain: seq<set<Ref>>, out: seq<set<Ref>>, entry: Registered)
    requires Registers(v, v', hash, height, block, gain, out, entry)
    ensures v'.observed.Keys <= v.observed.Keys
  {
  }

  // An entry already on the stack stays as it was: its records are neither gain nor purged.
  lemma StackRecord(v: View, v': View, hash: Hash, height: Uint64, block: seq<Hash>,
                    gain: seq<set<Ref>>, out: seq<set<Ref>>, entry: Registered, k: nat, r: Ref)
    requires v.Inv() && HeightOk(v, height) && Registers(v, v', hash, height, block, gain, out, entry)
    requires k < |v.ledger.dropped| && r in v.ledger.dropped[k].transactions
    ensures v.ledger.height + 1 == height && v.ledger.height != UNMINED
    ensures v'.ledger.Settled(v'.observed, r) && v'.ledger.txs[r] == v.ledger.txs[r]
    ensures r !in v'.ledger.bins[Wait(v.ledger.txs[r], v.ledger.txs[r].mined)]
    ensures r !in entry.transactions && v.ledger.txs[r].mined < v.ledger.HeightOf(k)
  {
    assert !v.ledger.Blank();
    assert v.ledger.Settled(v.observed, r);
    assert !Among(gain, r);
    var b := Wait(v.ledger.txs[r], v.ledger.txs[r].mined);
    PlacedBin(v.ledger, height, gain, out, b, r);
    forall c | 0 <= c < |out| ensures r !in out[c] {
      if c == b {
      } else {
        OtherBinOf(v, c, r);
      }
    }
  }

  lemma OtherBinOf(v: View, c: nat, r: Ref)
    requires v.Inv() && c < DEPTH && r in v.ledger.txs && Wait(v.ledger.txs[r], v.ledger.txs[r].mined) != c
    ensures r !in v.ledger.bins[c]
  {
  }

  lemma TopRecord(v: View, v': View, hash: Hash, height: Uint64, block: seq<Hash>,
                  gain: seq<set<Ref>>, out: seq<set<Ref>>, entry: Registered, r: Ref)
    requires v.Inv() && HeightOk(v, height) && Registers(v, v', hash, height, block, gain, out, entry)
    requires r in entry.transactions
    ensures v'.ledger.Settled(v'.observed, r) && v'.ledger.txs[r].mined < height
    ensures r !in v'.ledger.bins[Wait(v'.ledger.txs[r], v'.ledger.txs[r].mined)]
  {
    var c :| 0 <= c < |out| && r in out[c];
    OldMark(v, height, c, r);
    OldNotAmong(v, height, block, gain, c, r);
    assert v.ledger.Settled(v.observed, r);
    PlacedBin(v.ledger, height, gain, out, c, r);
  }

  // Entries below the top are the old ones, possibly without the oldest.
  lemma Shifted(stack: seq<Registered>, entry: Registered, limit: nat) returns (shift: nat)
    requires 0 < limit && |stack| <= limit
    ensures var s := Push(stack, entry, limit);
            s != [] && s[|s| - 1] == entry && shift == |stack| - (|s| - 1) && s[..|s| - 1] == stack[shift..]
  {
    shift := if |stack| == limit then 1 else 0;
  }

  lemma RegisterStackRecords(v: View, v': View, hash: Hash, height: Uint64, block: seq<Hash>,
                             gain: seq<set<Ref>>, out: seq<set<Ref>>, entry: Registered)
    requires v.Inv() && HeightOk(v, height) && v.cfg.maxRollback > 0
    requires Registers(v, v', hash, height, block, gain, out, entry)
    ensures |v'.ledger.bins| == DEPTH && v'.ledger.StackRecords(v'.observed)
  {
    var p, prior := v'.ledger, v.ledger.dropped;
    var shift := Shifted(prior, entry, v.cfg.maxRollback);
    var top := |p.dropped| - 1;
    forall k, r | 0 <= k < |p.dropped| && r in p.dropped[k].transactions ensures p.DroppedOk(v'.observed, k, r) {
      if k == top {
        TopRecord(v, v', hash, height, block, gain, out, entry, r);
      } else {
        assert p.dropped[k] == p.dropped[..top][k] == prior[k + shift];
        StackRecord(v, v', hash, height, block, gain, out, entry, k + shift, r);
        assert p.HeightOf(k) == v.ledger.HeightOf(k + shift);
      }
    }
  }

  lemma PushApart(stack: seq<Registered>, entry: Registered, limit: nat)
    requires Apart(stack) && NoDup(entry.transactions)
    requires forall j, r :: 0 <= j < |stack| && r in stack[j].transactions ==> r !in entry.transactions
    ensures Apart(Push(stack, entry, limit))
  {
  }

  lemma RegisterStackApart(v: View, v': View, hash: Hash, height: Uint64, block: seq<Hash>,
                           gain: seq<set<Ref>>, out: seq<set<Ref>>, entry: Registered)
    requires v.Inv() && HeightOk(v, height) && v.cfg.maxRollback > 0
    requires Registers(v, v', hash, height, block, gain, out, entry)
    ensures v'.ledger.StackApart()
  {
    var prior := v.ledger.dropped;
    forall j, r | 0 <= j < |prior| && r in prior[j].transactions ensures r !in entry.transactions {
      StackRecord(v, v', hash, height, block, gain, out, entry, j, r);
    }
    PushApart(prior, entry, v.cfg.maxRollback);
  }

  lemma RegisterHeightsOk(v: View, v': View, hash: Hash, height: Uint64, block: seq<Hash>,
                          gain: seq<set<Ref>>, out: seq<set<Ref>>, entry: Registered)
    requires v.Inv() && HeightOk(v, height) && Registers(v, v', hash, height, block, gain, out, entry)
    ensures v'.ledger.HeightsOk()
  {
    var p := v'.ledger;
    if v.ledger.dropped != [] {
      assert !v.ledger.Blank();
      assert v.ledger.height + 1 == height;
    }
    if v.cfg.maxRollback > 0 {
      var shift := |v.ledger.dropped| - (|p.dropped| - 1);
      forall k | 0 <= k < |p.dropped| - 1 ensures p.HeightOf(k) == v.ledger.HeightOf(k + shift) {
      }
    }
  }

  /** Registering a block keeps the invariant. */
  lemma RegisterInv(v: View, v': View, hash: Hash, height: Uint64, block: seq<Hash>,
                    gain: seq<set<Ref>>, out: seq<set<Ref>>, entry: Registered)
    requires v.Inv() && HeightOk(v, height) && Registers(v, v', hash, height, block, gain, out, entry)
    ensures v'.Inv()
  {
    RegisterBinsOk(v, v', hash, height, block, gain, out, entry);
    RegisterHeightsOk(v, v', hash, height, block, gain, out, entry);
    if v.cfg.maxRollback > 0 {
      RegisterStackRecords(v, v', hash, height, block, gain, out, entry);
      RegisterStackApart(v, v', hash, height, block, gain, out, entry);
      UndoRegister(v, v', hash, height, block, gain, out, entry);
      if |v.ledger.dropped| == v.cfg.maxRollback {
        FitWithoutOldest(v.ledger);
      }
      if v.ledger.height == UNMINED {
        assert v'.ledger.Undo().dropped == [];
      }
    }
  }
}
