// A run of the fee estimator after which a refused block makes the next rollback panic: bins of two, one replacement
// per block, and three transactions that each waited one block.
module FeeExample {
  import opened FeeLedger
  import opened MachineWords
  import opened FeeSteps
  import opened FeeRuns

  const CFG := Config(10, 2, 1, 0)

  // All in the first bin.
  function First(s: set<Ref>): (sets: seq<set<Ref>>)
    ensures |sets| == DEPTH && sets[0] == s && forall b :: 0 < b < DEPTH ==> sets[b] == {}
  {
    seq(DEPTH, b requires 0 <= b < DEPTH => if b == 0 then s else {})
  }

  function Make(height: Uint64, blocks: Uint32, bin: set<Ref>, txs: map<Ref, Tx>, observed: map<Hash, Ref>,
                dropped: seq<Registered>): (v: View)
  {
    View(CFG, Ledger(txs, First(bin), dropped, height, blocks), observed)
  }

  // Nothing is too old and every record has waited less than the depth.
  predicate Young(txs: map<Ref, Tx>, height: Uint64) {
    forall r :: r in txs ==> txs[r].observed < height && height - txs[r].observed < DEPTH
  }

  // The next block mines r alone: it joins the first bin, and `out` leaves.
  function Mined(v: View, bin: set<Ref>, r: Ref, out: set<Ref>, entry: Registered): (w: View)
    requires r in v.ledger.txs && v.ledger.height + 1 < UNMINED
  {
    var l, h := v.ledger, v.ledger.height + 1;
    View(CFG,
         Ledger(l.txs[r := l.txs[r].(mined := h)], First((bin - out) + {r}), l.dropped + [entry], h, Next32(l.blocks)),
         v.observed)
  }

  lemma Mine(v: View, bin: set<Ref>, r: Ref, out: set<Ref>, entry: Registered)
    requires v.cfg == CFG && v.ledger.bins == First(bin) && |v.ledger.dropped| < 10
    requires v.ledger.height + 1 < UNMINED && Young(v.ledger.txs, v.ledger.height + 1)
    requires r in v.ledger.txs && v.ledger.txs[r].mined == UNMINED && v.ledger.txs[r].observed == v.ledger.height
    requires v.ledger.txs[r].hash in v.observed && v.observed[v.ledger.txs[r].hash] == r
    requires out <= bin && |out| == Excess(|bin|, 1, 2)
    requires NoDup(entry.transactions) && forall x :: x in entry.transactions <==> x in out
    ensures Registers(v, Mined(v, bin, r, out, entry), entry.hash, v.ledger.height + 1, [v.ledger.txs[r].hash],
                      First({r}), First(out), entry)
  {
    var h, x := v.ledger.height + 1, v.ledger.txs[r].hash;
    TakesOne(v, h, x, r);
    GivesUpOne(v, bin, r, out);
    RecordsOut(entry, out);
    Placed(v.ledger, h, bin, r, out);
    NonePurged(v.ledger.txs[r := v.ledger.txs[r].(mined := h)], v.observed, h);
    Assemble(v, h, [x], First({r}), First(out), entry, Place(v.ledger, h, First({r}), First(out)));
  }

  lemma Assemble(v: View, height: Uint64, block: seq<Hash>, gain: seq<set<Ref>>, out: seq<set<Ref>>, entry: Registered,
                 l: Ledger)
    requires v.cfg == CFG && |v.ledger.dropped| < 10 && Extends(v, height) && |v.ledger.bins| == DEPTH
    requires TakesIn(v, height, block, gain) && GivesUp(v, gain, out) && Records(entry, entry.hash, out)
    requires l == Place(v.ledger, height, gain, out) && Purge(l.txs, v.observed, height) == v.observed
    ensures Registers(v, View(CFG, l.(dropped := v.ledger.dropped + [entry]), v.observed), entry.hash, height, block,
                      gain, out, entry)
  {
  }

  lemma GivesUpOne(v: View, bin: set<Ref>, r: Ref, out: set<Ref>)
    requires v.cfg == CFG && v.ledger.bins == First(bin) && out <= bin && |out| == Excess(|bin|, 1, 2)
    ensures GivesUp(v, First({r}), First(out))
  {
    assert |First({r})[0]| == 1;
  }

  lemma RecordsOut(entry: Registered, out: set<Ref>)
    requires NoDup(entry.transactions) && forall x :: x in entry.transactions <==> x in out
    ensures Records(entry, entry.hash, First(out))
  {
    AmongFirstAll(out);
  }

  lemma Placed(l: Ledger, height: Uint64, bin: set<Ref>, r: Ref, out: set<Ref>)
    requires l.bins == First(bin) && r in l.txs
    ensures Place(l, height, First({r}), First(out))
            == Ledger(l.txs[r := l.txs[r].(mined := height)], First((bin - out) + {r}), l.dropped, height,
                      Next32(l.blocks))
  {
    AmongFirst(r);
    var placed := Place(l, height, First({r}), First(out));
    assert placed.txs == l.txs[r := l.txs[r].(mined := height)];
    assert forall b :: 0 <= b < DEPTH ==> placed.bins[b] == First((bin - out) + {r})[b];
  }

  lemma NonePurged(txs: map<Ref, Tx>, observed: map<Hash, Ref>, height: Uint64)
    requires Young(txs, height)
    ensures Purge(txs, observed, height) == observed
  {
  }

  lemma AmongFirst(r: Ref)
    ensures forall x :: Among(First({r}), x) <==> x == r
  {
    AmongFirstAll({r});
  }

  lemma AmongFirstAll(s: set<Ref>)
    ensures forall x :: Among(First(s), x) <==> x in s
  {
    forall x ensures Among(First(s), x) <==> x in s {
      assert x in s ==> x in First(s)[0];
    }
  }

  lemma TakesOne(v: View, height: Uint64, x: Hash, r: Ref)
    requires Eligible(v, height, x, 0) && v.observed[x] == r && v.ledger.txs[r].hash == x && v.cfg == CFG
    ensures TakesIn(v, height, [x], First({r}))
  {
    assert |First({r})[0]| == 1;
  }

  lemma See(height: Uint64, blocks: Uint32, bin: set<Ref>, txs: map<Ref, Tx>, observed: map<Hash, Ref>,
            dropped: seq<Registered>, r: Ref, t: Tx)
    requires height != UNMINED && t.hash !in observed && r !in txs && t.mined == UNMINED
    ensures Observes(Make(height, blocks, bin, txs, observed, dropped),
                     Make(height, blocks, bin, txs[r := t], observed[t.hash := r], dropped), r, t)
  {
  }

  // The first block, with no transaction.
  lemma Genesis()
    ensures Registers(Initial(CFG), Make(1, 1, {}, map[], map[], [Registered(0, [])]), 0, 1, [], First({}), First({}),
                      Registered(0, []))
  {
    var v := Initial(CFG);
    var placed := Place(v.ledger, 1, First({}), First({}));
    assert forall b :: 0 <= b < DEPTH ==> placed.bins[b] == First({})[b];
    assert placed.bins == First({});
    assert placed.txs == map[];
    AmongFirstAll({});
  }

  const A := Ref(1)
  const B := Ref(2)
  const C := Ref(3)

  function T(hash: Hash, observed: Uint64, mined: Uint64): (t: Tx) { Tx(hash, 0, observed, mined) }

  const E0 := Registered(0, [])
  const E1 := Registered(20, [])
  const E2 := Registered(30, [])
  const E3 := Registered(40, [A])

  // The views after each call: the first block, then three times an observed transaction and the block that mines it.
  function V1(): (v: View) { Make(1, 1, {}, map[], map[], [E0]) }
  function V2(): (v: View) { Make(1, 1, {}, map[A := T(1, 1, UNMINED)], map[1 := A], [E0]) }
  function V3(): (v: View) { Make(2, 2, {A}, map[A := T(1, 1, 2)], map[1 := A], [E0, E1]) }
  function V4(): (v: View) {
    Make(2, 2, {A}, map[A := T(1, 1, 2), B := T(2, 2, UNMINED)], map[1 := A, 2 := B], [E0, E1])
  }
  function V5(): (v: View) {
    Make(3, 3, {A, B}, map[A := T(1, 1, 2), B := T(2, 2, 3)], map[1 := A, 2 := B], [E0, E1, E2])
  }

  function V6(): (v: View) {
    Make(3, 3, {A, B}, map[A := T(1, 1, 2), B := T(2, 2, 3), C := T(3, 3, UNMINED)], map[1 := A, 2 := B, 3 := C],
         [E0, E1, E2])
  }

  // The last block has taken C in and dropped A.
  function V7(): (v: View) {
    Make(4, 4, {B, C}, map[A := T(1, 1, 2), B := T(2, 2, 3), C := T(3, 3, 4)], map[1 := A, 2 := B, 3 := C],
         [E0, E1, E2, E3])
  }

  lemma FirstStep()
    ensures Next(Initial(CFG), V1())
  {
    Genesis();
    assert HeightOk(Initial(CFG), 1);
  }

  lemma SeeSteps()
    ensures Next(V1(), V2()) && Next(V3(), V4()) && Next(V5(), V6())
  {
    See(1, 1, {}, map[], map[], [E0], A, T(1, 1, UNMINED));
    See(2, 2, {A}, map[A := T(1, 1, 2)], map[1 := A], [E0, E1], B, T(2, 2, UNMINED));
    See(3, 3, {A, B}, map[A := T(1, 1, 2), B := T(2, 2, 3)], map[1 := A, 2 := B], [E0, E1, E2], C, T(3, 3, UNMINED));
    assert Sees(V1(), V2()) && Sees(V3(), V4()) && Sees(V5(), V6());
  }

  lemma MineA()
    ensures Next(V2(), V3())
  {
    var txs: map<Ref, Tx> := map[A := T(1, 1, UNMINED)];
    Mine(V2(), {}, A, {}, E1);
    assert txs[A := txs[A].(mined := 2)] == map[A := T(1, 1, 2)];
    assert [E0] + [E1] == [E0, E1] && ({} - {}) + {A} == {A};
    assert HeightOk(V2(), 2) && Accepts(V2(), V3());
  }

  lemma MineB()
    ensures Next(V4(), V5())
  {
    var txs := map[A := T(1, 1, 2), B := T(2, 2, UNMINED)];
    Mine(V4(), {A}, B, {}, E2);
    assert txs[B := txs[B].(mined := 3)] == map[A := T(1, 1, 2), B := T(2, 2, 3)];
    assert [E0, E1] + [E2] == [E0, E1, E2] && ({A} - {}) + {B} == {A, B};
    assert HeightOk(V4(), 3) && Accepts(V4(), V5());
  }

  lemma MineC()
    ensures Next(V6(), V7())
  {
    var txs := map[A := T(1, 1, 2), B := T(2, 2, 3), C := T(3, 3, UNMINED)];
    assert |{A, B}| == 2 && |{A}| == 1;
    Mine(V6(), {A, B}, C, {A}, E3);
    assert txs[C := txs[C].(mined := 4)] == map[A := T(1, 1, 2), B := T(2, 2, 3), C := T(3, 3, 4)];
    assert [E0, E1, E2] + [E3] == [E0, E1, E2, E3] && ({A, B} - {A}) + {C} == {B, C};
    assert HeightOk(V6(), 4) && Accepts(V6(), V7());
  }

  function V(i: nat): (v: View) {
    if i == 0 then Initial(CFG) else if i == 1 then V1() else if i == 2 then V2() else if i == 3 then V3()
    else if i == 4 then V4() else if i == 5 then V5() else if i == 6 then V6() else V7()
  }

  lemma EveryStep(i: nat)
    requires i < 7
    ensures Next(V(i), V(i + 1))
  {
    if i == 0 {
      FirstStep();
    } else if i == 1 || i == 3 || i == 5 {
      SeeSteps();
    } else if i == 2 {
      MineA();
    } else if i == 4 {
      MineB();
    } else {
      MineC();
    }
  }

  function Views(n: nat): (vs: seq<View>)
    ensures |vs| == n + 1 && forall i :: 0 <= i <= n ==> vs[i] == V(i)
  {
    seq(n + 1, i requires 0 <= i <= n => V(i))
  }

  lemma IsRun()
    ensures Run(Views(7))
  {
    forall i | 0 <= i < 7 ensures Next(Views(7)[i], Views(7)[i + 1]) {
      EveryStep(i);
    }
    assert Views(7)[0] == Initial(CFG) && CFG.maxReplacements < CFG.binSize;
  }

  function Refused(): (v: View) { View(CFG, Place(V7().ledger, 5, First({}), First({})), V7().observed) }

  lemma IsRefused()
    ensures Refuses(V7(), Refused(), 5, [3], 0, First({}), First({}))
  {
    assert AlreadyMined(V7(), 3);
  }

  /** After this run, a next block that starts with C is refused at once, and then the rollback of block 4 panics. */
  lemma PanicAfterRun()
    ensures Run(Views(7)) && Views(7)[7] == V7()
    ensures Refuses(V7(), Refused(), 5, [3], 0, First({}), First({}))
    ensures !Refused().ledger.Fits()
  {
    IsRun();
    RunInv(Views(7), 7);
    IsRefused();
    assert V7().ledger.Top() == E3 && AlreadyMined(V7(), 3);
    AbortMakesRollbackPanic(V7(), Refused(), 5, [3], 0, First({}), First({}));
  }
}
