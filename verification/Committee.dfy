// Committee lists and their swaps: SwapValidator and RemoveValidator of blockchain/beaconprocess.go,
// CreateSwapAction of blockchain/shardutils.go, and the swap instruction in between.
module Committee {
  // A public key, or the empty text.
  datatype Key = Blank | Key(id: nat)

  // Keys are written as a comma-separated list and hold no comma. Splitting the text of an empty list gives one
  // empty text.
  function Resplit(keys: seq<Key>): (r: seq<Key>) { if keys == [] then [Blank] else keys }

  predicate Distinct(s: seq<Key>) { forall i, j :: 0 <= i < j < |s| ==> s[i] != s[j] }

  function Min(a: int, b: int): (m: int) { if a < b then a else b }

  // ---------------------------------------------------------------------------------------------
  // SwapValidator
  // ---------------------------------------------------------------------------------------------

  datatype SwapError = Fine | ZeroOffset | NoPending | TooMany

  datatype SwapResult =
    | Panics
    | Returns(pending: seq<Key>, committee: seq<Key>, out: seq<Key>, incoming: seq<Key>, err: SwapError)

  /** Committee and pending list form one queue. A swap moves the committee window along it: the window grows to
      its maximum first, then slides, by the offset or by what is pending. The reported newcomers leave out those
      that only filled the committee up. */
  function Swap(pending: seq<Key>, committee: seq<Key>, max: int, offset: int): (r: SwapResult) {
    if max < 0 || offset < 0 then Panics
    else if offset == 0 then Returns([], pending, committee, [], ZeroOffset)
    else
      var k := Min(offset, |pending|);
      if k == 0 then Returns(pending, committee, [], [], NoPending)
      else if k > max then Returns(pending, committee, [], [], TooMany)
      else if |committee| > max then Panics
      else
        var grown := committee + pending[..k];
        if |grown| <= max then Returns(pending[k..], grown, [], pending[..k], Fine)
        else
          var start, room := |grown| - max, max - |committee|;
          Returns(pending[k..], grown[start..], grown[..start], pending[room..k], Fine)
  }

  /** SwapValidator, step by step. */
  method SwapValidator(pendingValidators: seq<Key>, currentValidators: seq<Key>, maxCommittee: int, offset_: int)
    returns (r: SwapResult)
    ensures r == Swap(pendingValidators, currentValidators, maxCommittee, offset_)
  {
    var pending, current, offset := pendingValidators, currentValidators, offset_;
    if maxCommittee < 0 || offset < 0 {
      return Panics;
    }
    if offset == 0 {
      return Returns([], pending, current, [], ZeroOffset);
    }
    if offset > |pending| {
      offset := |pending|;
    }
    if offset == 0 {
      return Returns(pending, current, [], [], NoPending);
    }
    if offset > maxCommittee {
      return Returns(pending, current, [], [], TooMany);
    }
    r := MoveWindow(pending, current, maxCommittee, offset);
  }

  method MoveWindow(pendingValidators: seq<Key>, currentValidators: seq<Key>, maxCommittee: nat, total: nat)
    returns (r: SwapResult)
    requires 0 < total <= maxCommittee && total <= |pendingValidators|
    ensures r == Swap(pendingValidators, currentValidators, maxCommittee, total)
  {
    var pending, current, offset := pendingValidators, currentValidators, total;
    if |current| < maxCommittee {
      var diff := maxCommittee - |current|;
      if diff >= offset {
        FillingSwap(pending, current, maxCommittee, offset);
        return Returns(pending[offset..], current + pending[..offset], [], pending[..offset], Fine);
      }
      offset := offset - diff;
      current := current + pending[..diff];
      pending := pending[diff..];
    }
    var out := current[..offset];
    var incoming := pending[..offset];
    var next := current[offset..] + incoming;
    if |next| > maxCommittee {
      return Panics;
    }
    SlidingSwap(pendingValidators, currentValidators, maxCommittee, total, offset, pending, current);
    return Returns(pending[offset..], next, out, incoming, Fine);
  }

  lemma FillingSwap(pending: seq<Key>, committee: seq<Key>, max: nat, k: nat)
    requires 0 < k <= |pending| && |committee| + k <= max
    ensures Swap(pending, committee, max, k) == Returns(pending[k..], committee + pending[..k], [], pending[..k], Fine)
  {
  }

  lemma SlidingSwap(pending: seq<Key>, committee: seq<Key>, max: nat, k: nat, slide: nat, p: seq<Key>, c: seq<Key>)
    requires 0 < k <= |pending| && |committee| <= max && |committee| + k - slide == max && 0 < slide <= k <= max
    requires p == pending[k - slide..] && c == committee + pending[..k - slide]
    ensures Swap(pending, committee, max, k)
            == Returns(p[slide..], c[slide..] + p[..slide], c[..slide], p[..slide], Fine)
  {
    SwapSlides(pending, committee, k, k - slide, slide, p, c);
  }

  // After `fill` keys joined, the window slides by `slide`.
  lemma SwapSlides(pending: seq<Key>, committee: seq<Key>, k: nat, fill: nat, slide: nat, p: seq<Key>, c: seq<Key>)
    requires fill + slide == k <= |pending| && slide <= |committee|
    requires p == pending[fill..] && c == committee + pending[..fill]
    ensures var grown := committee + pending[..k];
            && pending[k..] == p[slide..] && grown[slide..] == c[slide..] + p[..slide] && grown[..slide] == c[..slide]
            && pending[fill..k] == p[..slide]
  {
    assert committee + pending[..k] == c + p[..slide];
  }

  /** A swap goes through exactly when somebody joins, not more than the committee may hold, and it holds no more
      already. If it fails, the lists come back as they were and nobody leaves or joins. */
  lemma SwapOutcome(pending: seq<Key>, committee: seq<Key>, max: int, offset: int)
    ensures var r, k := Swap(pending, committee, max, offset), Min(offset, |pending|);
            && (r.Returns? && r.err == Fine <==> 0 < k <= max && |committee| <= max)
            && (r.Returns? && r.err != Fine && offset != 0 ==>
                  r.pending == pending && r.committee == committee && r.out == r.incoming == [])
  {
  }

  // With an offset of zero the lists of a failed swap come back in the wrong places.
  lemma ZeroOffsetShifts(pending: seq<Key>, committee: seq<Key>, max: nat)
    ensures Swap(pending, committee, max, 0) == Returns([], pending, committee, [], ZeroOffset)
  {
  }

  /** With an offset of one, the first who waits joins, and the first of a full committee leaves. */
  lemma OneSwapped(pending: seq<Key>, committee: seq<Key>, size: nat)
    requires pending != [] && |committee| <= size && 1 <= size
    ensures var r := Swap(pending, committee, size, 1);
            && r.Returns? && r.err == Fine && r.incoming == [pending[0]] && r.pending == pending[1..]
            && r.out == (if |committee| == size then [committee[0]] else [])
            && r.out + r.committee == committee + [pending[0]]
  {
  }

  /** A successful swap loses and invents nobody, and the committee never exceeds its maximum. */
  lemma SwapConserves(pending: seq<Key>, committee: seq<Key>, max: int, offset: int)
    requires Swap(pending, committee, max, offset).Returns? && Swap(pending, committee, max, offset).err == Fine
    ensures var r := Swap(pending, committee, max, offset);
            && r.out + r.committee + r.pending == committee + pending
            && |r.committee| == Min(max, |committee| + Min(offset, |pending|))
            && |r.pending| == |pending| - Min(offset, |pending|)
            && r.out <= committee
  {
  }

  // ---------------------------------------------------------------------------------------------
  // RemoveValidator
  // ---------------------------------------------------------------------------------------------

  datatype Removal = Removed(rest: seq<Key>) | TooManyRemoved | WrongFormat | OutOfRange

  // The loop keeps the index while the list shrinks, so it compares the i-th key with the one at twice that index.
  predicate Matches(validators: seq<Key>, removed: seq<Key>, i: nat) {
    i < |removed| && 2 * i < |validators| && validators[2 * i] == removed[i]
  }

  method RemoveValidator(validators_: seq<Key>, removed: seq<Key>) returns (r: Removal)
    ensures r == Remove(validators_, removed)
  {
    var validators := validators_;
    if |removed| > |validators| {
      return TooManyRemoved;
    }
    for index := 0 to |removed|
      invariant validators == validators_[index..]
      invariant forall i :: 0 <= i < index ==> Matches(validators_, removed, i)
    {
      if index >= |validators| {
        MismatchIs(validators_, removed, 0, index);
        return OutOfRange;
      }
      assert validators[index] == validators_[2 * index];
      if validators[index] == removed[index] {
        validators := validators[1..];
      } else {
        MismatchIs(validators_, removed, 0, index);
        return WrongFormat;
      }
    }
    MismatchIs(validators_, removed, 0, |removed|);
    return Removed(validators);
  }

  // The first index from i on that does not match, or the number of keys to remove.
  function Mismatch(validators: seq<Key>, removed: seq<Key>, i: nat): (m: nat)
    requires i <= |removed|
    ensures i <= m <= |removed|
    decreases |removed| - i
  {
    if i < |removed| && Matches(validators, removed, i) then Mismatch(validators, removed, i + 1) else i
  }

  function Remove(validators: seq<Key>, removed: seq<Key>): (r: Removal) {
    if |removed| > |validators| then TooManyRemoved
    else
      var m := Mismatch(validators, removed, 0);
      if m == |removed| then Removed(validators[m..])
      else if 2 * m >= |validators| then OutOfRange
      else WrongFormat
  }

  lemma {:induction false} MismatchIs(validators: seq<Key>, removed: seq<Key>, i: nat, m: nat)
    requires i <= m <= |removed| && forall j :: i <= j < m ==> Matches(validators, removed, j)
    requires m < |removed| ==> !Matches(validators, removed, m)
    ensures Mismatch(validators, removed, i) == m
    decreases m - i
  {
    if i < m {
      MismatchIs(validators, removed, i + 1, m);
    }
  }

  // Key m is the first to remove that does not stand at twice its index.
  predicate FirstMiss(validators: seq<Key>, removed: seq<Key>, m: nat) {
    && m < |removed| <= |validators|
    && (forall i :: 0 <= i < m ==> 2 * i < |validators| && validators[2 * i] == removed[i])
    && !(2 * m < |validators| && validators[2 * m] == removed[m])
  }

  /** The keys are removed exactly when each stands at twice its index, and then the rest is what lies behind as many
      positions. Otherwise the first that does not decides the error: there is no such position, or another key. */
  lemma RemoveExactly(validators: seq<Key>, removed: seq<Key>)
    ensures var r := Remove(validators, removed);
            && (r.Removed? <==>
                  |removed| <= |validators|
                  && forall i :: 0 <= i < |removed| ==> 2 * i < |validators| && validators[2 * i] == removed[i])
            && (r.Removed? ==> r.rest == validators[|removed|..])
            && (r.TooManyRemoved? <==> |removed| > |validators|)
            && (r.OutOfRange? <==> exists m: nat :: FirstMiss(validators, removed, m) && |validators| <= 2 * m)
            && (r.WrongFormat? <==> exists m: nat :: FirstMiss(validators, removed, m) && 2 * m < |validators|)
  {
    var m := Mismatch(validators, removed, 0);
    MismatchStops(validators, removed, 0);
    forall i | 0 <= i < m ensures 2 * i < |validators| && validators[2 * i] == removed[i] {
      assert Matches(validators, removed, i);
    }
    if m < |removed| <= |validators| {
      assert !Matches(validators, removed, m);
      assert FirstMiss(validators, removed, m);
    }
    forall k: nat | FirstMiss(validators, removed, k) ensures k == m {
      MismatchIs(validators, removed, 0, k);
    }
  }

  lemma {:induction false} MismatchStops(validators: seq<Key>, removed: seq<Key>, i: nat)
    requires i <= |removed|
    ensures var m := Mismatch(validators, removed, i);
            && (forall j :: i <= j < m ==> Matches(validators, removed, j))
            && (m < |removed| ==> !Matches(validators, removed, m))
    decreases |removed| - i
  {
    if i < |removed| && Matches(validators, removed, i) {
      MismatchStops(validators, removed, i + 1);
    }
  }

  /** Taking the first k of distinct keys off the front, which is what the function is documented to do, works
      exactly for k at most one. */
  lemma RemovesPrefixUpToOne(validators: seq<Key>, k: nat)
    requires Distinct(validators) && k <= |validators|
    ensures Remove(validators, validators[..k]) == Removed(validators[k..]) <==> k <= 1
  {
    var removed := validators[..k];
    if k <= 1 {
      MismatchIs(validators, removed, 0, |removed|);
    } else {
      ManyNotRemoved(validators, removed);
    }
  }

  // ---------------------------------------------------------------------------------------------
  // Replaying a swap instruction
  // ---------------------------------------------------------------------------------------------

  datatype Replay = Replayed(pending: seq<Key>, committee: seq<Key>) | Refused

  /** The effect of a swap instruction on the beacon's lists: newcomers leave the pending list and join the
      committee, then the outgoing leave its front. */
  function ReplaySwap(pending: seq<Key>, committee: seq<Key>, incoming: seq<Key>, out: seq<Key>): (r: Replay) {
    var p := if incoming == [] then Removed(pending) else Remove(pending, incoming);
    if !p.Removed? then Refused
    else
      var joined := committee + incoming;
      var c := if out == [] then Removed(joined) else Remove(joined, out);
      if !c.Removed? then Refused else Replayed(p.rest, c.rest)
  }

  method ReplaySwapInstruction(pending: seq<Key>, committee: seq<Key>, incoming: seq<Key>, out: seq<Key>)
    returns (r: Replay)
    ensures r == ReplaySwap(pending, committee, incoming, out)
  {
    var p, c := pending, committee;
    assert incoming == [] ==> committee + incoming == committee;
    if |incoming| > 0 {
      assert incoming != [];
      var removal := RemoveValidator(p, Resplit(incoming));
      if !removal.Removed? {
        return Refused;
      }
      p := removal.rest;
      c := c + Resplit(incoming);
    }
    if |out| > 0 {
      assert out != [];
      var removal := RemoveValidator(c, Resplit(out));
      if !removal.Removed? {
        return Refused;
      }
      c := removal.rest;
    }
    return Replayed(p, c);
  }

  // Replaying the instruction of a swap result gives its lists.
  predicate ReplayGives(pending: seq<Key>, committee: seq<Key>, r: SwapResult) {
    r.Returns? && ReplaySwap(pending, committee, r.incoming, r.out) == Replayed(r.pending, r.committee)
  }

  /** With an offset of one, replaying the instruction of a swap gives the lists of the swap. */
  lemma ReplayMatchesSwap(pending: seq<Key>, committee: seq<Key>, max: int)
    requires Swap(pending, committee, max, 1).Returns? && Swap(pending, committee, max, 1).err == Fine
    ensures ReplayGives(pending, committee, Swap(pending, committee, max, 1))
  {
  }

  /** For a full committee of distinct keys the replay matches the swap exactly when one key is swapped. */
  lemma ReplayMatchesOnlyOne(pending: seq<Key>, committee: seq<Key>, max: int, offset: int)
    requires Swap(pending, committee, max, offset).Returns? && Swap(pending, committee, max, offset).err == Fine
    requires |committee| == max && Distinct(committee + pending)
    ensures ReplayGives(pending, committee, Swap(pending, committee, max, offset)) <==> Min(offset, |pending|) == 1
  {
    var k := Min(offset, |pending|);
    if k == 1 {
      ReplayMatchesSwap(pending, committee, max);
    } else {
      DistinctTail(committee, pending);
      ManyNotRemoved(pending, pending[0..k]);
    }
  }

  // Two keys are swapped at once: the swap works, and replaying its instruction is refused.
  lemma TwoSwapped()
    ensures var pending, committee := [Key(3), Key(4)], [Key(1), Key(2)];
            var r := Swap(pending, committee, 2, 2);
            && r == Returns([], pending, committee, pending, Fine)
            && ReplaySwap(pending, committee, r.incoming, r.out).Refused?
  {
  }

  lemma DistinctTail(a: seq<Key>, b: seq<Key>)
    requires Distinct(a + b)
    ensures Distinct(b)
  {
    forall i, j | 0 <= i < j < |b| ensures b[i] != b[j] {
      assert (a + b)[|a| + i] != (a + b)[|a| + j];
    }
  }

  lemma ManyNotRemoved(pending: seq<Key>, removed: seq<Key>)
    requires Distinct(pending) && 2 <= |removed| <= |pending| && removed == pending[0..|removed|]
    ensures !Remove(pending, removed).Removed?
  {
    assert removed[1] == pending[1] && removed[0] == pending[0];
    MismatchIs(pending, removed, 0, 1);
  }
}
