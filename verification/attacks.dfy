/** add_attacks (scripts/create_adversarial_dataset.py, lines 68-96): for each
    heldout record in order, split the attention field, swap a working slice,
    splice it back, re-join with single spaces and overwrite the last field. */
module Attacks {
  import opened Builtins
  import opened Dataset
  import opened Swapping

  /** The attention tokens of a record: `line[-1].split()`. */
  function Alignment(line: Record): seq<string>
    requires |line| > 0
  {
    Words(line[|line| - 1])
  }

  /** The slice handed to swap: `attention[:-1]` when the input position is
      swapped too, `attention[1:-1]` otherwise. */
  function WorkingSlice(tokens: seq<string>, swapInput: bool): seq<string> {
    if swapInput then DropLast(tokens) else Interior(tokens)
  }

  /** `swapped + attention[-1:]`, or `attention[:1] + swapped + attention[-1:]`. */
  function Splice(tokens: seq<string>, swapInput: bool, swapped: seq<string>): seq<string> {
    if swapInput then swapped + TakeLast(tokens)
    else TakeFirst(tokens) + swapped + TakeLast(tokens)
  }

  /** The fewest attention tokens for which the working slice has two positions. */
  function MinTokens(swapInput: bool): nat {
    if swapInput then 3 else 4
  }

  /** The random draws fit the record: one per round, and valid whenever the
      working slice has at least two positions. */
  predicate PicksFit(line: Record, swapInput: bool, level: int, picks: seq<Pick>) {
    && |picks| == Rounds(level)
    && (|line| > 0 && |WorkingSlice(Alignment(line), swapInput)| >= 2 ==>
          ValidPicks(picks, |WorkingSlice(Alignment(line), swapInput)|))
  }

  /** The new attention tokens of one record (lines 82-90). */
  function PerturbAlignment(tokens: seq<string>, swapInput: bool, level: int, picks: seq<Pick>): (r: Result<seq<string>>)
    requires |picks| == Rounds(level)
    requires |WorkingSlice(tokens, swapInput)| >= 2 ==> ValidPicks(picks, |WorkingSlice(tokens, swapInput)|)
    ensures r.Err? <==> level > 0 && |tokens| < MinTokens(swapInput)
    ensures r.Err? ==> r.error == ValueError
  {
    var slice := WorkingSlice(tokens, swapInput);
    if level > 0 && |slice| < 2 then Err(ValueError)
    else Ok(Splice(tokens, swapInput, ApplySwaps(slice, picks)))
  }

  /** One record after add_attacks' loop body (lines 82-95). */
  function AttackRecord(line: Record, swapInput: bool, level: int, picks: seq<Pick>): Result<Record>
    requires PicksFit(line, swapInput, level, picks)
  {
    if |line| == 0 then Err(IndexError)
    else
      var tokens :- PerturbAlignment(Alignment(line), swapInput, level, picks);
      Ok(line[|line| - 1 := Join(tokens)])
  }

  /** What perturbing does to the attention tokens: a permutation of the same
      tokens of the same count (except that `attention[:1] + [] + attention[-1:]`
      doubles a lone token), the first and last tokens fixed when the input
      position is excluded, the last one fixed when it is included, and no
      change at all when no round runs. */
  lemma PerturbAlignmentKeepsTokens(tokens: seq<string>, swapInput: bool, level: int, picks: seq<Pick>)
    requires |picks| == Rounds(level)
    requires |WorkingSlice(tokens, swapInput)| >= 2 ==> ValidPicks(picks, |WorkingSlice(tokens, swapInput)|)
    requires PerturbAlignment(tokens, swapInput, level, picks).Ok?
    ensures var r := PerturbAlignment(tokens, swapInput, level, picks).value;
      && ((swapInput || |tokens| != 1) ==> |r| == |tokens| && multiset(r) == multiset(tokens))
      && (!swapInput && |tokens| == 1 ==> r == tokens + tokens)
      && (!swapInput && |tokens| >= 2 ==>
            && r[0] == tokens[0]
            && r[|r| - 1] == tokens[|tokens| - 1]
            && multiset(r[1..|r| - 1]) == multiset(tokens[1..|tokens| - 1]))
      && (swapInput && |tokens| >= 1 ==> r[|r| - 1] == tokens[|tokens| - 1])
      && (level <= 0 && (swapInput || |tokens| != 1) ==> r == tokens)
  {
    var slice := WorkingSlice(tokens, swapInput);
    var swapped := ApplySwaps(slice, picks);
    ApplySwapsPermutes(slice, picks);
    if level <= 0 {
      assert picks == [];
    }
    if swapInput {
      SpliceIncluded(tokens, swapped);
    } else {
      SpliceExcluded(tokens, swapped);
    }
  }

  lemma SpliceIncluded(tokens: seq<string>, swapped: seq<string>)
    requires multiset(swapped) == multiset(DropLast(tokens))
    ensures var r := Splice(tokens, true, swapped);
      && |r| == |tokens| && multiset(r) == multiset(tokens)
      && (|tokens| >= 1 ==> r[|r| - 1] == tokens[|tokens| - 1])
      && (swapped == DropLast(tokens) ==> r == tokens)
  {
    var n := |tokens|;
    assert |swapped| == |multiset(swapped)| == |DropLast(tokens)|;
    if n >= 1 {
      assert tokens == DropLast(tokens) + tokens[n - 1..];
    }
  }

  lemma SpliceExcluded(tokens: seq<string>, swapped: seq<string>)
    requires multiset(swapped) == multiset(Interior(tokens))
    ensures var r := Splice(tokens, false, swapped);
      && (|tokens| != 1 ==> |r| == |tokens| && multiset(r) == multiset(tokens))
      && (|tokens| == 1 ==> r == tokens + tokens)
      && (|tokens| >= 2 ==>
            && r[0] == tokens[0]
            && r[|r| - 1] == tokens[|tokens| - 1]
            && multiset(r[1..|r| - 1]) == multiset(tokens[1..|tokens| - 1]))
      && (swapped == Interior(tokens) && |tokens| != 1 ==> r == tokens)
  {
    var n := |tokens|;
    var r := Splice(tokens, false, swapped);
    assert |swapped| == |multiset(swapped)| == |Interior(tokens)|;
    if n == 1 {
      assert swapped == [];
    } else if n >= 2 {
      assert tokens == tokens[..1] + Interior(tokens) + tokens[n - 1..];
      assert r == tokens[..1] + swapped + tokens[n - 1..];
      assert r[1..|r| - 1] == swapped;
      assert tokens[1..n - 1] == Interior(tokens);
    }
  }

  /** What add_attacks does to one record: it fails with IndexError on a record
      with no field and with ValueError (from random.sample) when rounds are
      asked of a slice shorter than two; otherwise the record keeps its field
      count, every field but the last is untouched, and splitting the new last
      field gives back exactly the perturbed tokens, which are a permutation of
      the old ones. The new field is their single-space join: its only
      whitespace is ' ', and it does not end in whitespace, so the trailing
      newline of the old field is gone. */
  lemma AttackRecordSpec(line: Record, swapInput: bool, level: int, picks: seq<Pick>)
    requires PicksFit(line, swapInput, level, picks)
    ensures var r := AttackRecord(line, swapInput, level, picks);
      && (r.Err? <==> |line| == 0 || (level > 0 && |Alignment(line)| < MinTokens(swapInput)))
      && (r.Err? ==> r.error == if |line| == 0 then IndexError else ValueError)
      && (r.Ok? ==>
            && |r.value| == |line|
            && r.value[..|line| - 1] == line[..|line| - 1]
            && r.value[|line| - 1] == Join(PerturbAlignment(Alignment(line), swapInput, level, picks).value)
            && Alignment(r.value) == PerturbAlignment(Alignment(line), swapInput, level, picks).value
            && SingleSpaced(r.value[|line| - 1])
            && ((swapInput || |Alignment(line)| != 1) ==>
                  |Alignment(r.value)| == |Alignment(line)|
                  && multiset(Alignment(r.value)) == multiset(Alignment(line))))
  {
    var r := AttackRecord(line, swapInput, level, picks);
    if r.Ok? {
      var tokens := Alignment(line);
      var ts := PerturbAlignment(tokens, swapInput, level, picks).value;
      PerturbAlignmentKeepsTokens(tokens, swapInput, level, picks);
      WordsAreWords(line[|line| - 1]);
      forall w | w in ts
        ensures IsWord(w)
      {
        if swapInput || |tokens| != 1 {
          assert w in multiset(ts);
        }
      }
      SplitJoin(ts);
      JoinOnlySingleSpaces(ts);
    }
  }

  /** The loop body of add_attacks for one record: the working slice is copied
      into a fresh list, swapped in place, and spliced back. */
  method AttackLine(line: Record, swapInput: bool, level: int, picks: seq<Pick>) returns (r: Result<Record>)
    requires PicksFit(line, swapInput, level, picks)
    ensures r == AttackRecord(line, swapInput, level, picks)
  {
    if |line| == 0 {
      return Err(IndexError);
    }
    var attention := Words(line[|line| - 1]);
    var slice := WorkingSlice(attention, swapInput);
    var buffer := new string[|slice|](i requires 0 <= i < |slice| => slice[i]);
    assert buffer[..] == slice;
    var swapped := Swap(buffer, level, picks);
    if swapped.Err? {
      return Err(swapped.error);
    }
    var joined := Join(Splice(attention, swapInput, buffer[..]));
    r := Ok(line[|line| - 1 := joined]);
  }

  /** add_attacks(heldout, swap_input, level): the records are processed in
      order and rewritten in place. If one raises, the records before it are
      already rewritten and it and the ones after it are unchanged. */
  method AddAttacks(heldout: array<Record>, swapInput: bool, level: int, picks: seq<seq<Pick>>) returns (r: Result<()>)
    requires |picks| == heldout.Length
    requires forall i :: 0 <= i < heldout.Length ==> PicksFit(heldout[i], swapInput, level, picks[i])
    modifies heldout
    ensures r.Ok? ==>
      forall i :: 0 <= i < heldout.Length ==>
        AttackRecord(old(heldout[i]), swapInput, level, picks[i]) == Ok(heldout[i])
    ensures r.Err? ==>
      exists k :: 0 <= k < heldout.Length
        && AttackRecord(old(heldout[k]), swapInput, level, picks[k]) == Err(r.error)
        && (forall i :: 0 <= i < k ==> AttackRecord(old(heldout[i]), swapInput, level, picks[i]) == Ok(heldout[i]))
        && (forall i :: k <= i < heldout.Length ==> heldout[i] == old(heldout[i]))
  {
    for i := 0 to heldout.Length
      invariant forall k :: 0 <= k < i ==>
        AttackRecord(old(heldout[k]), swapInput, level, picks[k]) == Ok(heldout[k])
      invariant forall k :: i <= k < heldout.Length ==> heldout[k] == old(heldout[k])
    {
      var line := AttackLine(heldout[i], swapInput, level, picks[i]);
      if line.Err? {
        r := Err(line.error);
        assert AttackRecord(old(heldout[i]), swapInput, level, picks[i]) == Err(r.error);
        return;
      }
      heldout[i] := line.value;
    }
    r := Ok(());
  }
}
