/** The script's top level (scripts/create_adversarial_dataset.py, lines
    141-152) without argument parsing and file I/O: load the tables, attack
    every heldout record, and, only when the input position was not swapped,
    replay the outputs along the new attention. */
module Pipeline {
  import opened Builtins
  import opened Dataset
  import opened Swapping
  import opened Attacks
  import opened Replay
  import opened Training

  /** Attacking a record with the input position kept fixed and then replaying
      its output leaves the input field alone, keeps the new attention, and
      makes the output the lookup chain along that new attention from the old
      first output word. Tables loaded from a training file hold only words
      (Training.BuildWordValues), and then splitting the new output field gives
      that chain. */
  lemma AttackThenReplay(line: Record, tables: Tables, level: int, picks: seq<Pick>)
    requires |line| == 3
    requires PicksFit(line, false, level, picks)
    requires AttackRecord(line, false, level, picks).Ok?
    requires UpdateRecord(AttackRecord(line, false, level, picks).value, tables).Ok?
    requires WordValues(tables)
    ensures var attacked := AttackRecord(line, false, level, picks).value;
      var replayed := UpdateRecord(attacked, tables).value;
      && |replayed| == 3
      && replayed[0] == line[0]
      && replayed[2] == attacked[2]
      && Words(replayed[2]) == PerturbAlignment(Words(line[2]), false, level, picks).value
      && Words(line[1]) != []
      && IsChain(tables, Words(line[0]), Words(replayed[2]), Words(line[1])[0],
                 StepCount(Words(line[0])), Words(replayed[1]))
  {
    var attacked := AttackRecord(line, false, level, picks).value;
    AttackRecordSpec(line, false, level, picks);
    assert attacked[..2] == line[..2];
    assert attacked[0] == line[0] && attacked[1] == line[1];
    UpdateRecordOk(attacked, tables);
    var replayed := UpdateRecord(attacked, tables).value;
    assert replayed[2] == replayed[2..][0] == attacked[2..][0];
  }

  /** Lines 141-152: the tables are loaded first, so a bad training line stops
      the run before any record is touched. Then every record is attacked; if
      one raises, the run stops with the records before it attacked and the
      rest as they were. `attacked` is the corpus written to the _attacks file.
      Only when the input position was not swapped are the outputs replayed,
      and if a replay raises, the records before it are replayed and the rest
      keep their attacked form. */
  method CreateAttacks(trainLines: seq<string>, heldout: array<Record>, swapInput: bool, level: int, picks: seq<seq<Pick>>)
    returns (r: Result<()>, attacked: seq<Record>)
    requires |picks| == heldout.Length
    requires forall i :: 0 <= i < heldout.Length ==> PicksFit(heldout[i], swapInput, level, picks[i])
    modifies heldout
    ensures Build(SplitAll(Head(trainLines))).Err? ==>
      r == Err(Build(SplitAll(Head(trainLines))).error) && heldout[..] == old(heldout[..])
    ensures r.Ok? <==>
      && Build(SplitAll(Head(trainLines))).Ok?
      && (forall i :: 0 <= i < heldout.Length ==> AttackRecord(old(heldout[i]), swapInput, level, picks[i]).Ok?)
      && (!swapInput ==>
            forall i :: 0 <= i < heldout.Length ==>
              UpdateRecord(AttackRecord(old(heldout[i]), swapInput, level, picks[i]).value,
                           Build(SplitAll(Head(trainLines))).value).Ok?)
    // An attack raises: the records before the first failing one are attacked.
    ensures Build(SplitAll(Head(trainLines))).Ok? &&
            (exists i :: 0 <= i < heldout.Length && AttackRecord(old(heldout[i]), swapInput, level, picks[i]).Err?) ==>
      exists k :: 0 <= k < heldout.Length
        && AttackRecord(old(heldout[k]), swapInput, level, picks[k]) == Err(r.error)
        && (forall i :: 0 <= i < k ==> AttackRecord(old(heldout[i]), swapInput, level, picks[i]) == Ok(heldout[i]))
        && (forall i :: k <= i < heldout.Length ==> heldout[i] == old(heldout[i]))
    // Every attack succeeds: `attacked` holds them all, and the heldout list is
    // either that corpus or its replay, up to the first failing record.
    ensures Build(SplitAll(Head(trainLines))).Ok? &&
            (forall i :: 0 <= i < heldout.Length ==> AttackRecord(old(heldout[i]), swapInput, level, picks[i]).Ok?) ==>
      && |attacked| == heldout.Length
      && (forall i :: 0 <= i < heldout.Length ==>
            AttackRecord(old(heldout[i]), swapInput, level, picks[i]) == Ok(attacked[i]))
      && (swapInput ==> r.Ok? && heldout[..] == attacked)
      && (!swapInput && r.Ok? ==>
            forall i :: 0 <= i < heldout.Length ==>
              UpdateRecord(attacked[i], Build(SplitAll(Head(trainLines))).value) == Ok(heldout[i]))
      && (!swapInput && r.Err? ==>
            exists k :: 0 <= k < heldout.Length
              && UpdateRecord(attacked[k], Build(SplitAll(Head(trainLines))).value) == Err(r.error)
              && (forall i :: 0 <= i < k ==>
                    UpdateRecord(attacked[i], Build(SplitAll(Head(trainLines))).value) == Ok(heldout[i]))
              && (forall i :: k <= i < heldout.Length ==> heldout[i] == attacked[i]))
  {
    attacked := [];
    var tables := LoadTables(trainLines);
    if tables.Err? {
      return Err(tables.error), attacked;
    }
    r := AddAttacks(heldout, swapInput, level, picks);
    if r.Err? {
      return;
    }
    attacked := heldout[..];
    if !swapInput {
      r := UpdateOutput(heldout, tables.value);
    }
  }
}
