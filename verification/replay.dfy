/** update_output (scripts/create_adversarial_dataset.py, lines 99-125):
    rebuild each record's output by walking the lookup chain that the (new)
    attention selects, starting from the first output word. */
module Replay {
  import opened Builtins
  import opened Dataset

  /** How many lookups `for j in range(1, len(input_sequence) - 1)` makes. */
  function StepCount(input: seq<string>): nat {
    if |input| >= 2 then |input| - 2 else 0
  }

  /** The table name used at step j: `input_sequence[int(attention[j])]`. */
  function TableName(input: seq<string>, attention: seq<string>, j: nat): (r: Result<string>)
    ensures r.Ok? <==>
      j < |attention| && ParseInt(attention[j]).Ok? && -|input| <= ParseInt(attention[j]).value < |input|
    ensures r.Ok? ==> r.value == PyIndex(input, ParseInt(attention[j]).value).value
    ensures r.Ok? ==> r.value in input
    ensures r.Err? ==>
      r.error == if j < |attention| && ParseInt(attention[j]).Err? then ValueError else IndexError
  {
    if j < |attention| then
      var index :- ParseInt(attention[j]);
      PyIndex(input, index)
    else Err(IndexError)
  }

  /** One step of the chain (lines 120-121). `tables` is a defaultdict(dict),
      so an unknown name gives an empty table and the lookup of the word in it
      raises KeyError. */
  function Lookup(tables: Tables, input: seq<string>, attention: seq<string>, j: nat, word: string): (r: Result<string>)
    ensures TableName(input, attention, j).Err? ==> r == Err(TableName(input, attention, j).error)
    ensures TableName(input, attention, j).Ok? ==>
      var name := TableName(input, attention, j).value;
      && (r.Ok? <==> name in tables && word in tables[name])
      && (r.Ok? ==> r.value == tables[name][word])
      && (r.Err? ==> r.error == KeyError)
  {
    var name :- TableName(input, attention, j);
    var table := if name in tables then tables[name] else map[];
    if word in table then Ok(table[word]) else Err(KeyError)
  }

  /** The new output after the first m lookups, seeded with `seed`. */
  function Steps(tables: Tables, input: seq<string>, attention: seq<string>, seed: string, m: nat): (r: Result<seq<string>>)
    ensures r.Ok? ==> |r.value| == m + 1 && r.value[0] == seed
  {
    if m == 0 then Ok([seed])
    else
      var prev :- Steps(tables, input, attention, seed, m - 1);
      var word :- Lookup(tables, input, attention, m, prev[m - 1]);
      Ok(prev + [word])
  }

  /** Step j of a chain turns `prev` into `next` through the table that the
      attention names, and that table holds `prev`. */
  predicate ChainStep(tables: Tables, input: seq<string>, attention: seq<string>, j: nat, prev: string, next: string) {
    var name := TableName(input, attention, j);
    && name.Ok?
    && name.value in tables
    && prev in tables[name.value]
    && tables[name.value][prev] == next
  }

  /** A chain of m lookups from `seed`: out[0] is the seed and every later word
      is the previous one looked up in the table chosen at its step. */
  predicate IsChain(tables: Tables, input: seq<string>, attention: seq<string>, seed: string, m: nat, out: seq<string>) {
    && |out| == m + 1
    && out[0] == seed
    && forall j :: 1 <= j <= m ==> ChainStep(tables, input, attention, j, out[j - 1], out[j])
  }

  /** Replaying succeeds with exactly the chains: the result is the (unique)
      chain when one exists, and an error when none does. */
  lemma {:induction false} StepsIsChain(tables: Tables, input: seq<string>, attention: seq<string>, seed: string, m: nat, out: seq<string>)
    ensures Steps(tables, input, attention, seed, m) == Ok(out) <==> IsChain(tables, input, attention, seed, m, out)
  {
    if m == 0 {
      if IsChain(tables, input, attention, seed, m, out) {
        assert out == [seed];
      }
    } else {
      var r := Steps(tables, input, attention, seed, m);
      if r == Ok(out) {
        var prev := Steps(tables, input, attention, seed, m - 1).value;
        StepsIsChain(tables, input, attention, seed, m - 1, prev);
        assert out == prev + [out[m]];
        assert out[..m] == prev;
        forall j | 1 <= j <= m
          ensures ChainStep(tables, input, attention, j, out[j - 1], out[j])
        {
          if j < m {
            assert out[j - 1] == prev[j - 1] && out[j] == prev[j];
          }
        }
      }
      if IsChain(tables, input, attention, seed, m, out) {
        var prev := out[..m];
        assert IsChain(tables, input, attention, seed, m - 1, prev) by {
          forall j | 1 <= j <= m - 1
            ensures ChainStep(tables, input, attention, j, prev[j - 1], prev[j])
          {
            assert prev[j - 1] == out[j - 1] && prev[j] == out[j];
          }
        }
        StepsIsChain(tables, input, attention, seed, m - 1, prev);
        assert ChainStep(tables, input, attention, m, out[m - 1], out[m]);
        assert out == prev + [out[m]];
      }
    }
  }

  /** Once a step fails, every longer replay fails with the same error. */
  lemma {:induction false} StepsErrPersists(tables: Tables, input: seq<string>, attention: seq<string>, seed: string, k: nat, m: nat)
    requires k <= m
    requires Steps(tables, input, attention, seed, k).Err?
    ensures Steps(tables, input, attention, seed, m) == Steps(tables, input, attention, seed, k)
    decreases m - k
  {
    if k < m {
      StepsErrPersists(tables, input, attention, seed, k, m - 1);
    }
  }

  /** Step j is where replay raises: the first j - 1 lookups succeed and the
      j-th does not. */
  predicate FailsAt(tables: Tables, input: seq<string>, attention: seq<string>, seed: string, j: nat) {
    && j >= 1
    && Steps(tables, input, attention, seed, j - 1).Ok?
    && Lookup(tables, input, attention, j, Steps(tables, input, attention, seed, j - 1).value[j - 1]).Err?
  }

  /** The exception raised by the failing step j. */
  function FailedLookup(tables: Tables, input: seq<string>, attention: seq<string>, seed: string, j: nat): Error
    requires FailsAt(tables, input, attention, seed, j)
  {
    Lookup(tables, input, attention, j, Steps(tables, input, attention, seed, j - 1).value[j - 1]).error
  }

  /** A replay of m lookups raises exactly when one of its steps fails, and
      then it raises that step's exception. */
  lemma {:induction false} StepsFirstError(tables: Tables, input: seq<string>, attention: seq<string>, seed: string, m: nat)
    ensures Steps(tables, input, attention, seed, m).Err? <==>
      exists j :: 1 <= j <= m && FailsAt(tables, input, attention, seed, j)
    ensures forall j :: 1 <= j <= m && FailsAt(tables, input, attention, seed, j) ==>
      Steps(tables, input, attention, seed, m) == Err(FailedLookup(tables, input, attention, seed, j))
  {
    forall j | 1 <= j <= m && FailsAt(tables, input, attention, seed, j)
      ensures Steps(tables, input, attention, seed, m) == Err(FailedLookup(tables, input, attention, seed, j))
    {
      assert Steps(tables, input, attention, seed, j) == Err(FailedLookup(tables, input, attention, seed, j));
      StepsErrPersists(tables, input, attention, seed, j, m);
    }
    if m > 0 && Steps(tables, input, attention, seed, m).Err? {
      if Steps(tables, input, attention, seed, m - 1).Err? {
        StepsFirstError(tables, input, attention, seed, m - 1);
        var j :| 1 <= j <= m - 1 && FailsAt(tables, input, attention, seed, j);
      } else {
        assert FailsAt(tables, input, attention, seed, m);
      }
    }
  }

  /** One record after update_output's loop body (lines 112-124). A record with
      fewer than three fields or an empty output raises IndexError. */
  function UpdateRecord(line: Record, tables: Tables): Result<Record> {
    if |line| < 3 then Err(IndexError)
    else
      var input, output, attention := Words(line[0]), Words(line[1]), Words(line[2]);
      if output == [] then Err(IndexError)
      else
        var newOutput :- Steps(tables, input, attention, output[0], StepCount(input));
        Ok(line[1 := Join(newOutput)])
  }

  /** update_output fails on a record exactly when it has fewer than three
      fields, its output is empty (IndexError), or no lookup chain exists from
      the first output word (the error of the first failing step). */
  lemma UpdateRecordFails(line: Record, tables: Tables)
    ensures UpdateRecord(line, tables).Err? ==>
      || |line| < 3
      || Words(line[1]) == []
      || forall out :: !IsChain(tables, Words(line[0]), Words(line[2]), Words(line[1])[0], StepCount(Words(line[0])), out)
    ensures UpdateRecord(line, tables).Ok? ==>
      && |line| >= 3
      && Words(line[1]) != []
      && exists out :: IsChain(tables, Words(line[0]), Words(line[2]), Words(line[1])[0], StepCount(Words(line[0])), out)
  {
    if |line| >= 3 && Words(line[1]) != [] {
      var input, output, attention := Words(line[0]), Words(line[1]), Words(line[2]);
      var m := StepCount(input);
      var steps := Steps(tables, input, attention, output[0], m);
      if steps.Ok? {
        StepsIsChain(tables, input, attention, output[0], m, steps.value);
        assert UpdateRecord(line, tables).Ok?;
        assert IsChain(tables, input, attention, output[0], m, steps.value);
        assert !forall out :: !IsChain(tables, input, attention, output[0], m, out);
      } else {
        forall out | true
          ensures !IsChain(tables, input, attention, output[0], m, out)
        {
          StepsIsChain(tables, input, attention, output[0], m, out);
        }
      }
    }
  }

  /** Which exception update_output raises on a record: IndexError for a
      record with fewer than three fields or an empty output (`line[2]`,
      `output_sequence[0]`), and otherwise the exception of the failing
      lookup step. By Lookup's contract that is KeyError when the table name
      resolves but the name is not a table or the running word is not in it,
      ValueError when the attention token is not an integer, and IndexError
      when the attention or the input is too short. */
  lemma UpdateRecordErrors(line: Record, tables: Tables)
    ensures |line| < 3 ==> UpdateRecord(line, tables) == Err(IndexError)
    ensures |line| >= 3 && Words(line[1]) == [] ==> UpdateRecord(line, tables) == Err(IndexError)
    ensures |line| >= 3 && Words(line[1]) != [] && UpdateRecord(line, tables).Err? ==>
      exists j :: 1 <= j <= StepCount(Words(line[0]))
        && FailsAt(tables, Words(line[0]), Words(line[2]), Words(line[1])[0], j)
        && UpdateRecord(line, tables).error == FailedLookup(tables, Words(line[0]), Words(line[2]), Words(line[1])[0], j)
    ensures |line| >= 3 && Words(line[1]) != [] ==>
      forall j :: 1 <= j <= StepCount(Words(line[0])) && FailsAt(tables, Words(line[0]), Words(line[2]), Words(line[1])[0], j) ==>
        UpdateRecord(line, tables) == Err(FailedLookup(tables, Words(line[0]), Words(line[2]), Words(line[1])[0], j))
  {
    if |line| >= 3 && Words(line[1]) != [] {
      var input, attention, seed := Words(line[0]), Words(line[2]), Words(line[1])[0];
      var m := StepCount(input);
      StepsFirstError(tables, input, attention, seed, m);
      if UpdateRecord(line, tables).Err? {
        assert Steps(tables, input, attention, seed, m).Err?;
        var j :| 1 <= j <= m && FailsAt(tables, input, attention, seed, j);
        assert UpdateRecord(line, tables).error == FailedLookup(tables, input, attention, seed, j);
      }
    }
  }

  /** When update_output succeeds on a record, only field 1 changes, and it
      becomes the single-space join of the lookup chain of len(input) - 1 words
      (one word when the input has fewer than two tokens) that starts at the
      old first output word. When every table value is a word, splitting the
      new field gives that chain back. */
  lemma UpdateRecordOk(line: Record, tables: Tables)
    requires UpdateRecord(line, tables).Ok?
    ensures var r := UpdateRecord(line, tables).value;
      var input, attention := Words(line[0]), Words(line[2]);
      && |r| == |line|
      && r[0] == line[0]
      && r[2..] == line[2..]
      && Words(line[1]) != []
      && (exists out ::
            && IsChain(tables, input, attention, Words(line[1])[0], StepCount(input), out)
            && r[1] == Join(out))
      && (WordValues(tables) ==>
            IsChain(tables, input, attention, Words(line[1])[0], StepCount(input), Words(r[1])))
  {
    var input, output, attention := Words(line[0]), Words(line[1]), Words(line[2]);
    var m := StepCount(input);
    var out := Steps(tables, input, attention, output[0], m).value;
    StepsIsChain(tables, input, attention, output[0], m, out);
    assert UpdateRecord(line, tables).value[1] == Join(out);
    if WordValues(tables) {
      WordsAreWords(line[1]);
      assert output[0] in output;
      forall w | w in out
        ensures IsWord(w)
      {
        var j :| 0 <= j < |out| && out[j] == w;
        if j > 0 {
          assert ChainStep(tables, input, attention, j, out[j - 1], out[j]);
        }
      }
      SplitJoin(out);
    }
  }

  /** The loop body of update_output for one record: a running `word` and a
      growing `new_output`, one table lookup per step. */
  method ReplayLine(line: Record, tables: Tables) returns (r: Result<Record>)
    ensures r == UpdateRecord(line, tables)
  {
    if |line| < 3 {
      return Err(IndexError);
    }
    var input := Words(line[0]);
    var output := Words(line[1]);
    var attention := Words(line[2]);
    if |output| == 0 {
      return Err(IndexError);
    }
    var word := output[0];
    var newOutput := [word];
    var j := 1;
    while j < |input| - 1
      invariant 1 <= j <= StepCount(input) + 1
      invariant Steps(tables, input, attention, output[0], j - 1) == Ok(newOutput)
      invariant word == newOutput[j - 1]
    {
      var step := Lookup(tables, input, attention, j, word);
      if step.Err? {
        StepsErrPersists(tables, input, attention, output[0], j, StepCount(input));
        return Err(step.error);
      }
      word := step.value;
      newOutput := newOutput + [word];
      j := j + 1;
    }
    r := Ok(line[1 := Join(newOutput)]);
  }

  /** update_output(heldout, tables): the records are processed in order and
      rewritten in place. If one raises, the records before it are already
      rewritten and it and the ones after it are unchanged. */
  method UpdateOutput(heldout: array<Record>, tables: Tables) returns (r: Result<()>)
    modifies heldout
    ensures r.Ok? ==>
      forall i :: 0 <= i < heldout.Length ==> UpdateRecord(old(heldout[i]), tables) == Ok(heldout[i])
    ensures r.Err? ==>
      exists k :: 0 <= k < heldout.Length
        && UpdateRecord(old(heldout[k]), tables) == Err(r.error)
        && (forall i :: 0 <= i < k ==> UpdateRecord(old(heldout[i]), tables) == Ok(heldout[i]))
        && (forall i :: k <= i < heldout.Length ==> heldout[i] == old(heldout[i]))
  {
    for i := 0 to heldout.Length
      invariant forall k :: 0 <= k < i ==> UpdateRecord(old(heldout[k]), tables) == Ok(heldout[k])
      invariant forall k :: i <= k < heldout.Length ==> heldout[k] == old(heldout[k])
    {
      var line := ReplayLine(heldout[i], tables);
      if line.Err? {
        r := Err(line.error);
        assert UpdateRecord(old(heldout[i]), tables) == Err(r.error);
        return;
      }
      heldout[i] := line.value;
    }
    r := Ok(());
  }
}
