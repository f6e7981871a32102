/** load_tables (scripts/create_adversarial_dataset.py, lines 10-32), given the
    lines of the training file instead of its name: the first 64 lines are
    split on whitespace and each contributes `tables[field 1][field 0] =
    field 4`. */
module Training {
  import opened Builtins
  import opened Dataset

  /** Only this many leading lines of the training file are read. */
  const MappingLines := 64

  /** `readlines()[:64]` */
  function Head(lines: seq<string>): (h: seq<string>)
    ensures |h| == if |lines| < MappingLines then |lines| else MappingLines
    ensures forall i :: 0 <= i < |h| ==> h[i] == lines[i]
  {
    if |lines| <= MappingLines then lines else lines[..MappingLines]
  }

  /** `[line.split() for line in lines]` */
  function SplitAll(lines: seq<string>): (ms: seq<seq<string>>)
    ensures |ms| == |lines|
    ensures forall i :: 0 <= i < |lines| ==> ms[i] == Words(lines[i])
    ensures forall i, k :: 0 <= i < |lines| && 0 <= k < |ms[i]| ==> IsWord(ms[i][k])
  {
    forall i | 0 <= i < |lines| {
      WordsAreWords(lines[i]);
    }
    seq(|lines|, i requires 0 <= i < |lines| => Words(lines[i]))
  }

  /** One pass of the loop (lines 27-30). A mapping with fewer than five fields
      raises IndexError; a new table name starts from an empty table. */
  function Put(tables: Tables, mapping: seq<string>): Result<Tables> {
    if |mapping| < 5 then Err(IndexError)
    else
      var name := mapping[1];
      var table := if name in tables then tables[name] else map[];
      Ok(tables[name := table[mapping[0] := mapping[4]]])
  }

  /** The tables after the loop has gone through the given mappings. */
  function Build(mappings: seq<seq<string>>): Result<Tables> {
    if mappings == [] then Ok(map[])
    else
      var tables :- Build(mappings[..|mappings| - 1]);
      Put(tables, mappings[|mappings| - 1])
  }

  /** Reference definition: field 4 of the last mapping with that table name
      and key, if there is one. */
  function LastWrite(mappings: seq<seq<string>>, name: string, key: string): Option<string> {
    if mappings == [] then None
    else
      var m := mappings[|mappings| - 1];
      if |m| >= 5 && m[1] == name && m[0] == key then Some(m[4])
      else LastWrite(mappings[..|mappings| - 1], name, key)
  }

  /** `tables[name][key]` if both exist. */
  function Get(tables: Tables, name: string, key: string): Option<string> {
    if name in tables && key in tables[name] then Some(tables[name][key]) else None
  }

  /** Last write wins: every lookup in the built tables gives field 4 of the
      last mapping with that table name and key, and misses when there is none. */
  lemma {:induction false} BuildLastWriteWins(mappings: seq<seq<string>>, name: string, key: string)
    requires Build(mappings).Ok?
    ensures Get(Build(mappings).value, name, key) == LastWrite(mappings, name, key)
  {
    if mappings != [] {
      var init := mappings[..|mappings| - 1];
      BuildLastWriteWins(init, name, key);
    }
  }

  /** The tables that exist are exactly the names in field 1 of some mapping. */
  lemma {:induction false} BuildTableNames(mappings: seq<seq<string>>, name: string)
    requires Build(mappings).Ok?
    ensures name in Build(mappings).value <==>
      exists i :: 0 <= i < |mappings| && |mappings[i]| >= 5 && mappings[i][1] == name
  {
    if mappings != [] {
      var n := |mappings| - 1;
      var init := mappings[..n];
      BuildTableNames(init, name);
      if name in Build(mappings).value && mappings[n][1] != name {
        var i :| 0 <= i < |init| && |init[i]| >= 5 && init[i][1] == name;
        assert mappings[i] == init[i];
      }
      if exists i :: 0 <= i < |mappings| && |mappings[i]| >= 5 && mappings[i][1] == name {
        var i :| 0 <= i < |mappings| && |mappings[i]| >= 5 && mappings[i][1] == name;
        if i < n {
          assert init[i] == mappings[i];
        }
      }
    }
  }

  /** The loop raises exactly when some mapping has fewer than five fields. */
  lemma {:induction false} BuildFails(mappings: seq<seq<string>>)
    ensures Build(mappings).Err? <==> exists i :: 0 <= i < |mappings| && |mappings[i]| < 5
    ensures Build(mappings).Err? ==> Build(mappings).error == IndexError
  {
    if mappings != [] {
      var n := |mappings| - 1;
      var init := mappings[..n];
      BuildFails(init);
      if exists i :: 0 <= i < |init| && |init[i]| < 5 {
        var i :| 0 <= i < |init| && |init[i]| < 5;
        assert mappings[i] == init[i];
      }
      if exists i :: 0 <= i < |mappings| && |mappings[i]| < 5 {
        var i :| 0 <= i < |mappings| && |mappings[i]| < 5;
        if i < n {
          assert init[i] == mappings[i];
        }
      }
    }
  }

  /** Tables built from split lines only ever yield whitespace-free words. */
  lemma {:induction false} BuildWordValues(lines: seq<string>)
    requires Build(SplitAll(lines)).Ok?
    ensures WordValues(Build(SplitAll(lines)).value)
  {
    if lines != [] {
      var n := |lines| - 1;
      assert SplitAll(lines)[..n] == SplitAll(lines[..n]);
      BuildWordValues(lines[..n]);
      WordsAreWords(lines[n]);
      assert Words(lines[n])[4] in Words(lines[n]);
    }
  }

  /** A prefix that fails makes the whole loop fail with the same error. */
  lemma {:induction false} BuildErrPersists(mappings: seq<seq<string>>, k: nat)
    requires k <= |mappings|
    requires Build(mappings[..k]).Err?
    ensures Build(mappings) == Build(mappings[..k])
    decreases |mappings| - k
  {
    if k < |mappings| {
      assert mappings[..k + 1][..k] == mappings[..k];
      BuildErrPersists(mappings, k + 1);
    } else {
      assert mappings[..k] == mappings;
    }
  }

  /** load_tables on the lines of the training file. */
  method LoadTables(lines: seq<string>) returns (r: Result<Tables>)
    ensures r == Build(SplitAll(Head(lines)))
  {
    var mappings := SplitAll(Head(lines));
    var tables: Tables := map[];
    for i := 0 to |mappings|
      invariant Build(mappings[..i]) == Ok(tables)
    {
      var mapping := mappings[i];
      assert mappings[..i + 1][..i] == mappings[..i];
      if |mapping| < 5 {
        BuildErrPersists(mappings, i + 1);
        return Err(IndexError);
      }
      var name := mapping[1];
      var key := mapping[0];
      var value := mapping[4];
      var table := if name in tables then tables[name] else map[];
      tables := tables[name := table[key := value]];
    }
    assert mappings[..|mappings|] == mappings;
    r := Ok(tables);
  }

  /** The worked example of a training file whose first lines are
      "a t1 x x x" and "b t1 x x y": each key maps to its own field 4. */
  lemma LoadTablesExample()
    ensures Build([["a", "t1", "x", "x", "x"], ["b", "t1", "x", "x", "y"]])
      == Ok(map["t1" := map["a" := "x", "b" := "y"]])
  {
    var ms := [["a", "t1", "x", "x", "x"], ["b", "t1", "x", "x", "y"]];
    assert ms[..1] == [ms[0]];
    assert [ms[0]][..0] == [];
    var first := map["t1" := map["a" := "x"]];
    assert Build([ms[0]]) == Put(map[], ms[0]) == Ok(first);
    assert Build(ms) == Put(first, ms[1]);
    var both := map["a" := "x", "b" := "y"];
    assert first["t1"]["b" := "y"] == both;
    assert Put(first, ms[1]) == Ok(first["t1" := both]);
    assert first["t1" := both] == map["t1" := both];
  }
}
