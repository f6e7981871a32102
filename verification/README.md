# Adversarial heldout sets for lookup-table composition tasks: a Dafny model

`scripts/create_adversarial_dataset.py` perturbs a heldout corpus for a
sequence model that composes lookup tables. Each heldout line has three
tab-separated fields: the input sequence, the output sequence, and the
attention (alignment) indices. The script does four things:

- It swaps attention positions at random (`swap`).
- It writes the swapped indices back into every record (`add_attacks`).
- Unless the input position was part of the swap, it replays each record's
  output. It starts at the first output word and looks each next word up in
  the table that the new attention selects (`update_output`).
- It builds those tables from the first 64 lines of the training file
  (`load_tables`).

The model mirrors the script's in-place style:

- `swap` exchanges entries of a fresh `array` in a loop.
- The heldout list is an `array<Record>`. `AddAttacks` and `UpdateOutput`
  rewrite it record by record.
- `update_output`'s running `word` and growing `new_output` are loop variables.
- `load_tables` fills a map of maps in a loop.

Each method is proved against a specification function. The properties the
script relies on are lemmas about those functions:

- permutation;
- fixed endpoints;
- the lookup-chain recurrence;
- last-write-wins tables;
- the exact error conditions.

Python exceptions are modelled as `Err(IndexError | KeyError | ValueError)`.

Modules: `Builtins` models the Python built-ins used (`str.split()`,
`" ".join`, `int()`, negative indexing, slices). The other modules are
`Dataset`, `Swapping`, `Attacks`, `Replay`, `Training` and `Pipeline`.

Behaviour of the script worth knowing:

- **Exactly `level` transpositions.** The script performs exactly `level`
  transpositions, and they can cancel each other (`TransposeTwiceCancels`).
  The script has no edit-distance check, no record filter and no EOS
  stripping.
- **Tables.** The value stored for a key is always field 4 of its line, and a
  later line overwrites an earlier one. From `a t1 x x x` and `b t1 x x y`
  the script builds `t1 = {a: x, b: y}` (`LoadTablesExample`).
- **Alignment length.** It is kept, with one exception: a one-token attention
  with the input position excluded comes back doubled (`attention[:1] + [] +
  attention[-1:]`). This is reachable only when `level <= 0`, because with
  `level >= 1` `random.sample` raises first.
- **Output length.** A replayed output has `len(input) - 1` words, or one word
  when the input has fewer than two tokens. This holds whatever the old output
  length was.
- **Negative indices.** An attention index is applied with Python indexing, so
  a negative index counts from the end of the input.
- **Trailing newline.** Re-joining the attention with single spaces drops the
  trailing newline of the last field (`AttackRecordSpec`).

## Model

| member | source | states |
|---|---|---|
| `Builtins.WordsAreWords` | scripts/create_adversarial_dataset.py:82 | every token of `Words(s)`, the model of `s.split()`, is non-empty and free of whitespace |
| `Builtins.SplitJoin` | scripts/create_adversarial_dataset.py:93 | splitting `Join(ws)`, the model of `" ".join(ws)`, gives `ws` back when its tokens are whitespace-free |
| `Builtins.JoinWordsIdempotent` | scripts/create_adversarial_dataset.py:82-93 | re-joining a field's tokens and splitting again gives the same tokens; only the whitespace changes |
| `Builtins.JoinOnlySingleSpaces` | scripts/create_adversarial_dataset.py:93 | `" ".join` of whitespace-free words has `' '` as its only whitespace and neither starts nor ends with whitespace |
| `Builtins.ParseInt` | scripts/create_adversarial_dataset.py:120 | `int(token)` succeeds iff the token is decimal digits with an optional sign; otherwise it raises ValueError; the value is non-negative unless the sign is `-` |
| `Builtins.ParseDecimal` | scripts/create_adversarial_dataset.py:120 | `ParseInt(Decimal(n)) == Ok(n)`: `int(str(n)) == n` for every integer, so an attention index written in decimal is read back |
| `Builtins.PyIndex` | scripts/create_adversarial_dataset.py:120 | `s[i]` succeeds iff `-len(s) <= i < len(s)`, giving `s[(i + len(s)) % len(s)]`; otherwise it raises IndexError |
| `Swapping.Transpose` | scripts/create_adversarial_dataset.py:64 | one exchange puts `s[k]` at `j` and `s[j]` at `k`, leaves every other position alone, and keeps the length |
| `Swapping.ApplySwaps` | scripts/create_adversarial_dataset.py:62-64 | any sequence of rounds keeps the list's length |
| `Swapping.ApplySwapsPermutes` | scripts/create_adversarial_dataset.py:62-64 | the rounds' result is a permutation of the argument (same multiset) |
| `Swapping.ApplySwapsKeepsUntouched` | scripts/create_adversarial_dataset.py:62-64 | an entry at a position that no round draws keeps its place |
| `Swapping.TransposeTwiceCancels` | scripts/create_adversarial_dataset.py:62-64 | two rounds that draw the same pair restore the list, so `level` rounds need not displace `level` entries |
| `Swapping.Swap` | scripts/create_adversarial_dataset.py:48-65 | in place: ValueError, with the list unchanged, iff `level >= 1` and the list has fewer than two entries; otherwise the list becomes the rounds' result; always a permutation; unchanged when `level <= 0` |
| `Attacks.PerturbAlignment` | scripts/create_adversarial_dataset.py:82-90 | raises ValueError iff `level >= 1` and the attention has fewer than 4 tokens (3 when the input position is swapped too) |
| `Attacks.PerturbAlignmentKeepsTokens` | scripts/create_adversarial_dataset.py:85-90 | the new attention is a permutation of the old, with the same count (a lone token is doubled when the input position is excluded). First and last tokens stay fixed, and the interior is permuted, when the input position is excluded; only the last is fixed when it is included; no change when no round runs |
| `Attacks.SpliceIncluded` | scripts/create_adversarial_dataset.py:89-90 | `swapped + attention[-1:]` with `swapped` a permutation of `attention[:-1]` is a permutation of the attention with the last token fixed |
| `Attacks.SpliceExcluded` | scripts/create_adversarial_dataset.py:86-87 | `attention[:1] + swapped + attention[-1:]` with `swapped` a permutation of `attention[1:-1]` keeps count, multiset and both endpoints, except that a lone token is doubled |
| `Attacks.AttackRecordSpec` | scripts/create_adversarial_dataset.py:80-95 | about `AttackRecord`, one record after the loop body: a record fails with IndexError iff it has no field, and with ValueError iff the slice is too short for the rounds. Otherwise it keeps its field count and every field but the last. The new last field is the single-space join of the perturbed tokens, a permutation of the old ones; splitting it gives exactly those tokens; its only whitespace is `' '` and it does not end in whitespace, so the old trailing newline is gone |
| `Attacks.AttackLine` | scripts/create_adversarial_dataset.py:82-95 | the loop body (fresh slice, in-place swap, splice, join) computes `AttackRecord` |
| `Attacks.AddAttacks` | scripts/create_adversarial_dataset.py:68-96 | in place, order and count kept: every record becomes its attacked form. On an exception at record k, records before k are attacked and k onwards are unchanged |
| `Replay.TableName` | scripts/create_adversarial_dataset.py:120 | step j succeeds iff `j < len(attention)`, `int(attention[j])` parses and the index is in range for the input; the table name is then `input[int(attention[j])]` (negative indices counting from the end). A step past the attention or an index out of range raises IndexError; a non-integer attention token raises ValueError |
| `Replay.Lookup` | scripts/create_adversarial_dataset.py:120-121 | a step propagates the table-name error. Once the name resolves, the step raises KeyError iff the name is not a table or the running word is not in it, and otherwise gives `tables[name][word]` |
| `Replay.Steps` | scripts/create_adversarial_dataset.py:115-122 | after m lookups the new output has m + 1 words and starts with the seed word |
| `Replay.StepsIsChain` | scripts/create_adversarial_dataset.py:115-122 | replay succeeds with `out` iff `out` is a lookup chain: `out[0]` is the seed, and for each step j, `out[j] == tables[input[int(attention[j])]][out[j-1]]` with both lookups defined |
| `Replay.StepsErrPersists` | scripts/create_adversarial_dataset.py:119-122 | once a step raises, the whole replay raises that error |
| `Replay.StepsFirstError` | scripts/create_adversarial_dataset.py:119-122 | a replay raises iff one of its steps fails (the earlier lookups succeed and that one raises), and it raises that step's exception |
| `Replay.UpdateRecordFails` | scripts/create_adversarial_dataset.py:110-121 | about `UpdateRecord`, one record after the loop body: a record fails iff it has fewer than three fields, an empty output, or no lookup chain from its first output word |
| `Replay.UpdateRecordErrors` | scripts/create_adversarial_dataset.py:112-121 | which exception a record raises: IndexError with fewer than three fields or an empty output, and otherwise exactly the exception of its failing lookup step, which is KeyError for a missing table or word (`Lookup`) |
| `Replay.UpdateRecordOk` | scripts/create_adversarial_dataset.py:110-124 | on success only field 1 changes. It becomes the join of a chain of `len(input) - 1` words that starts at the old first output word; when every table value is a word, splitting it gives that chain |
| `Replay.ReplayLine` | scripts/create_adversarial_dataset.py:112-124 | the loop with the running `word` and `new_output` computes `UpdateRecord` |
| `Replay.UpdateOutput` | scripts/create_adversarial_dataset.py:99-125 | in place, order and count kept: every record gets its replayed output. On an exception at record k, records before k are updated and k onwards are unchanged |
| `Training.Head` | scripts/create_adversarial_dataset.py:22 | only the first 64 lines are kept, in order |
| `Training.SplitAll` | scripts/create_adversarial_dataset.py:22 | one mapping per kept line, in order: mapping i is `lines[i].split()`, so all its fields are whitespace-free words |
| `Training.BuildLastWriteWins` | scripts/create_adversarial_dataset.py:26-30 | about `Build`, which applies `Put` line by line: `tables[name][key]` is field 4 of the last mapping with that name (field 1) and key (field 0); it is absent when there is no such mapping |
| `Training.BuildTableNames` | scripts/create_adversarial_dataset.py:25-30 | a table exists iff some mapping names it in field 1 |
| `Training.BuildFails` | scripts/create_adversarial_dataset.py:26-30 | loading raises IndexError iff some mapping has fewer than five fields |
| `Training.BuildWordValues` | scripts/create_adversarial_dataset.py:22-30 | every value in the loaded tables is a whitespace-free word |
| `Training.BuildErrPersists` | scripts/create_adversarial_dataset.py:26-30 | a failing prefix makes the whole load fail with the same error |
| `Training.LoadTables` | scripts/create_adversarial_dataset.py:10-32 | the loop over the first 64 split lines computes `Build` |
| `Training.LoadTablesExample` | scripts/create_adversarial_dataset.py:26-30 | the lines `a t1 x x x` and `b t1 x x y` give `t1 = {a: x, b: y}` |
| `Pipeline.AttackThenReplay` | scripts/create_adversarial_dataset.py:143-152 | with the input position fixed: attacking and then replaying keeps the input field and the new attention. The output becomes the lookup chain along the new attention, from the old first output word |
| `Pipeline.CreateAttacks` | scripts/create_adversarial_dataset.py:141-152 | tables load first, and a bad training line stops the run before any record changes. The run succeeds iff the tables load, every record can be attacked and, when the input position is not swapped, every attacked record can be replayed. On a failing attack, the records before it are attacked and the rest unchanged. Once all attacks succeed, the attacked corpus is every record's attacked form. Outputs are replayed only when the input position was not swapped; on a failing replay, the records before it are replayed and the rest keep their attacked form |

## Left out

- File I/O is not modelled: `load_heldout`'s `readlines` and tab split (records come in already split), the file read in `load_tables` (it takes the file's lines), and the writing of the output files at lines 144-148 and 153-159.
- Output file-name derivation (lines 146, 155) is path plumbing and is not modelled.
- Argument parsing and logging setup (lines 128-139) and the debug `print` calls (lines 156-157) are not modelled.
- The `logging.warning` at line 60 only logs, so the model treats it as a no-op.
- The random source is not modelled. Each `random.sample(range(n), 2)` draw is a caller-supplied `Pick(j, k)` of two distinct in-range positions, one per round.
- Swap: the draws are constrained only when the slice has at least two positions. Otherwise the first round raises before any draw is used.
- `update_output` uses `defaultdict(dict)`, so looking up an unknown table name inserts an empty table into `tables`. This insertion is not modelled because the lookup of the word in that empty table always raises KeyError immediately, so the inserted entry is never read.
- `int()` on an attention token is modelled only for an optional sign followed by ASCII digits. Python also accepts digit-separating underscores and non-ASCII decimal digits.
- On an exception, the model returns the error with the heldout array in the state reached so far. The script ends at that point instead, and no later file is written.
