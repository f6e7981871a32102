/** swap (scripts/create_adversarial_dataset.py, lines 48-65): `level`
    transpositions of two distinct random positions, made in place. The random
    draws are an input: one Pick per round. */
module Swapping {
  import opened Builtins

  /** The positions drawn by one random.sample(range(0, n), 2). */
  datatype Pick = Pick(j: nat, k: nat)

  /** random.sample draws two distinct positions of range(0, n). */
  predicate ValidPick(p: Pick, n: nat) {
    p.j < n && p.k < n && p.j != p.k
  }

  predicate ValidPicks(picks: seq<Pick>, n: nat) {
    forall i :: 0 <= i < |picks| ==> ValidPick(picks[i], n)
  }

  /** How many times the body of `for i in range(level)` runs. */
  function Rounds(level: int): nat {
    if level > 0 then level else 0
  }

  /** `s[j], s[k] = s[k], s[j]` on a value. */
  function Transpose<T>(s: seq<T>, p: Pick): (r: seq<T>)
    requires ValidPick(p, |s|)
    ensures |r| == |s|
    ensures r[p.j] == s[p.k] && r[p.k] == s[p.j]
    ensures forall i :: 0 <= i < |s| && i != p.j && i != p.k ==> r[i] == s[i]
  {
    s[p.j := s[p.k]][p.k := s[p.j]]
  }

  /** The list after the given rounds, in order. */
  function ApplySwaps<T>(s: seq<T>, picks: seq<Pick>): (r: seq<T>)
    requires ValidPicks(picks, |s|)
    ensures |r| == |s|
    decreases |picks|
  {
    if picks == [] then s
    else Transpose(ApplySwaps(s, picks[..|picks| - 1]), picks[|picks| - 1])
  }

  /** A position no round draws. */
  predicate Untouched(picks: seq<Pick>, i: nat) {
    forall m :: 0 <= m < |picks| ==> picks[m].j != i && picks[m].k != i
  }

  /** One exchange keeps the multiset of entries. */
  lemma TransposePermutes<T>(s: seq<T>, p: Pick)
    requires ValidPick(p, |s|)
    ensures multiset(Transpose(s, p)) == multiset(s)
  {
  }

  /** The result of the rounds is a permutation of the argument. */
  lemma {:induction false} ApplySwapsPermutes<T>(s: seq<T>, picks: seq<Pick>)
    requires ValidPicks(picks, |s|)
    ensures multiset(ApplySwaps(s, picks)) == multiset(s)
    decreases |picks|
  {
    if picks != [] {
      var init := picks[..|picks| - 1];
      ApplySwapsPermutes(s, init);
      TransposePermutes(ApplySwaps(s, init), picks[|picks| - 1]);
    }
  }

  /** An entry at a position that no round draws stays where it is. */
  lemma {:induction false} ApplySwapsKeepsUntouched<T>(s: seq<T>, picks: seq<Pick>, i: nat)
    requires ValidPicks(picks, |s|)
    requires i < |s| && Untouched(picks, i)
    ensures ApplySwaps(s, picks)[i] == s[i]
    decreases |picks|
  {
    if picks != [] {
      ApplySwapsKeepsUntouched(s, picks[..|picks| - 1], i);
    }
  }

  /** Two rounds that draw the same pair cancel: `level` rounds do not
      guarantee `level` displaced entries. */
  lemma TransposeTwiceCancels<T>(s: seq<T>, p: Pick)
    requires ValidPick(p, |s|)
    ensures ApplySwaps(s, [p, p]) == s
  {
    assert [p, p][..1] == [p];
    assert [p][..0] == [];
    var t := Transpose(s, p);
    assert ApplySwaps(s, [p]) == t;
    var r := Transpose(t, p);
    assert forall i :: 0 <= i < |s| ==> r[i] == s[i];
    assert r == s;
  }

  /** swap(attention, level) on the list `a`. random.sample raises ValueError
      when fewer than two positions exist, before any exchange; the warning
      for level >= len(attention) is logging only and changes nothing. */
  method Swap<T>(a: array<T>, level: int, picks: seq<Pick>) returns (r: Result<()>)
    requires |picks| == Rounds(level)
    requires a.Length >= 2 ==> ValidPicks(picks, a.Length)
    modifies a
    ensures r.Err? <==> level > 0 && a.Length < 2
    ensures r.Err? ==> r.error == ValueError && a[..] == old(a[..])
    ensures r.Ok? ==> a[..] == ApplySwaps(old(a[..]), picks)
    ensures multiset(a[..]) == multiset(old(a[..]))
    ensures level <= 0 ==> a[..] == old(a[..])
  {
    ghost var s := a[..];
    var i := 0;
    while i < level
      invariant 0 <= i <= |picks|
      invariant i > 0 ==> a.Length >= 2
      invariant a[..] == ApplySwaps(s, picks[..i])
    {
      if a.Length < 2 {
        return Err(ValueError);
      }
      var p := picks[i];
      a[p.j], a[p.k] := a[p.k], a[p.j];
      assert picks[..i + 1][..i] == picks[..i];
      i := i + 1;
    }
    assert picks[..i] == picks;
    ApplySwapsPermutes(s, picks);
    r := Ok(());
  }
}
