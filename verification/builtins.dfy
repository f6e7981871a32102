/** Models of the Python built-ins the script leans on: the exceptions it can
    raise, str.split() with no separator, " ".join, int() applied to a token,
    list indexing (negative indices count from the end) and the slices
    s[:1], s[-1:], s[:-1] and s[1:-1]. */
module Builtins {

  /** The Python exceptions that can end the script. */
  datatype Error = IndexError | KeyError | ValueError

  datatype Option<+T> = None | Some(value: T)

  /** A value, or the exception raised while computing it. */
  datatype Result<+T> = Ok(value: T) | Err(error: Error) {
    predicate IsFailure() { Err? }

    function PropagateFailure<U>(): Result<U>
      requires Err?
    {
      Err(error)
    }

    function Extract(): T
      requires Ok?
    {
      value
    }
  }

  // ---------------------------------------------------------------------------
  // str.split() and " ".join
  // ---------------------------------------------------------------------------

  /** The characters str.isspace() accepts, which are the separators of
      str.split() with no argument. */
  predicate IsSpace(c: char) {
    var n := c as int;
    (9 <= n <= 13) || (28 <= n <= 32) || n == 0x85 || n == 0xA0 || n == 0x1680
    || (0x2000 <= n <= 0x200A) || n == 0x2028 || n == 0x2029 || n == 0x202F
    || n == 0x205F || n == 0x3000
  }

  /** A token as str.split() produces it: non-empty, without whitespace. */
  predicate IsWord(w: string) {
    |w| > 0 && forall i :: 0 <= i < |w| ==> !IsSpace(w[i])
  }

  /** The length of the longest whitespace-free prefix of s. */
  function WordLength(s: string): (n: nat)
    ensures n <= |s|
    ensures forall i :: 0 <= i < n ==> !IsSpace(s[i])
    ensures n < |s| ==> IsSpace(s[n])
  {
    if s == [] || IsSpace(s[0]) then 0 else 1 + WordLength(s[1..])
  }

  /** s.split(): the maximal runs of non-whitespace characters, in order. */
  function Words(s: string): seq<string>
    decreases |s|
  {
    if s == [] then []
    else if IsSpace(s[0]) then Words(s[1..])
    else
      var n := WordLength(s);
      [s[..n]] + Words(s[n..])
  }

  /** " ".join(ws). */
  function Join(ws: seq<string>): string {
    if ws == [] then ""
    else if |ws| == 1 then ws[0]
    else ws[0] + " " + Join(ws[1..])
  }

  /** Every token of s.split() is a word. */
  lemma {:induction false} WordsAreWords(s: string)
    ensures forall w :: w in Words(s) ==> IsWord(w)
    decreases |s|
  {
    if s == [] {
    } else if IsSpace(s[0]) {
      WordsAreWords(s[1..]);
    } else {
      WordsAreWords(s[WordLength(s)..]);
    }
  }

  lemma {:induction false} WordLengthOfWord(w: string, rest: string)
    requires forall i :: 0 <= i < |w| ==> !IsSpace(w[i])
    requires rest == [] || IsSpace(rest[0])
    ensures WordLength(w + rest) == |w|
  {
    if w == [] {
      assert w + rest == rest;
    } else {
      assert (w + rest)[1..] == w[1..] + rest;
      WordLengthOfWord(w[1..], rest);
    }
  }

  /** Splitting a word followed by whitespace (or nothing) yields that word first. */
  lemma WordsOfWordThen(w: string, rest: string)
    requires IsWord(w)
    requires rest == [] || IsSpace(rest[0])
    ensures Words(w + rest) == [w] + Words(rest)
  {
    var s := w + rest;
    WordLengthOfWord(w, rest);
    assert s[..|w|] == w;
    assert s[|w|..] == rest;
  }

  /** Round trip: splitting a single-space join of words gives the words back. */
  lemma {:induction false} SplitJoin(ws: seq<string>)
    requires forall w :: w in ws ==> IsWord(w)
    ensures Words(Join(ws)) == ws
  {
    if ws == [] {
    } else if |ws| == 1 {
      WordsOfWordThen(ws[0], "");
      assert ws[0] + "" == ws[0];
      assert ws == [ws[0]];
    } else {
      var rest := " " + Join(ws[1..]);
      assert Join(ws) == ws[0] + rest;
      WordsOfWordThen(ws[0], rest);
      assert rest[1..] == Join(ws[1..]);
      assert Words(rest) == Words(Join(ws[1..]));
      SplitJoin(ws[1..]);
      assert ws == [ws[0]] + ws[1..];
    }
  }

  /** The only whitespace in s is ' ', and s neither starts nor ends with
      whitespace. */
  predicate SingleSpaced(s: string) {
    && (forall i :: 0 <= i < |s| && IsSpace(s[i]) ==> s[i] == ' ')
    && (|s| > 0 ==> !IsSpace(s[0]) && !IsSpace(s[|s| - 1]))
  }

  /** A single-space join of words neither starts nor ends with whitespace,
      and the only whitespace inside it is the ' ' separator. */
  lemma {:induction false} JoinOnlySingleSpaces(ws: seq<string>)
    requires forall w :: w in ws ==> IsWord(w)
    ensures SingleSpaced(Join(ws))
  {
    if |ws| == 1 {
      assert ws[0] in ws;
    } else if |ws| > 1 {
      assert ws[0] in ws;
      var rest := Join(ws[1..]);
      JoinOnlySingleSpaces(ws[1..]);
      assert Join(ws) == ws[0] + " " + rest;
      assert ws[1] in ws[1..];
      forall i | 0 <= i < |Join(ws)| && IsSpace(Join(ws)[i])
        ensures Join(ws)[i] == ' '
      {
        if i > |ws[0]| {
          assert Join(ws)[i] == rest[i - |ws[0]| - 1];
        }
      }
    }
  }

  /** Re-joining the tokens of a field with single spaces and splitting again
      gives the same tokens: only the whitespace between them is normalised. */
  lemma JoinWordsIdempotent(s: string)
    ensures Words(Join(Words(s))) == Words(s)
  {
    WordsAreWords(s);
    SplitJoin(Words(s));
  }

  // ---------------------------------------------------------------------------
  // int() on a token, and str() of an int
  // ---------------------------------------------------------------------------

  predicate IsDigit(c: char) { '0' <= c <= '9' }

  predicate IsDigits(s: string) {
    |s| > 0 && forall i :: 0 <= i < |s| ==> IsDigit(s[i])
  }

  function DigitValue(c: char): nat
    requires IsDigit(c)
  {
    c as int - '0' as int
  }

  /** The value of a string of decimal digits, most significant first. */
  function DigitsValue(s: string): nat
    requires forall i :: 0 <= i < |s| ==> IsDigit(s[i])
  {
    if s == [] then 0 else 10 * DigitsValue(s[..|s| - 1]) + DigitValue(s[|s| - 1])
  }

  /** int(s) for a whitespace-free token s: an optional sign, then decimal
      digits; anything else raises ValueError. */
  function ParseInt(s: string): (r: Result<int>)
    ensures r.Err? ==> r.error == ValueError
    ensures r.Ok? <==> IsDigits(s) || (|s| > 1 && (s[0] == '+' || s[0] == '-') && IsDigits(s[1..]))
    ensures r.Ok? && s[0] != '-' ==> r.value >= 0
  {
    if |s| > 0 && (s[0] == '+' || s[0] == '-') then
      if IsDigits(s[1..]) then
        var v: int := DigitsValue(s[1..]);
        Ok(if s[0] == '-' then -v else v)
      else Err(ValueError)
    else if IsDigits(s) then Ok(DigitsValue(s))
    else Err(ValueError)
  }

  function Digit(d: nat): (c: char)
    requires d < 10
    ensures IsDigit(c) && DigitValue(c) == d
  {
    ('0' as int + d) as char
  }

  /** str(n) for n >= 0. */
  function NatDecimal(n: nat): (s: string)
    ensures IsDigits(s)
  {
    if n < 10 then [Digit(n)] else NatDecimal(n / 10) + [Digit(n % 10)]
  }

  /** str(n). */
  function Decimal(n: int): string {
    if n < 0 then "-" + NatDecimal(-n) else NatDecimal(n)
  }

  lemma {:induction false} NatDecimalValue(n: nat)
    ensures DigitsValue(NatDecimal(n)) == n
  {
    if n >= 10 {
      var s := NatDecimal(n);
      assert s[..|s| - 1] == NatDecimal(n / 10);
      NatDecimalValue(n / 10);
    }
  }

  /** Round trip: int(str(n)) == n, so an index written in decimal is read back. */
  lemma ParseDecimal(n: int)
    ensures ParseInt(Decimal(n)) == Ok(n)
  {
    if n < 0 {
      NatDecimalValue(-n);
      assert Decimal(n)[1..] == NatDecimal(-n);
    } else {
      NatDecimalValue(n);
    }
  }

  // ---------------------------------------------------------------------------
  // Indexing and slicing
  // ---------------------------------------------------------------------------

  /** s[i]: a negative i counts from the end; IndexError outside -|s| <= i < |s|. */
  function PyIndex<T>(s: seq<T>, i: int): (r: Result<T>)
    ensures r.Ok? <==> -|s| <= i < |s|
    ensures r.Err? ==> r.error == IndexError
    ensures r.Ok? ==> r.value == s[(i + |s|) % |s|]
  {
    if 0 <= i < |s| then Ok(s[i])
    else if -|s| <= i < 0 then Ok(s[|s| + i])
    else Err(IndexError)
  }

  /** s[:1] */
  function TakeFirst<T>(s: seq<T>): seq<T> {
    if |s| == 0 then [] else s[..1]
  }

  /** s[-1:] */
  function TakeLast<T>(s: seq<T>): seq<T> {
    if |s| == 0 then [] else s[|s| - 1..]
  }

  /** s[:-1] */
  function DropLast<T>(s: seq<T>): seq<T> {
    if |s| == 0 then [] else s[..|s| - 1]
  }

  /** s[1:-1] */
  function Interior<T>(s: seq<T>): seq<T> {
    if |s| <= 2 then [] else s[1..|s| - 1]
  }
}
