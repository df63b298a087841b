/**
  The string functions the parsers are built from: trimming and splitting at white space,
  searching for bytes and short patterns, and decimal numbers with Go's rules for signs,
  overflow and bad digits. Each comes with the law its callers rely on, mostly that it undoes
  the printing of what it reads. A string is a sequence of bytes held in chars; white space is
  the six ASCII space characters.
*/
module Text {

  predicate IsSpace(c: char) {
    c == ' ' || c == '\t' || c == '\n' || c == '\r' || c == '\U{000B}' || c == '\U{000C}'
  }

  predicate AllSpace(s: string) { forall i :: 0 <= i < |s| ==> IsSpace(s[i]) }

  /** A token: what white space separates. */
  predicate IsWord(s: string) { s != "" && forall i :: 0 <= i < |s| ==> !IsSpace(s[i]) }

  predicate AllWords(ws: seq<string>) { forall i :: 0 <= i < |ws| ==> IsWord(ws[i]) }

  predicate Free(c: char, s: string) { forall i :: 0 <= i < |s| ==> s[i] != c }

  // ---------------------------------------------------------------- TrimSpace and Fields

  function TrimLeft(s: string): string {
    if s != "" && IsSpace(s[0]) then TrimLeft(s[1..]) else s
  }

  function TrimRight(s: string): string {
    if s != "" && IsSpace(s[|s| - 1]) then TrimRight(s[..|s| - 1]) else s
  }

  function TrimSpace(s: string): string { TrimRight(TrimLeft(s)) }

  /** How many leading characters are, or are not, white space. */
  function SpaceRun(s: string): (n: nat)
    ensures n <= |s| && (n < |s| ==> !IsSpace(s[n]))
  {
    if s == "" || !IsSpace(s[0]) then 0 else 1 + SpaceRun(s[1..])
  }

  function WordRun(s: string): (n: nat)
    ensures n <= |s| && (s != "" && !IsSpace(s[0]) ==> n > 0)
  {
    if s == "" || IsSpace(s[0]) then 0 else 1 + WordRun(s[1..])
  }

  function Fields(s: string): seq<string>
    decreases |s|
  {
    var i := SpaceRun(s);
    if i == |s| then []
    else
      var n := WordRun(s[i..]);
      [s[i..][..n]] + Fields(s[i..][n..])
  }

  lemma {:induction false} WordRunIsWord(s: string)
    ensures forall i :: 0 <= i < WordRun(s) ==> !IsSpace(s[i])
  {
    if s != "" && !IsSpace(s[0]) {
      WordRunIsWord(s[1..]);
      assert forall i :: 1 <= i < |s| ==> s[i] == s[1..][i - 1];
    }
  }

  /** Fields only ever yields words: never an empty one, never one with a space inside. */
  lemma {:induction false} FieldsAreWords(s: string)
    ensures AllWords(Fields(s))
    decreases |s|
  {
    var i := SpaceRun(s);
    if i < |s| {
      WordRunIsWord(s[i..]);
      FieldsAreWords(s[i..][WordRun(s[i..])..]);
    }
  }

  lemma {:induction false} SpaceRunIs(gap: string, rest: string)
    requires AllSpace(gap) && (rest == "" || !IsSpace(rest[0]))
    ensures SpaceRun(gap + rest) == |gap|
  {
    if gap == "" {
      assert gap + rest == rest;
    } else {
      assert (gap + rest)[1..] == gap[1..] + rest;
      SpaceRunIs(gap[1..], rest);
    }
  }

  lemma {:induction false} WordRunIs(w: string, rest: string)
    requires (forall i :: 0 <= i < |w| ==> !IsSpace(w[i])) && (rest == "" || IsSpace(rest[0]))
    ensures WordRun(w + rest) == |w|
  {
    if w == "" {
      assert w + rest == rest;
    } else {
      assert (w + rest)[1..] == w[1..] + rest;
      WordRunIs(w[1..], rest);
    }
  }

  /** White space, a word, and then more white space or the end. */
  lemma FieldsStep(gap: string, w: string, rest: string)
    requires AllSpace(gap) && IsWord(w) && (rest == "" || IsSpace(rest[0]))
    ensures Fields(gap + w + rest) == [w] + Fields(rest)
  {
    var s := gap + w + rest;
    assert s == gap + (w + rest);
    SpaceRunIs(gap, w + rest);
    WordRunIs(w, rest);
    assert s[|gap|..] == w + rest;
    assert (w + rest)[..|w|] == w && (w + rest)[|w|..] == rest;
  }

  lemma FieldsOfSpace(s: string)
    requires AllSpace(s)
    ensures Fields(s) == []
  {
    assert s + "" == s;
    SpaceRunIs(s, "");
  }

  /** Each word preceded by its gap. */
  function Spread(gaps: seq<string>, ws: seq<string>): string
    requires |gaps| == |ws|
  {
    if ws == [] then "" else gaps[0] + ws[0] + Spread(gaps[1..], ws[1..])
  }

  ghost predicate Separated(gaps: seq<string>) {
    forall i :: 0 <= i < |gaps| ==> AllSpace(gaps[i]) && (i > 0 ==> gaps[i] != "")
  }

  lemma Reassociate(a: string, b: string, c: string, d: string)
    ensures a + b + c + d == a + b + (c + d)
  {}

  lemma SeparatedTail(gaps: seq<string>)
    requires Separated(gaps) && gaps != []
    ensures Separated(gaps[1..])
    ensures |gaps| > 1 ==> gaps[1..][0] != ""
  {
    assert forall i :: 0 <= i < |gaps[1..]| ==> gaps[1..][i] == gaps[i + 1];
  }

  lemma SpreadStarts(gaps: seq<string>, ws: seq<string>, tail: string)
    requires |gaps| == |ws| && Separated(gaps) && AllSpace(tail) && (ws == [] || gaps[0] != "")
    ensures Spread(gaps, ws) + tail == "" || IsSpace((Spread(gaps, ws) + tail)[0])
  {
    if ws != [] { assert Spread(gaps, ws)[0] == gaps[0][0]; } else { assert Spread(gaps, ws) + tail == tail; }
  }

  /** Splitting undoes spreading, whatever white space was put between the words. */
  lemma {:induction false} FieldsOfSpread(gaps: seq<string>, ws: seq<string>, tail: string)
    requires |gaps| == |ws| && Separated(gaps) && AllWords(ws) && AllSpace(tail)
    ensures Fields(Spread(gaps, ws) + tail) == ws
  {
    if ws == [] {
      assert Spread(gaps, ws) + tail == tail;
      FieldsOfSpace(tail);
    } else {
      var gaps', ws' := gaps[1..], ws[1..];
      var rest := Spread(gaps', ws') + tail;
      SeparatedTail(gaps);
      SpreadStarts(gaps', ws', tail);
      FieldsOfSpread(gaps', ws', tail);
      assert IsWord(ws[0]) && AllSpace(gaps[0]);
      FieldsStep(gaps[0], ws[0], rest);
      Reassociate(gaps[0], ws[0], Spread(gaps', ws'), tail);
    }
  }

  // ---------------------------------------------------------------- Searching

  /** The first, or last, position of c; -1 if there is none. */
  function IndexByte(s: string, c: char): (i: int)
    ensures -1 <= i < |s|
    ensures i == -1 <==> Free(c, s)
    ensures i >= 0 ==> s[i] == c && forall k :: 0 <= k < i ==> s[k] != c
  {
    if s == "" then -1
    else if s[0] == c then 0
    else
      var i := IndexByte(s[1..], c);
      assert s == [s[0]] + s[1..];
      if i < 0 then -1 else i + 1
  }

  function LastIndexByte(s: string, c: char): (i: int)
    ensures -1 <= i < |s|
    ensures i == -1 <==> Free(c, s)
    ensures i >= 0 ==> s[i] == c && forall k :: i < k < |s| ==> s[k] != c
  {
    if s == "" then -1
    else if s[|s| - 1] == c then |s| - 1
    else LastIndexByte(s[..|s| - 1], c)
  }

  predicate Contains(s: string, sub: string) {
    sub <= s || (s != "" && Contains(s[1..], sub))
  }

  function TrimSuffix(s: string, suffix: string): string {
    if |suffix| <= |s| && s[|s| - |suffix|..] == suffix then s[..|s| - |suffix|] else s
  }

  /** Every occurrence of a two-character pattern is dropped, left to right. */
  function DropPair(s: string, x: char, y: char): string {
    if |s| < 2 then s
    else if s[0] == x && s[1] == y then DropPair(s[2..], x, y)
    else [s[0]] + DropPair(s[1..], x, y)
  }

  // ---------------------------------------------------------------- Decimal numbers

  function Digit(d: nat): char
    requires d < 10
  {
    ['0', '1', '2', '3', '4', '5', '6', '7', '8', '9'][d]
  }

  predicate IsDigit(c: char) { '0' <= c <= '9' }
  function DigitValue(c: char): nat requires IsDigit(c) { c as int - '0' as int }

  function Dec(n: nat): (s: string)
    ensures s != "" && forall i :: 0 <= i < |s| ==> IsDigit(s[i])
  {
    if n < 10 then [Digit(n)] else Dec(n / 10) + [Digit(n % 10)]
  }

  function DecInt(n: int): string { if n < 0 then "-" + Dec(-n) else Dec(n) }

  predicate AllDigits(s: string) { s != "" && forall i :: 0 <= i < |s| ==> IsDigit(s[i]) }

  function DigitsValue(s: string): nat
    requires forall i :: 0 <= i < |s| ==> IsDigit(s[i])
  {
    if s == "" then 0 else 10 * DigitsValue(s[..|s| - 1]) + DigitValue(s[|s| - 1])
  }

  lemma {:induction false} DecRoundTrip(n: nat)
    ensures DigitsValue(Dec(n)) == n
  {
    if n >= 10 {
      DecRoundTrip(n / 10);
      DigitsAppend(Dec(n / 10), Digit(n % 10));
      DigitRoundTrip(n % 10);
    } else {
      DigitsAppend("", Digit(n));
      DigitRoundTrip(n);
    }
  }

  lemma DigitRoundTrip(d: nat)
    requires d < 10
    ensures IsDigit(Digit(d)) && DigitValue(Digit(d)) == d
  {}

  lemma DigitsAppend(s: string, c: char)
    requires IsDigit(c) && forall i :: 0 <= i < |s| ==> IsDigit(s[i])
    ensures DigitsValue(s + [c]) == 10 * DigitsValue(s) + DigitValue(c)
  {
    assert (s + [c])[..|s|] == s;
  }

  lemma DecIsWord(n: int)
    ensures IsWord(DecInt(n)) && Free(')', DecInt(n)) && Free('(', DecInt(n))
  {}

  const MAX_INT := 0x7FFF_FFFF_FFFF_FFFF
  const MAX_UINT := 0xFFFF_FFFF_FFFF_FFFF

  datatype Number = Number(value: int, ok: bool)

  /**
    The digits read from left to right: the first bad byte ends the scan with zero, the first
    overflow with the largest counter, whichever comes first.
  */
  function Scan(s: string): (r: Number)
    ensures 0 <= r.value <= MAX_UINT
  {
    if s == "" then Number(0, true)
    else
      var n := |s| - 1;
      var before := Scan(s[..n]);
      if !before.ok then before
      else if !IsDigit(s[n]) then Number(0, false)
      else if 10 * before.value + DigitValue(s[n]) > MAX_UINT then Number(MAX_UINT, false)
      else Number(10 * before.value + DigitValue(s[n]), true)
  }

  /** strconv.ParseUint with base 10 and 64 bits. */
  function ParseUint(s: string): Number {
    if s == "" then Number(0, false) else Scan(s)
  }

  /** What follows the sign. */
  function Unsigned(s: string): string { if s != "" && (s[0] == '-' || s[0] == '+') then s[1..] else s }

  /** strconv.Atoi: a syntax error yields 0, an overflow the nearest 64-bit value. */
  function Atoi(s: string): Number {
    var negative := s != "" && s[0] == '-';
    var u := ParseUint(Unsigned(s));
    if !u.ok && u.value == 0 then Number(0, false)
    else if negative then if u.value > MAX_INT + 1 then Number(-MAX_INT - 1, false) else Number(-u.value, true)
    else if u.value > MAX_INT then Number(MAX_INT, false) else Number(u.value, true)
  }

  predicate StartsWithDigits(s: string, n: nat) { n <= |s| && forall i :: 0 <= i < n ==> IsDigit(s[i]) }

  lemma {:induction false} DigitsValueGrows(s: string, n: nat)
    requires StartsWithDigits(s, |s|) && n <= |s|
    ensures DigitsValue(s[..n]) <= DigitsValue(s)
  {
    if n < |s| {
      DigitsValueGrows(s[..|s| - 1], n);
      assert s[..|s| - 1][..n] == s[..n];
    } else {
      assert s[..n] == s;
    }
  }

  /** The digits in front, as far as they go, are already too many. */
  ghost predicate Overflows(s: string) { exists n :: OverflowsAt(s, n) }

  ghost predicate OverflowsAt(s: string, n: nat) { StartsWithDigits(s, n) && DigitsValue(s[..n]) > MAX_UINT }

  lemma WholeOverflows(s: string)
    ensures OverflowsAt(s, |s|) <==> StartsWithDigits(s, |s|) && DigitsValue(s) > MAX_UINT
  {
    assert s[..|s|] == s;
  }

  /** A scan succeeds exactly on digits that fit, and fails with the largest counter exactly on an overflow. */
  lemma {:induction false} ScanMeaning(s: string)
    ensures Scan(s).ok <==> StartsWithDigits(s, |s|) && DigitsValue(s) <= MAX_UINT
    ensures Scan(s).ok ==> Scan(s).value == DigitsValue(s)
    ensures !Scan(s).ok ==> Scan(s).value == if Overflows(s) then MAX_UINT else 0
  {
    if s != "" {
      var n := |s| - 1;
      var front := s[..n];
      ScanMeaning(front);
      OverflowStep(front, s[n]);
      WholeOverflows(front);
      WholeOverflows(s);
      assert s == front + [s[n]];
      assert StartsWithDigits(s, |s|) <==> StartsWithDigits(front, n) && IsDigit(s[n]);
    }
  }

  lemma OverflowStep(front: string, c: char)
    ensures var s := front + [c];
      Overflows(s) <==> (Overflows(front) || OverflowsAt(s, |s|))
    ensures StartsWithDigits(front, |front|) && DigitsValue(front) <= MAX_UINT ==> !Overflows(front)
    ensures Overflows(front) && StartsWithDigits(front, |front|) ==> DigitsValue(front) > MAX_UINT
  {
    var s := front + [c];
    if n: nat :| OverflowsAt(s, n) && n <= |front| {
      assert s[..n] == front[..n];
      assert forall i :: 0 <= i < n ==> s[i] == front[i];
      assert OverflowsAt(front, n);
    }
    if n: nat :| OverflowsAt(front, n) {
      assert s[..n] == front[..n];
      assert forall i :: 0 <= i < n ==> s[i] == front[i];
      assert OverflowsAt(s, n);
      if StartsWithDigits(front, |front|) { DigitsValueGrows(front, n); }
    }
  }

  /** Signed numbers: an optional sign and digits that fit; otherwise the nearest bound, or zero if no number at all. */
  lemma AtoiMeaning(s: string)
    ensures var digits, negative := Unsigned(s), s != "" && s[0] == '-';
      var limit := if negative then MAX_INT + 1 else MAX_INT;
      && (Atoi(s).ok <==> AllDigits(digits) && DigitsValue(digits) <= limit)
      && (Atoi(s).ok ==> Atoi(s).value == if negative then 0 - DigitsValue(digits) else DigitsValue(digits))
      && (AllDigits(digits) && DigitsValue(digits) > limit ==> Atoi(s).value == if negative then 0 - limit else limit)
      && (!AllDigits(digits) && Overflows(digits) ==> Atoi(s).value == if negative then 0 - limit else limit)
      && (!AllDigits(digits) && !Overflows(digits) ==> Atoi(s).value == 0)
  {
    var digits := Unsigned(s);
    ScanMeaning(digits);
    WholeOverflows(digits);
    if digits == "" { NothingOverflows(); }
  }

  lemma NothingOverflows()
    ensures !Overflows("")
  {
    forall n: nat ensures !OverflowsAt("", n) { if StartsWithDigits("", n) { assert ""[..n] == ""; } }
  }

  lemma AtoiNatural(n: nat)
    requires n <= MAX_INT
    ensures Atoi(Dec(n)) == Number(n, true)
  {
    var s := Dec(n);
    DecRoundTrip(n);
    ScanMeaning(s);
    assert IsDigit(s[0]);
  }

  lemma AtoiNegated(s: string)
    requires AllDigits(s) && DigitsValue(s) <= MAX_INT + 1
    ensures Atoi("-" + s) == Number(0 - DigitsValue(s), true)
  {
    assert ("-" + s)[1..] == s;
    ScanMeaning(s);
  }

  /** Parsing undoes printing, over the whole range of the type. */
  lemma AtoiRoundTrip(n: int)
    requires -MAX_INT - 1 <= n <= MAX_INT
    ensures Atoi(DecInt(n)) == Number(n, true)
  {
    if n < 0 {
      DecRoundTrip(-n);
      AtoiNegated(Dec(-n));
    } else {
      AtoiNatural(n);
    }
  }

  lemma ParseUintRoundTrip(n: nat)
    requires n <= MAX_UINT
    ensures ParseUint(Dec(n)) == Number(n, true)
  {
    DecRoundTrip(n);
    ScanMeaning(Dec(n));
  }

  // ---------------------------------------------------------------- Trimming a framed text

  lemma {:induction false} TrimRightDrops(s: string, tail: string)
    requires AllSpace(tail) && (s == "" || !IsSpace(s[|s| - 1]))
    ensures TrimRight(s + tail) == s
  {
    if tail == "" {
      assert s + tail == s;
    } else {
      var n := |tail| - 1;
      assert (s + tail)[..|s + tail| - 1] == s + tail[..n];
      TrimRightDrops(s, tail[..n]);
    }
  }

  lemma {:induction false} TrimLeftDrops(gap: string, s: string)
    requires AllSpace(gap) && (s == "" || !IsSpace(s[0]))
    ensures TrimLeft(gap + s) == s
  {
    if gap == "" {
      assert gap + s == s;
    } else {
      assert (gap + s)[1..] == gap[1..] + s;
      TrimLeftDrops(gap[1..], s);
    }
  }

  /** What has visible characters at both ends survives, the white space around it does not. */
  lemma TrimSpaceDrops(gap: string, s: string, tail: string)
    requires AllSpace(gap) && AllSpace(tail) && s != "" && !IsSpace(s[0]) && !IsSpace(s[|s| - 1])
    ensures TrimSpace(gap + s + tail) == s
  {
    assert gap + s + tail == gap + (s + tail) && (s + tail)[0] == s[0];
    TrimLeftDrops(gap, s + tail);
    TrimRightDrops(s, tail);
  }

  /** Trimming leaves nothing exactly of blank lines. */
  lemma {:induction false} BlankIffTrimmedAway(s: string)
    ensures TrimSpace(s) == "" <==> AllSpace(s)
    decreases |s|
  {
    if s != "" && IsSpace(s[0]) {
      BlankIffTrimmedAway(s[1..]);
      assert forall i :: 0 <= i < |s[1..]| ==> s[1..][i] == s[i + 1];
    } else if s != "" {
      TrimRightKeeps(s);
    }
  }

  lemma {:induction false} TrimRightKeeps(s: string)
    requires s != "" && !IsSpace(s[0])
    ensures TrimRight(s) != ""
  {
    if IsSpace(s[|s| - 1]) { TrimRightKeeps(s[..|s| - 1]); }
  }
}
