/** Cpus_allowed: a CPU set printed as hexadecimal digits in comma-separated groups of 32 bits. */
module CpuMask {

  /** The table indexed by a character of the mask; everything it does not list is zero. */
  function NibbleBits(c: char): nat {
    match c
    case '1' => 1 case '2' => 1 case '4' => 1 case '8' => 1
    case '3' => 2 case '5' => 2 case '6' => 2 case '9' => 2
    case 'a' => 2 case 'c' => 2 case 'A' => 2 case 'C' => 2
    case '7' => 3 case 'b' => 3 case 'd' => 3 case 'e' => 3
    case 'B' => 3 case 'D' => 3 case 'E' => 3
    case 'f' => 4 case 'F' => 4
    case _ => 0
  }

  function MaskBits(mask: string): nat {
    if mask == "" then 0 else MaskBits(mask[..|mask| - 1]) + NibbleBits(mask[|mask| - 1])
  }

  method CountBitsInHexMask(mask: string) returns (count: nat)
    ensures count == MaskBits(mask)
  {
    count := 0;
    for i := 0 to |mask|
      invariant count == MaskBits(mask[..i])
    {
      assert mask[..i + 1][..i] == mask[..i];
      count := count + NibbleBits(mask[i]);
    }
    assert mask[..|mask|] == mask;
  }

  lemma {:induction false} MaskBitsConcat(a: string, b: string)
    ensures MaskBits(a + b) == MaskBits(a) + MaskBits(b)
  {
    if b == "" {
      assert a + b == a;
    } else {
      assert (a + b)[..|a + b| - 1] == a + b[..|b| - 1];
      MaskBitsConcat(a, b[..|b| - 1]);
    }
  }

  // ---------------------------------------------------------------- The number a mask denotes

  predicate IsHex(c: char) { '0' <= c <= '9' || 'a' <= c <= 'f' || 'A' <= c <= 'F' }

  function HexValue(c: char): nat
    requires IsHex(c)
  {
    if c <= '9' then c as int - '0' as int
    else if c <= 'F' then c as int - 'A' as int + 10
    else c as int - 'a' as int + 10
  }

  predicate IsMask(s: string) { forall i :: 0 <= i < |s| ==> IsHex(s[i]) || s[i] == ',' }

  function Denoted(mask: string): nat
    requires IsMask(mask)
  {
    if mask == "" then 0
    else
      var front, c := Denoted(mask[..|mask| - 1]), mask[|mask| - 1];
      if c == ',' then front else 16 * front + HexValue(c)
  }

  function PopCount(n: nat): nat {
    if n == 0 then 0 else n % 2 + PopCount(n / 2)
  }

  lemma PopCountDouble(n: nat, b: nat, m: nat)
    requires b < 2 && m == 2 * n + b
    ensures PopCount(m) == PopCount(n) + b
  {
    assert m / 2 == n && m % 2 == b;
  }

  /** One bits of a four-bit number. */
  function Ones(d: nat): nat
    requires d < 16
  {
    [0, 1, 1, 2, 1, 2, 2, 3, 1, 2, 2, 3, 2, 3, 3, 4][d]
  }

  lemma NibbleIsOnes(c: char)
    requires IsHex(c)
    ensures HexValue(c) < 16 && NibbleBits(c) == Ones(HexValue(c))
  {}

  lemma BitsOf(d: nat) returns (b3: nat, b2: nat, b1: nat, b0: nat)
    requires d < 16
    ensures b3 < 2 && b2 < 2 && b1 < 2 && b0 < 2
    ensures d == 8 * b3 + 4 * b2 + 2 * b1 + b0 && Ones(d) == b3 + b2 + b1 + b0
  {
    b3 := if d >= 8 then 1 else 0;
    b2 := if d - 8 * b3 >= 4 then 1 else 0;
    b1 := if d - 8 * b3 - 4 * b2 >= 2 then 1 else 0;
    b0 := d - 8 * b3 - 4 * b2 - 2 * b1;
  }

  lemma PopCountShift(n: nat, d: nat)
    requires d < 16
    ensures PopCount(16 * n + d) == PopCount(n) + Ones(d)
  {
    var b3, b2, b1, b0 := BitsOf(d);
    PopCountChain(n, 2 * n + b3, 4 * n + 2 * b3 + b2, 8 * n + 4 * b3 + 2 * b2 + b1, 16 * n + d, b3, b2, b1, b0);
  }

  lemma PopCountChain(n: nat, n1: nat, n2: nat, n3: nat, n4: nat, b3: nat, b2: nat, b1: nat, b0: nat)
    requires b3 < 2 && b2 < 2 && b1 < 2 && b0 < 2
    requires n1 == 2 * n + b3 && n2 == 2 * n1 + b2 && n3 == 2 * n2 + b1 && n4 == 2 * n3 + b0
    ensures PopCount(n4) == PopCount(n) + b3 + b2 + b1 + b0
  {
    PopCountDouble(n, b3, n1);
    PopCountDouble(n1, b2, n2);
    PopCountDouble(n2, b1, n3);
    PopCountDouble(n3, b0, n4);
  }

  /** Characters that are no hex digits count nothing. */
  lemma OtherCharsCountNothing(c: char)
    requires !IsHex(c)
    ensures NibbleBits(c) == 0
  {}

  /** The table sum is the number of one bits of the number written, commas and case aside. */
  lemma {:induction false} CountIsPopCount(mask: string)
    requires IsMask(mask)
    ensures MaskBits(mask) == PopCount(Denoted(mask))
  {
    if mask != "" {
      var front, c := mask[..|mask| - 1], mask[|mask| - 1];
      CountIsPopCount(front);
      if c != ',' {
        NibbleIsOnes(c);
        PopCountShift(Denoted(front), HexValue(c));
      }
    }
  }

  // ---------------------------------------------------------------- Printing a CPU set

  function Bit(cpus: set<nat>, cpu: nat): nat { if cpu in cpus then 1 else 0 }

  function Nibble(cpus: set<nat>, k: nat): (d: nat)
    ensures d < 16
  {
    Bit(cpus, 4 * k) + 2 * Bit(cpus, 4 * k + 1) + 4 * Bit(cpus, 4 * k + 2) + 8 * Bit(cpus, 4 * k + 3)
  }

  function HexDigit(d: nat): char
    requires d < 16
  {
    "0123456789abcdef"[d]
  }

  /** n digits, highest first, with a comma behind every group of eight but the last. */
  function PrintMask(cpus: set<nat>, n: nat): string {
    if n == 0 then ""
    else
      [HexDigit(Nibble(cpus, n - 1))]
      + (if (n - 1) % 8 == 0 && n > 1 then "," else "")
      + PrintMask(cpus, n - 1)
  }

  function Below(cpus: set<nat>, limit: nat): set<nat> { set c | c in cpus && c < limit }

  lemma BelowStep(cpus: set<nat>, m: nat)
    ensures |Below(cpus, m + 1)| == |Below(cpus, m)| + Bit(cpus, m)
  {
    if m in cpus {
      assert Below(cpus, m + 1) == Below(cpus, m) + {m};
    } else {
      assert Below(cpus, m + 1) == Below(cpus, m);
    }
  }

  lemma NibbleCounts(cpus: set<nat>, k: nat)
    ensures |Below(cpus, 4 * (k + 1))| == |Below(cpus, 4 * k)| + NibbleBits(HexDigit(Nibble(cpus, k)))
  {
    BelowStep(cpus, 4 * k);
    BelowStep(cpus, 4 * k + 1);
    BelowStep(cpus, 4 * k + 2);
    BelowStep(cpus, 4 * k + 3);
  }

  lemma {:induction false} CountOfPrinted(cpus: set<nat>, n: nat)
    ensures MaskBits(PrintMask(cpus, n)) == |Below(cpus, 4 * n)|
  {
    if n == 0 {
      assert Below(cpus, 0) == {};
    } else {
      CountOfPrinted(cpus, n - 1);
      NibbleCounts(cpus, n - 1);
      var digit := [HexDigit(Nibble(cpus, n - 1))];
      var comma := if (n - 1) % 8 == 0 && n > 1 then "," else "";
      MaskBitsConcat(digit + comma, PrintMask(cpus, n - 1));
      MaskBitsConcat(digit, comma);
    }
  }

  /** For every set of CPUs that fits the printed width, the count is the size of the set. */
  lemma CountIsSetSize(cpus: set<nat>, n: nat)
    requires forall c :: c in cpus ==> c < 4 * n
    ensures MaskBits(PrintMask(cpus, n)) == |cpus|
  {
    CountOfPrinted(cpus, n);
    assert Below(cpus, 4 * n) == cpus;
  }
}
