/** `%d`, `%03d` and `%020d` of unsigned integers, the grammars that read them back, and texts
    framed by their printed length. */
module Decimal {
  import opened Ordering

  function Digit(d: nat): char
    requires d < 10
  {
    (d + '0' as int) as char
  }

  /** `%d` */
  function Dec(n: nat): (text: string)
    ensures text != []
  {
    if n < 10 then [Digit(n)] else Dec(n / 10) + [Digit(n % 10)]
  }

  predicate AllZeros(text: string) {
    forall i :: 0 <= i < |text| ==> text[i] == '0'
  }

  function Zeros(n: nat): (text: string)
    ensures |text| == n && AllZeros(text)
  {
    if n == 0 then "" else "0" + Zeros(n - 1)
  }

  /** `%0<width>d` */
  function Pad(n: nat, width: nat): string {
    Zeros(if |Dec(n)| < width then width - |Dec(n)| else 0) + Dec(n)
  }

  predicate IsDigit(c: char) { '0' <= c <= '9' }

  predicate AllDigits(text: string) {
    forall c :: c in text ==> IsDigit(c)
  }

  /** The number a string of digits denotes. */
  function Value(text: string): nat
    requires AllDigits(text)
  {
    if text == "" then 0 else
      assert text[|text| - 1] in text;
      10 * Value(text[..|text| - 1]) + (text[|text| - 1] as int - '0' as int)
  }

  lemma {:induction false} DecDenotes(n: nat)
    ensures AllDigits(Dec(n)) && Value(Dec(n)) == n
    ensures n > 0 ==> Dec(n)[0] != '0'
    ensures |Dec(n)| > 1 ==> Dec(n)[0] != '0'
  {
    if n < 10 {
      assert Dec(n)[..0] == "";
    } else {
      DecDenotes(n / 10);
      assert Dec(n)[..|Dec(n)| - 1] == Dec(n / 10);
    }
  }

  lemma {:induction false} ZerosAreWorthless(zeros: string, text: string)
    requires AllZeros(zeros) && AllDigits(text)
    ensures AllDigits(zeros + text) && Value(zeros + text) == Value(text)
    decreases |zeros| + |text|
  {
    if text != "" {
      ZerosAreWorthless(zeros, text[..|text| - 1]);
      assert (zeros + text)[..|zeros + text| - 1] == zeros + text[..|text| - 1];
    } else if zeros != "" {
      ZerosAreWorthless(zeros[..|zeros| - 1], text);
      assert zeros + text == zeros && zeros[..|zeros| - 1] + text == zeros[..|zeros| - 1];
    }
  }

  lemma PadDenotes(n: nat, width: nat)
    ensures AllDigits(Pad(n, width)) && Value(Pad(n, width)) == n
    ensures |Pad(n, width)| >= width && (|Dec(n)| <= width ==> |Pad(n, width)| == width)
  {
    DecDenotes(n);
    ZerosAreWorthless(Zeros(if |Dec(n)| < width then width - |Dec(n)| else 0), Dec(n));
  }

  lemma PadInjective(m: nat, n: nat, width: nat)
    requires Pad(m, width) == Pad(n, width)
    ensures m == n
  {
    PadDenotes(m, width);
    PadDenotes(n, width);
  }

  lemma DecInjective(m: nat, n: nat)
    requires Dec(m) == Dec(n)
    ensures m == n
  {
    DecDenotes(m);
    DecDenotes(n);
  }

  /** Printing, on numbers that one can check. */
  lemma PrintedExamples()
    ensures Dec(0) == "0" && Dec(12) == "12" && Dec(1203) == "1203"
    ensures Pad(7, 3) == "007" && Pad(1234, 3) == "1234"
  {
    assert Zeros(2) == "00";
  }

  /** A digit string without a redundant leading zero is what `%d` prints for its value. */
  lemma {:induction false} DecOfValue(text: string)
    requires text != "" && AllDigits(text) && (|text| > 1 ==> text[0] != '0')
    ensures Dec(Value(text)) == text
  {
    var front, last := text[..|text| - 1], text[|text| - 1];
    assert text == front + [last] && last in text;
    if front == "" {
    } else {
      assert front[0] == text[0];
      DecOfValue(front);
      if |front| > 1 { ValueOfTwoDigits(front); } else { assert front == [front[0]]; }
      assert Value(front) > 0;
    }
  }

  lemma {:induction false} ValueOfTwoDigits(text: string)
    requires text != "" && AllDigits(text) && text[0] != '0'
    ensures Value(text) > 0
  {
    var front := text[..|text| - 1];
    assert text[|text| - 1] in text;
    if front != "" {
      assert front[0] == text[0];
      ValueOfTwoDigits(front);
    }
  }

  /** The grammar of run-support ordinals: digits, not all zero, at least `minimumWidth` wide,
      and padded no further than that width. */
  predicate IsIdentifier(text: string, minimumWidth: nat) {
    && |text| >= minimumWidth && text != ""
    && AllDigits(text)
    && (exists c :: c in text && c != '0')
    && (text[0] != '0' || |text| == minimumWidth)
  }

  method DecimalIdentifier(value: string, minimumWidth: nat) returns (accepted: bool)
    ensures accepted <==> IsIdentifier(value, minimumWidth)
  {
    if |value| < minimumWidth || value == "" { return false; }
    var nonZero := false;
    for i := 0 to |value|
      invariant AllDigits(value[..i])
      invariant nonZero ==> exists c :: c in value[..i] && c != '0'
      invariant !nonZero ==> forall c :: c in value[..i] ==> c == '0'
    {
      assert value[..i + 1] == value[..i] + [value[i]];
      assert value[i] in value;
      if value[i] < '0' || value[i] > '9' { return false; }
      assert value[i] in value[..i + 1] && forall c :: c in value[..i] ==> c in value[..i + 1];
      nonZero := nonZero || value[i] != '0';
    }
    assert value[..|value|] == value;
    accepted := nonZero && (value[0] != '0' || |value| == minimumWidth);
  }

  /** The accepted identifiers are exactly what `%0<width>d` prints for positive integers. */
  lemma IdentifiersArePaddedPositives(text: string, width: nat)
    ensures IsIdentifier(text, width) <==> exists n: nat :: n > 0 && text == Pad(n, width)
  {
    if IsIdentifier(text, width) {
      IdentifierIsPrinted(text, width);
      assert text == Pad(Value(text), width);
    }
    forall n: nat | n > 0 && text == Pad(n, width) ensures IsIdentifier(text, width) {
      PrintedIsIdentifier(n, width);
    }
  }

  lemma PrintedIsIdentifier(n: nat, width: nat)
    requires n > 0
    ensures IsIdentifier(Pad(n, width), width)
  {
    PadDenotes(n, width);
    DecDenotes(n);
    var text := Pad(n, width);
    assert Dec(n)[0] == text[|text| - |Dec(n)|];
    assert Dec(n)[0] in text;
  }

  lemma IdentifierIsPrinted(text: string, width: nat)
    requires IsIdentifier(text, width)
    ensures Value(text) > 0 && Pad(Value(text), width) == text
  {
    var zeros, digits := StripZeros(text);
    assert digits != "" by {
      var c :| c in text && c != '0';
      assert c in zeros || c in digits;
    }
    assert forall c :: c in digits ==> c in text;
    ZerosAreWorthless(zeros, digits);
    DecOfValue(digits);
    ValueOfTwoDigits(digits);
    assert zeros != "" ==> text[0] == zeros[0];
    assert |zeros| == if |digits| < width then width - |digits| else 0;
    assert zeros == Zeros(|zeros|);
  }

  lemma {:induction false} StripZeros(text: string) returns (zeros: string, digits: string)
    ensures text == zeros + digits
    ensures AllZeros(zeros)
    ensures digits != "" ==> digits[0] != '0'
  {
    if text == "" || text[0] != '0' {
      zeros, digits := "", text;
    } else {
      zeros, digits := StripZeros(text[1..]);
      assert text == [text[0]] + text[1..];
      zeros := "0" + zeros;
    }
  }

  /** Equally long digit strings compare bytewise as the numbers they denote. */
  lemma {:induction false} BytewiseIsNumeric(a: string, b: string)
    requires |a| == |b| && AllDigits(a) && AllDigits(b)
    ensures Less(a, b) <==> Value(a) < Value(b)
    decreases |a|
  {
    if a == "" {
    } else {
      var n := |a| - 1;
      assert a[n] in a && b[n] in b;
      BytewiseIsNumeric(a[..n], b[..n]);
      BytewiseIsNumeric(b[..n], a[..n]);
      assert a == a[..n] + [a[n]] && b == b[..n] + [b[n]];
      LessOnLastCharacter(a[..n], a[n], b[..n], b[n]);
      LessTotal(a[..n], b[..n]);
      if a[..n] != b[..n] && Less(a[..n], b[..n]) { LessAsymmetric(a[..n], b[..n]); }
    }
  }

  lemma {:induction false} LessOnLastCharacter(a: string, x: char, b: string, y: char)
    requires |a| == |b|
    ensures Less(a + [x], b + [y]) <==> Less(a, b) || (a == b && x < y)
  {
    if a == "" {
    } else {
      assert (a + [x])[1..] == a[1..] + [x] && (b + [y])[1..] == b[1..] + [y];
      LessOnLastCharacter(a[1..], x, b[1..], y);
      assert a == [a[0]] + a[1..] && b == [b[0]] + b[1..];
    }
  }

  function Pow10(n: nat): nat {
    if n == 0 then 1 else 10 * Pow10(n - 1)
  }

  lemma {:induction false} DecWidth(n: nat, width: nat)
    requires 0 < width && n < Pow10(width)
    ensures |Dec(n)| <= width
  {
    if n >= 10 { DecWidth(n / 10, width - 1); }
  }

  /** Zero-padded to a width that holds both, numbers print in numeric order. */
  lemma PaddedOrder(m: nat, n: nat, width: nat)
    requires 0 < width && m < Pow10(width) && n < Pow10(width)
    ensures Less(Pad(m, width), Pad(n, width)) <==> m < n
    ensures |Pad(m, width)| == width
  {
    DecWidth(m, width);
    DecWidth(n, width);
    PadDenotes(m, width);
    PadDenotes(n, width);
    BytewiseIsNumeric(Pad(m, width), Pad(n, width));
  }

  // ---------------------------------------------------------------- length-prefixed texts

  /** `%d:%s` of a text's length and the text. */
  function Frame(value: string): string {
    Dec(|value|) + ":" + value
  }

  lemma SeparatedParts(a: string, sep: char, x: string)
    ensures (a + [sep] + x)[0] == if a == "" then sep else a[0]
    ensures (a + [sep] + x)[1..] == if a == "" then x else a[1..] + [sep] + x
  {
  }

  lemma {:induction false} FirstSeparator(a: string, x: string, b: string, y: string, sep: char)
    requires sep !in a && sep !in b && a + [sep] + x == b + [sep] + y
    ensures a == b && x == y
  {
    SeparatedParts(a, sep, x);
    SeparatedParts(b, sep, y);
    if a != "" && b != "" {
      FirstSeparator(a[1..], x, b[1..], y, sep);
      assert a == [a[0]] + a[1..] && b == [b[0]] + b[1..];
    }
  }

  /** A frame ends where its length says, whatever follows it. */
  lemma FrameDelimits(a: string, x: string, b: string, y: string)
    requires Frame(a) + x == Frame(b) + y
    ensures a == b && x == y
  {
    DecDenotes(|a|);
    DecDenotes(|b|);
    assert Frame(a) + x == Dec(|a|) + [':'] + (a + x);
    assert Frame(b) + y == Dec(|b|) + [':'] + (b + y);
    FirstSeparator(Dec(|a|), a + x, Dec(|b|), b + y, ':');
    DecInjective(|a|, |b|);
    assert (a + x)[..|a|] == a && (b + y)[..|b|] == b;
    assert (a + x)[|a|..] == x && (b + y)[|b|..] == y;
  }
}
