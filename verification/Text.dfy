/** Decimal numerals and joined text, as the formatted strings of the program build them. */
module Text {
  function Digit(d: nat): char
    requires d < 10
  {
    ['0', '1', '2', '3', '4', '5', '6', '7', '8', '9'][d]
  }

  predicate IsDigit(c: char) {
    '0' <= c <= '9'
  }

  function Decimal(n: nat): (s: string)
    ensures s != []
    ensures forall i | 0 <= i < |s| :: IsDigit(s[i])
  {
    if n < 10 then [Digit(n)] else Decimal(n / 10) + [Digit(n % 10)]
  }

  lemma {:induction false} DecimalInjective(m: nat, n: nat)
    requires Decimal(m) == Decimal(n)
    ensures m == n
    decreases m
  {
    assert Decimal(m)[|Decimal(m)| - 1] == Digit(m % 10) && Decimal(n)[|Decimal(n)| - 1] == Digit(n % 10);
    assert m % 10 == n % 10;
    if m >= 10 && n >= 10 {
      assert Decimal(m / 10) == Decimal(m)[..|Decimal(m)| - 1] == Decimal(n)[..|Decimal(n)| - 1] == Decimal(n / 10);
      DecimalInjective(m / 10, n / 10);
    }
  }

  /** `separator.join(parts)` */
  function Join(parts: seq<string>, separator: string): string {
    if parts == [] then ""
    else if |parts| == 1 then parts[0]
    else parts[0] + separator + Join(parts[1..], separator)
  }

  /** Two texts that start with a numeral and go on with the same non-digit have the same number. */
  lemma LeadingNumeralIsDetermined(m: nat, n: nat, c: char, restM: string, restN: string)
    requires !IsDigit(c)
    requires Decimal(m) + [c] + restM == Decimal(n) + [c] + restN
    ensures m == n && restM == restN
  {
    var a, b := Decimal(m), Decimal(n);
    var s := a + [c] + restM;
    assert s[|a|] == c && s[..|a|] == a && s[|a| + 1..] == restM;
    assert (b + [c] + restN)[|b|] == c && s[..|b|] == b && (b + [c] + restN)[|b| + 1..] == restN;
    assert |a| == |b|;
    DecimalInjective(m, n);
  }

  /** White space, for `str.split()`, `str.strip()` and `\s`. */
  predicate IsSpace(c: char) {
    || '\t' <= c <= '\r' || '\U{001C}' <= c <= ' ' || c == '\U{0085}' || c == '\U{00A0}' || c == '\U{1680}'
    || '\U{2000}' <= c <= '\U{200A}' || c == '\U{2028}' || c == '\U{2029}' || c == '\U{202F}'
    || c == '\U{205F}' || c == '\U{3000}'
  }

  predicate AllSpaces(s: string) {
    forall i | 0 <= i < |s| :: IsSpace(s[i])
  }

  /** `line.lstrip()` */
  function LStrip(line: string): string {
    if line != "" && IsSpace(line[0]) then LStrip(line[1..]) else line
  }

  /** `line.strip() == ""` */
  predicate IsBlank(line: string) {
    LStrip(line) == ""
  }

  /** `len(line) - len(line.lstrip())` */
  function IndentOf(line: string): (n: nat)
    ensures n <= |line| && n + |LStrip(line)| == |line|
  {
    LStripIsSuffix(line);
    |line| - |LStrip(line)|
  }

  lemma {:induction false} LStripIsSuffix(line: string)
    ensures |LStrip(line)| <= |line|
    ensures LStrip(line) == line[|line| - |LStrip(line)|..]
    ensures AllSpaces(line[..|line| - |LStrip(line)|])
    ensures LStrip(line) != "" ==> !IsSpace(LStrip(line)[0])
  {
    if line != "" && IsSpace(line[0]) {
      LStripIsSuffix(line[1..]);
      var n := |line| - |LStrip(line)|;
      assert line[..n] == [line[0]] + line[1..][..n - 1];
    }
  }

  /** A text after white space is what stripping leaves. */
  lemma {:induction false} LStripOfIndented(indent: string, text: string)
    requires AllSpaces(indent) && text != "" && !IsSpace(text[0])
    ensures LStrip(indent + text) == text
  {
    if indent == "" {
      assert indent + text == text;
    } else {
      assert (indent + text)[1..] == indent[1..] + text;
      LStripOfIndented(indent[1..], text);
    }
  }
}
