/** String helpers the scraper relies on: Python's argument-less `str.split()`
    and the decimal rendering `str(n)` of a non-negative integer. */
module Text {

  /** Python's `str.isspace` for one character: the ASCII whitespace and
      separator controls plus the Unicode space separators. */
  predicate IsSpace(c: char) {
    var n := c as int;
    || n == 0x20 || 0x09 <= n <= 0x0D || 0x1C <= n <= 0x1F
    || n == 0x85 || n == 0xA0 || n == 0x1680 || 0x2000 <= n <= 0x200A
    || n == 0x2028 || n == 0x2029 || n == 0x202F || n == 0x205F || n == 0x3000
  }

  predicate NoSpace(s: string) {
    forall i :: 0 <= i < |s| ==> !IsSpace(s[i])
  }

  predicate AllSpace(s: string) {
    forall i :: 0 <= i < |s| ==> IsSpace(s[i])
  }

  /** Length of the longest whitespace-free prefix of `s`. */
  function TokenLength(s: string): (n: nat)
    ensures n <= |s|
    ensures NoSpace(s[..n])
    ensures n < |s| ==> IsSpace(s[n])
  {
    if s == [] || IsSpace(s[0]) then 0
    else
      var m := TokenLength(s[1..]);
      assert s[..m + 1] == [s[0]] + s[1..][..m];
      m + 1
  }

  /** `s.split()`: the maximal runs of non-whitespace characters of `s`, in
      order; leading, trailing and repeated whitespace produce no empty words. */
  function Split(s: string): (words: seq<string>)
    ensures forall i :: 0 <= i < |words| ==> |words[i]| > 0 && NoSpace(words[i])
    ensures words == [] <==> AllSpace(s)
    decreases |s|
  {
    if s == [] then []
    else if IsSpace(s[0]) then
      var rest := Split(s[1..]);
      assert AllSpace(s[1..]) ==> AllSpace(s) by {
        if AllSpace(s[1..]) {
          forall i | 0 <= i < |s| ensures IsSpace(s[i]) {
            if i > 0 { assert s[i] == s[1..][i - 1]; }
          }
        }
      }
      rest
    else
      var n := TokenLength(s);
      [s[..n]] + Split(s[n..])
  }

  /** `s` with every whitespace character dropped. */
  function DropSpace(s: string): string {
    if s == [] then []
    else (if IsSpace(s[0]) then [] else [s[0]]) + DropSpace(s[1..])
  }

  function Concat(words: seq<string>): string {
    if words == [] then [] else words[0] + Concat(words[1..])
  }

  lemma {:induction false} DropSpaceAppend(a: string, b: string)
    ensures DropSpace(a + b) == DropSpace(a) + DropSpace(b)
    decreases |a|
  {
    if a == [] {
      assert a + b == b;
    } else {
      assert (a + b)[1..] == a[1..] + b;
      DropSpaceAppend(a[1..], b);
    }
  }

  lemma {:induction false} DropSpaceOfNoSpace(s: string)
    requires NoSpace(s)
    ensures DropSpace(s) == s
    decreases |s|
  {
    if s != [] {
      DropSpaceOfNoSpace(s[1..]);
    }
  }

  /** Splitting loses only whitespace: the words, glued back together, are
      exactly the non-whitespace characters of `s` in their original order. */
  lemma {:induction false} SplitKeepsText(s: string)
    ensures Concat(Split(s)) == DropSpace(s)
    decreases |s|
  {
    if s == [] {
    } else if IsSpace(s[0]) {
      SplitKeepsText(s[1..]);
    } else {
      var n := TokenLength(s);
      SplitKeepsText(s[n..]);
      assert s == s[..n] + s[n..];
      DropSpaceAppend(s[..n], s[n..]);
      DropSpaceOfNoSpace(s[..n]);
      assert ([s[..n]] + Split(s[n..]))[1..] == Split(s[n..]);
    }
  }

  /** Length of the run of whitespace that starts `s`. */
  function LeadingSpace(s: string): (k: nat)
    ensures k <= |s|
    ensures AllSpace(s[..k])
    ensures k < |s| ==> !IsSpace(s[k])
  {
    if s == [] || !IsSpace(s[0]) then 0
    else
      var m := LeadingSpace(s[1..]);
      assert s[..m + 1] == [s[0]] + s[1..][..m];
      m + 1
  }

  lemma {:induction false} SplitSkipsLeadingSpace(s: string)
    ensures Split(s) == Split(s[LeadingSpace(s)..])
    decreases |s|
  {
    if s != [] && IsSpace(s[0]) {
      SplitSkipsLeadingSpace(s[1..]);
      assert s[LeadingSpace(s)..] == s[1..][LeadingSpace(s[1..])..];
    }
  }

  /** The first word of `s.split()` sits after a run of whitespace only, and
      ends at the end of `s` or just before a whitespace character. */
  lemma FirstWordShape(s: string) returns (k: nat)
    requires Split(s) != []
    ensures k + |Split(s)[0]| <= |s|
    ensures AllSpace(s[..k])
    ensures s[k..k + |Split(s)[0]|] == Split(s)[0]
    ensures k + |Split(s)[0]| == |s| || IsSpace(s[k + |Split(s)[0]|])
  {
    k := LeadingSpace(s);
    SplitSkipsLeadingSpace(s);
    var t := s[k..];
    assert t != [] && !IsSpace(t[0]);
    var n := TokenLength(t);
    assert Split(s)[0] == t[..n];
    assert s[k..k + n] == t[..n];
    assert k + n < |s| ==> s[k + n] == t[n];
  }

  predicate IsDigit(c: char) {
    '0' <= c <= '9'
  }

  predicate AllDigits(s: string) {
    forall i :: 0 <= i < |s| ==> IsDigit(s[i])
  }

  function DigitChar(d: nat): (c: char)
    requires d < 10
    ensures IsDigit(c) && c as int - '0' as int == d
  {
    ('0' as int + d) as char
  }

  /** `str(n)` for a non-negative integer: its decimal digits, most significant
      first, without leading zeros. */
  function Decimal(n: nat): (s: string)
    ensures |s| > 0 && AllDigits(s)
    ensures s[0] == '0' ==> n == 0
  {
    if n < 10 then [DigitChar(n)] else Decimal(n / 10) + [DigitChar(n % 10)]
  }

  /** The value of a string of decimal digits. */
  function ParseDecimal(s: string): nat
    requires AllDigits(s)
  {
    if s == [] then 0
    else ParseDecimal(s[..|s| - 1]) * 10 + (s[|s| - 1] as int - '0' as int)
  }

  /** Reading back `str(n)` yields `n`. */
  lemma {:induction false} DecimalRoundTrip(n: nat)
    ensures ParseDecimal(Decimal(n)) == n
  {
    var s := Decimal(n);
    if n >= 10 {
      DecimalRoundTrip(n / 10);
      assert s[..|s| - 1] == Decimal(n / 10);
    }
  }

  /** Distinct numbers render as distinct strings. */
  lemma DecimalInjective(m: nat, n: nat)
    requires m != n
    ensures Decimal(m) != Decimal(n)
  {
    DecimalRoundTrip(m);
    DecimalRoundTrip(n);
  }
}
