/** The JavaScript string operations the services rely on: `split` on one
    character, `join`, `trim`, ASCII `toLowerCase`, `startsWith`, decimal
    number-to-string conversion and `parseInt(s, 10)`. */
module Text {
  import opened Wrappers

  /** JavaScript's WhiteSpace and LineTerminator characters, the set `trim`
      and `parseInt` skip. */
  predicate IsWhitespace(c: char) {
    var n := c as int;
    n == 0x09 || n == 0x0A || n == 0x0B || n == 0x0C || n == 0x0D || n == 0x20
    || n == 0xA0 || n == 0x1680 || (0x2000 <= n <= 0x200A) || n == 0x2028
    || n == 0x2029 || n == 0x202F || n == 0x205F || n == 0x3000 || n == 0xFEFF
  }

  predicate IsDigit(c: char) {
    '0' <= c <= '9'
  }

  function TrimStart(s: string): (r: string)
    ensures |r| <= |s| && r == s[|s| - |r|..]
    ensures |r| > 0 ==> !IsWhitespace(r[0])
    ensures forall i :: 0 <= i < |s| - |r| ==> IsWhitespace(s[i])
  {
    if |s| > 0 && IsWhitespace(s[0]) then TrimStart(s[1..]) else s
  }

  function TrimEnd(s: string): (r: string)
    ensures |r| <= |s| && r == s[..|r|]
    ensures |r| > 0 ==> !IsWhitespace(r[|r| - 1])
    ensures forall i :: |r| <= i < |s| ==> IsWhitespace(s[i])
  {
    if |s| > 0 && IsWhitespace(s[|s| - 1]) then TrimEnd(s[..|s| - 1]) else s
  }

  /** `String.prototype.trim` */
  function Trim(s: string): string {
    TrimEnd(TrimStart(s))
  }

  /** `toLowerCase` restricted to the ASCII letters */
  function LowerChar(c: char): char {
    if 'A' <= c <= 'Z' then (c as int + 32) as char else c
  }

  function Lower(s: string): (r: string)
    ensures |r| == |s|
    ensures forall i :: 0 <= i < |s| ==> r[i] == LowerChar(s[i])
  {
    seq(|s|, i requires 0 <= i < |s| => LowerChar(s[i]))
  }

  predicate StartsWith(s: string, prefix: string) {
    |prefix| <= |s| && s[..|prefix|] == prefix
  }

  /** `Array.prototype.join(sep)` over strings */
  function Join(parts: seq<string>, sep: string): string {
    if |parts| == 0 then ""
    else if |parts| == 1 then parts[0]
    else parts[0] + sep + Join(parts[1..], sep)
  }

  /** `String.prototype.split(c)` for a one-character separator: the pieces
      between consecutive occurrences of `c`; "" splits into [""] */
  function Split(s: string, c: char): (r: seq<string>)
    ensures |r| > 0
  {
    if |s| == 0 then [""]
    else
      var rest := Split(s[1..], c);
      if s[0] == c then [""] + rest else [[s[0]] + rest[0]] + rest[1..]
  }

  /** Decimal digit for 0..9 */
  function DigitChar(d: nat): char
    requires d < 10
  {
    ('0' as int + d) as char
  }

  function NatToString(n: nat): (r: string)
    ensures |r| > 0
    ensures forall i :: 0 <= i < |r| ==> IsDigit(r[i])
  {
    if n < 10 then [DigitChar(n)] else NatToString(n / 10) + [DigitChar(n % 10)]
  }

  /** The text of `${n}` for an integral JavaScript number: a '-' exactly
      for a negative number, then decimal digits */
  function IntToString(n: int): (r: string)
    ensures |r| > 0 && (r[0] == '-' <==> n < 0)
    ensures forall i :: (if n < 0 then 1 else 0) <= i < |r| ==> IsDigit(r[i])
    ensures n < 0 ==> |r| > 1
  {
    if n < 0 then "-" + NatToString(-n) else NatToString(n)
  }

  /** The value of a string of decimal digits */
  function DigitsValue(s: string): nat
    requires forall i :: 0 <= i < |s| ==> IsDigit(s[i])
  {
    if |s| == 0 then 0
    else
      assert IsDigit(s[|s| - 1]);
      DigitsValue(s[..|s| - 1]) * 10 + (s[|s| - 1] as int - '0' as int)
  }

  /** The longest prefix of `s` made of decimal digits */
  function DigitPrefix(s: string): (r: string)
    ensures |r| <= |s| && r == s[..|r|]
    ensures forall i :: 0 <= i < |r| ==> IsDigit(r[i])
    ensures |r| < |s| ==> !IsDigit(s[|r|])
  {
    if |s| > 0 && IsDigit(s[0]) then [s[0]] + DigitPrefix(s[1..]) else ""
  }

  /** The text after one optional leading sign */
  function Unsigned(t: string): string {
    if |t| > 0 && (t[0] == '-' || t[0] == '+') then t[1..] else t
  }

  /** `parseInt(s, 10)`: leading whitespace is skipped, one optional sign is
      read, then the longest run of digits; None stands for NaN (no digit). */
  function ParseInt(s: string): (r: Option<int>)
    ensures r.None? <==> (var u := Unsigned(TrimStart(s)); |u| == 0 || !IsDigit(u[0]))
  {
    var t := TrimStart(s);
    var negative := |t| > 0 && t[0] == '-';
    var digits := DigitPrefix(Unsigned(t));
    if |digits| == 0 then None
    else
      var v: int := DigitsValue(digits);
      if negative then Some(-v) else Some(v)
  }

  // ---------------------------------------------------------------------
  // Lemmas

  lemma {:induction false} DigitsValueOfNatToString(n: nat)
    ensures DigitsValue(NatToString(n)) == n
  {
    if n >= 10 {
      var s := NatToString(n);
      assert s[..|s| - 1] == NatToString(n / 10);
      DigitsValueOfNatToString(n / 10);
    }
  }

  lemma {:induction false} DigitPrefixOfDigits(s: string)
    requires forall i :: 0 <= i < |s| ==> IsDigit(s[i])
    ensures DigitPrefix(s) == s
  {
    if |s| > 0 {
      DigitPrefixOfDigits(s[1..]);
    }
  }

  /** `parseInt` reads back every integer `${n}` produces */
  lemma ParseIntOfIntToString(n: int)
    ensures ParseInt(IntToString(n)) == Some(n)
  {
    var s := IntToString(n);
    assert !IsWhitespace(s[0]);
    assert TrimStart(s) == s;
    if n < 0 {
      var digits := NatToString(-n);
      assert s == "-" + digits;
      assert Unsigned(s) == digits;
      DigitPrefixOfDigits(digits);
      DigitsValueOfNatToString(-n);
    } else {
      assert s == NatToString(n);
      assert Unsigned(s) == s;
      DigitPrefixOfDigits(s);
      DigitsValueOfNatToString(n);
    }
  }

  /** Splitting text that has no separator before `b` glues that text onto the
      first piece of `b` */
  lemma {:induction false} SplitPrefixFree(a: string, b: string, c: char)
    requires c !in a
    ensures Split(a + b, c) == [a + Split(b, c)[0]] + Split(b, c)[1..]
  {
    if |a| > 0 {
      assert (a + b)[1..] == a[1..] + b;
      SplitPrefixFree(a[1..], b, c);
      assert [a[0]] + (a[1..] + Split(b, c)[0]) == a + Split(b, c)[0];
    } else {
      assert a == "";
      assert a + b == b;
      assert a + Split(b, c)[0] == Split(b, c)[0];
      assert [Split(b, c)[0]] + Split(b, c)[1..] == Split(b, c);
    }
  }

  lemma SplitNoSeparator(a: string, c: char)
    requires c !in a
    ensures Split(a, c) == [a]
  {
    SplitPrefixFree(a, "", c);
    assert a + "" == a;
  }

  /** One separator between separator-free `a` and `b` splits back into the two */
  lemma SplitAtSeparator(a: string, b: string, c: char)
    requires c !in a
    ensures Split(a + [c] + b, c) == [a] + Split(b, c)
  {
    assert a + [c] + b == a + ([c] + b);
    SplitPrefixFree(a, [c] + b, c);
    assert ([c] + b)[1..] == b;
    assert Split([c] + b, c) == [""] + Split(b, c);
    assert a + "" == a;
  }

  /** Joining separator-free parts with a separator and splitting on it gives
      the parts back */
  lemma {:induction false} SplitJoin(parts: seq<string>, c: char)
    requires |parts| > 0
    requires forall i :: 0 <= i < |parts| ==> c !in parts[i]
    ensures Split(Join(parts, [c]), c) == parts
  {
    if |parts| == 1 {
      SplitNoSeparator(parts[0], c);
    } else {
      SplitJoin(parts[1..], c);
      SplitAtSeparator(parts[0], Join(parts[1..], [c]), c);
      assert [parts[0]] + parts[1..] == parts;
    }
  }

  /** Three separator-free parts joined by the separator split back */
  lemma SplitThree(a: string, b: string, x: string, c: char)
    requires c !in a && c !in b && c !in x
    ensures Split(a + [c] + b + [c] + x, c) == [a, b, x]
  {
    var tail := b + [c] + x;
    assert a + [c] + b + [c] + x == a + [c] + tail;
    SplitAtSeparator(a, tail, c);
    SplitAtSeparator(b, x, c);
    SplitNoSeparator(x, c);
  }

  /** Joining comma-free parts with ", " and splitting on ',' gives the first
      part and every later part with one leading space */
  lemma {:induction false} SplitJoinCommaSpace(parts: seq<string>)
    requires |parts| > 0
    requires forall i :: 0 <= i < |parts| ==> ',' !in parts[i]
    ensures Split(Join(parts, ", "), ',') ==
      [parts[0]] + seq(|parts| - 1, i requires 0 <= i < |parts| - 1 => " " + parts[i + 1])
  {
    if |parts| == 1 {
      SplitNoSeparator(parts[0], ',');
    } else {
      var tail := Join(parts[1..], ", ");
      assert parts[0] + ", " + tail == parts[0] + [','] + (" " + tail);
      SplitAtSeparator(parts[0], " " + tail, ',');
      SplitJoinCommaSpace(parts[1..]);
      assert ' ' != ',';
      SplitPrefixFree(" ", tail, ',');
    }
  }

  lemma TrimStartOfTrimmed(s: string)
    requires |s| == 0 || !IsWhitespace(s[0])
    ensures TrimStart(s) == s
  {
  }

  lemma {:induction false} TrimEndOfTrimmed(s: string)
    requires |s| == 0 || !IsWhitespace(s[|s| - 1])
    ensures TrimEnd(s) == s
  {
  }

  /** Lower-casing neither creates nor removes whitespace or commas */
  lemma LowerKeepsClasses(s: string)
    ensures forall i :: 0 <= i < |s| ==> (IsWhitespace(Lower(s)[i]) <==> IsWhitespace(s[i]))
    ensures forall i :: 0 <= i < |s| ==> (Lower(s)[i] == ',' <==> s[i] == ',')
  {
  }

  /** `x.trim().toLowerCase()` is already trimmed, and a leading space does
      not survive a second trim */
  lemma TrimSpaceLowerTrim(x: string)
    ensures Trim(" " + Lower(Trim(x))) == Lower(Trim(x))
  {
    var t := Trim(x);
    var l := Lower(t);
    LowerKeepsClasses(t);
    assert TrimStart(" " + l) == TrimStart(l) by {
      assert (" " + l)[1..] == l;
    }
    TrimStartOfTrimmed(l);
    TrimEndOfTrimmed(l);
  }

  lemma TrimLowerTrim(x: string)
    ensures Trim(Lower(Trim(x))) == Lower(Trim(x))
  {
    var l := Lower(Trim(x));
    LowerKeepsClasses(Trim(x));
    TrimStartOfTrimmed(l);
    TrimEndOfTrimmed(l);
  }
}
