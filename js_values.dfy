/** The slice of JavaScript value semantics that the catalog code relies on:
    truthiness, `||`, `??`, `String(v)`, `Number(v)`, `String.prototype.trim`,
    the `/\s+/g` whitespace collapse and `Array.prototype.join`. */
module JsValues {

  datatype Option<T> = None | Some(value: T)

  /** A database column or JSON field. Numbers are exact reals; NaN never
      comes out of the database, so it is not a `Value`. */
  datatype Value = Undefined | Null | Str(s: string) | Num(x: real)

  /** A JavaScript object with string keys: a database row or a JSON object. */
  type Row = map<string, Value>

  /** What a JavaScript expression that may throw evaluates to. */
  datatype Outcome<T> = Returned(value: T) | Threw(error: string)

  const TypeError := "TypeError"

  /** `obj.key`: a key the object lacks reads as `undefined`. */
  function Get(row: Row, key: string): Value {
    if key in row then row[key] else Undefined
  }

  predicate Truthy(v: Value) {
    match v
    case Undefined => false
    case Null => false
    case Str(s) => s != ""
    case Num(x) => x != 0.0
  }

  predicate Nullish(v: Value) {
    v.Undefined? || v.Null?
  }

  /** `a || b` */
  function OrElse(a: Value, b: Value): Value {
    if Truthy(a) then a else b
  }

  /** `a || null`, the way optional attributes are filled in. */
  function OrNull(a: Value): Value {
    OrElse(a, Null)
  }

  /** `a ?? b` */
  function Coalesce(a: Value, b: Value): Value {
    if Nullish(a) then b else a
  }

  // ---------------------------------------------------------------------
  // Decimal digits

  predicate IsDigit(c: char) {
    '0' <= c <= '9'
  }

  predicate AllDigits(s: string) {
    forall i :: 0 <= i < |s| ==> IsDigit(s[i])
  }

  function DigitChar(d: int): char
    requires 0 <= d <= 9
  {
    ('0' as int + d) as char
  }

  function DigitValue(c: char): nat
    requires IsDigit(c)
  {
    c as int - '0' as int
  }

  /** The decimal numeral of `n`, most significant digit first. */
  function IntText(n: nat): (t: string)
    ensures |t| > 0 && AllDigits(t)
  {
    if n < 10 then [DigitChar(n)] else IntText(n / 10) + [DigitChar(n % 10)]
  }

  /** The number a run of digits denotes. */
  function DigitsValue(ds: string): nat
    requires AllDigits(ds)
  {
    if ds == [] then 0 else DigitsValue(ds[..|ds| - 1]) * 10 + DigitValue(ds[|ds| - 1])
  }

  function Pow10(k: nat): (p: nat)
    ensures p >= 1
  {
    if k == 0 then 1 else 10 * Pow10(k - 1)
  }

  /** Reading a numeral back gives the number it was written from. */
  lemma {:induction false} IntTextValue(n: nat)
    ensures DigitsValue(IntText(n)) == n
  {
    if n >= 10 {
      var t := IntText(n);
      IntTextValue(n / 10);
      assert t[..|t| - 1] == IntText(n / 10);
    }
  }

  // ---------------------------------------------------------------------
  // String(v)

  /** `String(x)` for a number. Integers are exact; other numbers are written
      with at most twenty fraction digits. */
  function NumberText(x: real): string {
    if x < 0.0 then "-" + NonNegativeText(-x) else NonNegativeText(x)
  }

  function NonNegativeText(x: real): string
    requires x >= 0.0
  {
    var whole := x.Floor;
    var fraction := x - whole as real;
    IntText(whole) + (if fraction == 0.0 then "" else "." + FractionDigits(fraction, 20))
  }

  function FractionDigits(f: real, places: nat): string
    requires 0.0 <= f < 1.0
    decreases places
  {
    if places == 0 || f == 0.0 then ""
    else
      var d := (f * 10.0).Floor;
      [DigitChar(d)] + FractionDigits(f * 10.0 - d as real, places - 1)
  }

  /** `String(v)`, which is also what a template literal `${v}` produces. */
  function ToText(v: Value): string {
    match v
    case Undefined => "undefined"
    case Null => "null"
    case Str(s) => s
    case Num(x) => NumberText(x)
  }

  // ---------------------------------------------------------------------
  // Whitespace, trim and the /\s+/g collapse

  /** The characters JavaScript's `\s` and `trim` treat as white space. */
  predicate IsSpace(c: char) {
    var n := c as int;
    (0x09 <= n <= 0x0D) || n == 0x20 || n == 0xA0 || n == 0x1680
    || (0x2000 <= n <= 0x200A) || n == 0x2028 || n == 0x2029
    || n == 0x202F || n == 0x205F || n == 0x3000 || n == 0xFEFF
  }

  predicate NoSpace(s: string) {
    forall i :: 0 <= i < |s| ==> !IsSpace(s[i])
  }

  /** Neither end of `s` is white space. */
  predicate Trimmed(s: string) {
    s == [] || (!IsSpace(s[0]) && !IsSpace(s[|s| - 1]))
  }

  /** Every white-space character of `s` is a plain space, and no two of them
      are adjacent. */
  predicate SingleSpaced(s: string) {
    forall i :: 0 <= i < |s| && IsSpace(s[i]) ==> s[i] == ' ' && (i + 1 < |s| ==> !IsSpace(s[i + 1]))
  }

  function TrimStart(s: string): (r: string)
    ensures |r| <= |s| && r == s[|s| - |r|..]
    ensures r == [] || !IsSpace(r[0])
    ensures s != [] && IsSpace(s[0]) ==> |r| < |s|
  {
    if s != [] && IsSpace(s[0]) then TrimStart(s[1..]) else s
  }

  function TrimEnd(s: string): (r: string)
    ensures |r| <= |s| && r == s[..|r|]
    ensures r == [] || !IsSpace(r[|r| - 1])
  {
    if s != [] && IsSpace(s[|s| - 1]) then TrimEnd(s[..|s| - 1]) else s
  }

  /** The number of white-space characters at the start of `s`. */
  function LeadingSpace(s: string): (n: nat)
    ensures n <= |s|
  {
    if s != [] && IsSpace(s[0]) then 1 + LeadingSpace(s[1..]) else 0
  }

  /** The characters `LeadingSpace` counts are white space, and the next
      one is not. */
  lemma {:induction false} LeadingSpaceIsSpace(s: string)
    ensures forall i :: 0 <= i < LeadingSpace(s) ==> IsSpace(s[i])
    ensures LeadingSpace(s) < |s| ==> !IsSpace(s[LeadingSpace(s)])
  {
    if s != [] && IsSpace(s[0]) {
      LeadingSpaceIsSpace(s[1..]);
      assert forall i :: 1 <= i < |s| ==> s[i] == s[1..][i - 1];
    }
  }

  lemma {:induction false} TrimStartCut(s: string)
    ensures TrimStart(s) == s[LeadingSpace(s)..]
  {
    if s != [] && IsSpace(s[0]) {
      TrimStartCut(s[1..]);
      assert s[1..][LeadingSpace(s[1..])..] == s[1 + LeadingSpace(s[1..])..];
    }
  }

  /** `s.trim()` */
  function Trim(s: string): (r: string)
    ensures Trimmed(r)
  {
    var t := TrimEnd(TrimStart(s));
    assert t == [] || !IsSpace(t[0]) by {
      if t != [] {
        assert t[0] == TrimStart(s)[0];
      }
    }
    t
  }

  /** `trim` removes white space only: `Trim(s)` is the piece of `s` after
      its leading white space, and everything after that piece is white
      space too. */
  lemma TrimRemovesOnlySpace(s: string)
    ensures var a, r := LeadingSpace(s), Trim(s);
      && a + |r| <= |s| && r == s[a..a + |r|]
      && (forall i :: 0 <= i < a ==> IsSpace(s[i]))
      && (forall i :: a + |r| <= i < |s| ==> IsSpace(s[i]))
  {
    var a, u := LeadingSpace(s), TrimStart(s);
    TrimStartCut(s);
    assert u == s[a..];
    var t := TrimEnd(u);
    assert Trim(s) == t;
    assert t == u[..|t|] == s[a..a + |t|];
    LeadingSpaceIsSpace(s);
    TrimEndOnlySpace(u);
    SuffixSpaces(s, a, |t|);
  }

  lemma {:induction false} TrimEndOnlySpace(s: string)
    ensures forall i :: |TrimEnd(s)| <= i < |s| ==> IsSpace(s[i])
    decreases |s|
  {
    if s != [] && IsSpace(s[|s| - 1]) {
      var p := s[..|s| - 1];
      TrimEndOnlySpace(p);
      forall i | |TrimEnd(s)| <= i < |s|
        ensures IsSpace(s[i])
      {
        if i < |s| - 1 {
          assert s[i] == p[i];
        }
      }
    }
  }

  /** White space at the end of `s[a..]` is white space at the end of `s`. */
  lemma SuffixSpaces(s: string, a: nat, k: nat)
    requires a + k <= |s|
    requires forall i :: k <= i < |s[a..]| ==> IsSpace(s[a..][i])
    ensures forall i :: a + k <= i < |s| ==> IsSpace(s[i])
  {
    forall i | a + k <= i < |s|
      ensures IsSpace(s[i])
    {
      assert s[i] == s[a..][i - a];
    }
  }

  /** `s.replace(/\s+/g, ' ')`: every maximal run of white space becomes
      one plain space. */
  function CollapseSpaces(s: string): (r: string)
    ensures r == [] <==> s == []
    ensures r != [] && !IsSpace(s[0]) ==> r[0] == s[0]
    decreases |s|
  {
    if s == [] then []
    else if IsSpace(s[0]) then " " + CollapseSpaces(TrimStart(s))
    else [s[0]] + CollapseSpaces(s[1..])
  }

  lemma {:induction false} CollapseIsSingleSpaced(s: string)
    ensures SingleSpaced(CollapseSpaces(s))
    decreases |s|
  {
    if s != [] {
      if IsSpace(s[0]) {
        var t := TrimStart(s);
        CollapseIsSingleSpaced(t);
        var r := CollapseSpaces(s);
        assert r == " " + CollapseSpaces(t);
        forall i | 0 <= i < |r| && IsSpace(r[i])
          ensures r[i] == ' ' && (i + 1 < |r| ==> !IsSpace(r[i + 1]))
        {
          if i == 0 && 1 < |r| {
            assert r[1] == CollapseSpaces(t)[0] == t[0];
          } else if i > 0 {
            assert r[i] == CollapseSpaces(t)[i - 1];
          }
        }
      } else {
        CollapseIsSingleSpaced(s[1..]);
        var r := CollapseSpaces(s);
        assert r == [s[0]] + CollapseSpaces(s[1..]);
        forall i | 0 <= i < |r| && IsSpace(r[i])
          ensures r[i] == ' ' && (i + 1 < |r| ==> !IsSpace(r[i + 1]))
        {
          assert i > 0;
          assert r[i] == CollapseSpaces(s[1..])[i - 1];
        }
      }
    }
  }

  lemma SingleSpacedTail(s: string)
    requires s != [] && SingleSpaced(s)
    ensures SingleSpaced(s[1..])
  {
    var t := s[1..];
    forall i | 0 <= i < |t| && IsSpace(t[i])
      ensures t[i] == ' ' && (i + 1 < |t| ==> !IsSpace(t[i + 1]))
    {
      assert t[i] == s[i + 1];
      if i + 1 < |t| {
        assert t[i + 1] == s[i + 2];
      }
    }
  }

  /** In a single-spaced string a leading space is a lone plain space. */
  lemma SingleSpacedLead(s: string)
    requires s != [] && SingleSpaced(s) && IsSpace(s[0])
    ensures s[0] == ' ' && TrimStart(s) == s[1..]
  {
    var t := s[1..];
    assert t == [] || !IsSpace(t[0]) by {
      if t != [] {
        assert t[0] == s[1];
      }
    }
    TrimStartNoop(t);
  }

  /** A string that is already single-spaced is left as it is. */
  lemma {:induction false} CollapseFixesSingleSpaced(s: string)
    requires SingleSpaced(s)
    ensures CollapseSpaces(s) == s
    decreases |s|
  {
    if s != [] {
      var t := s[1..];
      SingleSpacedTail(s);
      CollapseFixesSingleSpaced(t);
      assert s == [s[0]] + t;
      if IsSpace(s[0]) {
        SingleSpacedLead(s);
        assert CollapseSpaces(s) == " " + CollapseSpaces(t);
      } else {
        assert CollapseSpaces(s) == [s[0]] + CollapseSpaces(t);
      }
    }
  }

  /** Cutting white space off the ends keeps a string single-spaced. */
  lemma {:induction false} TrimKeepsSingleSpaced(s: string)
    requires SingleSpaced(s)
    ensures SingleSpaced(Trim(s))
  {
    var a := TrimStart(s);
    var b := TrimEnd(a);
    var off := |s| - |a|;
    forall i | 0 <= i < |b| && IsSpace(b[i])
      ensures b[i] == ' ' && (i + 1 < |b| ==> !IsSpace(b[i + 1]))
    {
      assert b[i] == a[i] == s[off + i];
      if i + 1 < |b| {
        assert b[i + 1] == a[i + 1] == s[off + i + 1];
      }
    }
  }

  lemma {:induction false} TrimStartNoop(s: string)
    requires s == [] || !IsSpace(s[0])
    ensures TrimStart(s) == s
  {
  }

  /** Trimming a string whose ends are not white space changes nothing. */
  lemma {:induction false} TrimNoop(s: string)
    requires Trimmed(s)
    ensures Trim(s) == s
  {
    TrimStartNoop(s);
  }

  // ---------------------------------------------------------------------
  // Array.prototype.join

  /** `parts.join(sep)` */
  function Join(parts: seq<string>, sep: string): string {
    if |parts| == 0 then ""
    else if |parts| == 1 then parts[0]
    else parts[0] + sep + Join(parts[1..], sep)
  }

  /** Joining pieces that are all non-empty gives the empty string only when
      there are no pieces. */
  lemma {:induction false} JoinEmpty(parts: seq<string>, sep: string)
    ensures (forall i :: 0 <= i < |parts| ==> parts[i] != "") ==> (Join(parts, sep) == "" <==> parts == [])
  {
    if |parts| >= 2 {
      assert |Join(parts, sep)| >= |parts[0]|;
    }
  }

  /** A character in neither the pieces nor the separator is not in the
      joined string. */
  lemma {:induction false} JoinAvoids(parts: seq<string>, sep: string, c: char)
    requires c !in sep && forall i :: 0 <= i < |parts| ==> c !in parts[i]
    ensures c !in Join(parts, sep)
  {
    if |parts| >= 2 {
      JoinAvoids(parts[1..], sep, c);
      assert c !in parts[0];
    } else if |parts| == 1 {
      assert c !in parts[0];
    }
  }

  // ---------------------------------------------------------------------
  // Number(v)

  datatype Number = NaN | Finite(value: real)

  function Negate(n: Number): Number {
    match n
    case NaN => NaN
    case Finite(x) => Finite(-x)
  }

  /** The length of the run of digits at the start of `t`. */
  function DigitRun(t: string): (k: nat)
    ensures k <= |t| && AllDigits(t[..k])
    ensures k < |t| ==> !IsDigit(t[k])
  {
    if t != [] && IsDigit(t[0]) then
      var k := 1 + DigitRun(t[1..]);
      assert t[..k] == [t[0]] + t[1..][..k - 1];
      k
    else 0
  }

  /** The value of the digits after a decimal point. */
  function Fraction(ds: string): real
    requires AllDigits(ds)
  {
    DigitsValue(ds) as real / Pow10(|ds|) as real
  }

  /** An unsigned decimal literal: digits, optionally followed by a point and
      more digits, with at least one digit in all. */
  function ParseUnsigned(t: string): Number {
    var k := DigitRun(t);
    var whole := t[..k];
    var rest := t[k..];
    if rest == "" then
      if k == 0 then NaN else Finite(DigitsValue(whole) as real)
    else if rest[0] == '.' && AllDigits(rest[1..]) && (k > 0 || |rest| > 1) then
      Finite(DigitsValue(whole) as real + Fraction(rest[1..]))
    else NaN
  }

  /** `Number(s)` for a string: surrounding white space is ignored, the empty
      string is 0, and a signed decimal literal is its value. */
  function ParseNumeral(s: string): Number {
    var t := Trim(s);
    if t == "" then Finite(0.0)
    else if t[0] == '-' then Negate(ParseUnsigned(t[1..]))
    else if t[0] == '+' then ParseUnsigned(t[1..])
    else ParseUnsigned(t)
  }

  /** `Number(v)` */
  function ToNumber(v: Value): Number {
    match v
    case Undefined => NaN
    case Null => Finite(0.0)
    case Str(s) => ParseNumeral(s)
    case Num(x) => Finite(x)
  }

  /** `Number(v) || 0` */
  function NumberOrZero(v: Value): real {
    match ToNumber(v)
    case NaN => 0.0
    case Finite(x) => x
  }

  /** A numeral is read back as the number it denotes. */
  lemma ParseDigits(digits: string)
    requires digits != [] && AllDigits(digits)
    ensures ParseUnsigned(digits) == Finite(DigitsValue(digits) as real)
  {
    var k := DigitRun(digits);
    assert k == |digits|;
    assert digits[..k] == digits;
  }

  /** `String(m)` of a natural number is its numeral. */
  lemma IntegerText(m: nat)
    ensures NonNegativeText(m as real) == IntText(m)
  {
    assert (m as real).Floor == m;
  }

  /** An unsigned numeral is read as the number it denotes. */
  lemma ParseDigitsNumeral(digits: string)
    requires digits != [] && AllDigits(digits)
    ensures ParseNumeral(digits) == Finite(DigitsValue(digits) as real)
  {
    assert Trimmed(digits) by {
      assert IsDigit(digits[0]) && IsDigit(digits[|digits| - 1]);
    }
    TrimNoop(digits);
    ParseDigits(digits);
    assert IsDigit(digits[0]);
  }

  /** A minus sign followed by digits is read as the negated digits. */
  lemma ParseSigned(t: string)
    requires |t| >= 2 && t[0] == '-' && AllDigits(t[1..])
    ensures ParseNumeral(t) == Negate(ParseUnsigned(t[1..]))
  {
    assert Trimmed(t) by {
      assert t[|t| - 1] == t[1..][|t| - 2];
      assert IsDigit(t[|t| - 1]);
    }
    TrimNoop(t);
  }

  /** A numeral with a leading minus sign is read as the negated number. */
  lemma ParseNegativeNumeral(digits: string)
    requires digits != [] && AllDigits(digits)
    ensures ParseNumeral("-" + digits) == Finite(-(DigitsValue(digits) as real))
  {
    var t := "-" + digits;
    assert t[1..] == digits;
    ParseSigned(t);
    ParseDigits(digits);
  }

  /** `Number(String(n)) === n` for a natural number. */
  lemma NumeralRoundTrip(m: nat)
    ensures ToNumber(Str(ToText(Num(m as real)))) == Finite(m as real)
  {
    IntegerText(m);
    IntTextValue(m);
    ParseDigitsNumeral(IntText(m));
  }

  /** `Number(String(n)) === n` for a negative integer. */
  lemma NegativeNumeralRoundTrip(n: int)
    requires n < 0
    ensures ToNumber(Str(ToText(Num(n as real)))) == Finite(n as real)
  {
    var m: nat := -n;
    IntegerText(m);
    assert -(n as real) == m as real;
    assert ToText(Num(n as real)) == "-" + IntText(m);
    IntTextValue(m);
    ParseNegativeNumeral(IntText(m));
  }

  /** `Number(String(n)) === n` for every integer: the two coercions the
      catalog applies to identifiers and prices agree. */
  lemma {:induction false} NumberOfTextRoundTrip(n: int)
    ensures ToNumber(Str(ToText(Num(n as real)))) == Finite(n as real)
  {
    if n >= 0 {
      NumeralRoundTrip(n);
    } else {
      NegativeNumeralRoundTrip(n);
    }
  }

  // ---------------------------------------------------------------------
  // Counting one character

  function CountChar(s: string, c: char): nat {
    if s == [] then 0 else (if s[0] == c then 1 else 0) + CountChar(s[1..], c)
  }

  lemma {:induction false} CountCharAppend(a: string, b: string, c: char)
    ensures CountChar(a + b, c) == CountChar(a, c) + CountChar(b, c)
  {
    if a != [] {
      assert (a + b)[1..] == a[1..] + b;
      CountCharAppend(a[1..], b, c);
    } else {
      assert a + b == b;
    }
  }

  lemma {:induction false} CountCharAbsent(s: string, c: char)
    requires c !in s
    ensures CountChar(s, c) == 0
  {
    if s != [] {
      assert s[0] != c;
      assert c !in s[1..];
      CountCharAbsent(s[1..], c);
    }
  }
}
