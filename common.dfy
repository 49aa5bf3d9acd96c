// Shared vocabulary for the model: optional values, the Python string operations
// the scripts rely on (strip, lower/upper, substring search, zfill, split/join),
// decimal text <-> numbers, string ordering and the pandas "latest row" rule.
module Common {

  datatype Option<+T> = None | Some(value: T)

  datatype Result<+T> = Ok(value: T) | Err(error: string)

  // ---------------------------------------------------------------------------
  // Characters
  // ---------------------------------------------------------------------------

  predicate IsDigit(c: char) { '0' <= c <= '9' }

  predicate AllDigits(s: string) { forall i :: 0 <= i < |s| ==> IsDigit(s[i]) }

  /** The characters Python's str.isspace() accepts (and str.strip() removes). */
  predicate IsSpace(c: char)
  {
    c == ' ' || ('\t' <= c <= '\r') || ('\U{1C}' <= c <= '\U{1F}')
    || c == '\U{85}' || c == '\U{A0}' || c == '\U{1680}'
    || ('\U{2000}' <= c <= '\U{200A}') || c == '\U{2028}' || c == '\U{2029}'
    || c == '\U{202F}' || c == '\U{205F}' || c == '\U{3000}'
  }

  predicate IsAsciiAlnum(c: char)
  {
    IsDigit(c) || ('a' <= c <= 'z') || ('A' <= c <= 'Z')
  }

  function LowerChar(c: char): char
  {
    if 'A' <= c <= 'Z' then (c as int + 32) as char else c
  }

  function UpperChar(c: char): char
  {
    if 'a' <= c <= 'z' then (c as int - 32) as char else c
  }

  /** str.lower() on the ASCII letters. */
  function Lower(s: string): (r: string)
    ensures |r| == |s|
    ensures forall i :: 0 <= i < |s| ==> r[i] == LowerChar(s[i])
  {
    seq(|s|, i requires 0 <= i < |s| => LowerChar(s[i]))
  }

  /** str.upper() on the ASCII letters. */
  function Upper(s: string): (r: string)
    ensures |r| == |s|
    ensures forall i :: 0 <= i < |s| ==> r[i] == UpperChar(s[i])
  {
    seq(|s|, i requires 0 <= i < |s| => UpperChar(s[i]))
  }

  // ---------------------------------------------------------------------------
  // Strip, substring search, prefixes
  // ---------------------------------------------------------------------------

  function StripLeft(s: string): (r: string)
    ensures |r| <= |s| && r == s[|s| - |r|..]
    ensures forall i :: 0 <= i < |s| - |r| ==> IsSpace(s[i])
    ensures r == [] || !IsSpace(r[0])
  {
    if |s| > 0 && IsSpace(s[0]) then
      var r := StripLeft(s[1..]);
      assert s[1..][|s| - 1 - |r|..] == s[|s| - |r|..];
      r
    else s
  }

  function StripRight(s: string): (r: string)
    ensures |r| <= |s| && r == s[..|r|]
    ensures forall i :: |r| <= i < |s| ==> IsSpace(s[i])
    ensures r == [] || !IsSpace(r[|r| - 1])
  {
    if |s| > 0 && IsSpace(s[|s| - 1]) then StripRight(s[..|s| - 1]) else s
  }

  /** Lower-casing commutes with stripping blanks on the left. */
  lemma {:induction false} StripLeftLower(s: string)
    ensures StripLeft(Lower(s)) == Lower(StripLeft(s))
    decreases |s|
  {
    if |s| > 0 {
      if IsSpace(s[0]) {
        StripLeftLowerSpace(s);
        StripLeftLower(s[1..]);
      } else {
        StripLeftLowerText(s);
      }
    }
  }

  lemma StripLeftLowerSpace(s: string)
    requires |s| > 0 && IsSpace(s[0])
    ensures StripLeft(Lower(s)) == StripLeft(Lower(s[1..])) && StripLeft(s) == StripLeft(s[1..])
  {
    var u := Lower(s);
    assert u[0] == s[0];
    assert u[1..] == Lower(s[1..]);
  }

  lemma StripLeftLowerText(s: string)
    requires |s| > 0 && !IsSpace(s[0])
    ensures StripLeft(Lower(s)) == Lower(s) && StripLeft(s) == s
  {
    var u := Lower(s);
    assert u[0] == LowerChar(s[0]);
    assert !IsSpace(u[0]);
  }

  /** Lower-casing commutes with stripping blanks on the right. */
  lemma {:induction false} StripRightLower(s: string)
    ensures StripRight(Lower(s)) == Lower(StripRight(s))
    decreases |s|
  {
    if |s| > 0 {
      assert Lower(s)[|s| - 1] == LowerChar(s[|s| - 1]);
      if IsSpace(s[|s| - 1]) {
        assert Lower(s)[..|s| - 1] == Lower(s[..|s| - 1]);
        StripRightLower(s[..|s| - 1]);
      }
    }
  }

  /** Upper-casing a lower-cased text gives the upper-cased text. */
  lemma UpperLower(s: string)
    ensures Upper(Lower(s)) == Upper(s)
  {
  }

  /** str.strip(): drop leading and trailing whitespace. */
  function Strip(s: string): (r: string)
    ensures |r| <= |s|
    ensures r == [] || (!IsSpace(r[0]) && !IsSpace(r[|r| - 1]))
    ensures s == [] || (!IsSpace(s[0]) && !IsSpace(s[|s| - 1])) ==> r == s
  {
    StripRight(StripLeft(s))
  }

  /** Text without blanks at either end is its own strip. */
  lemma StripUnchanged(s: string)
    requires s == [] || (!IsSpace(s[0]) && !IsSpace(s[|s| - 1]))
    ensures Strip(s) == s
  {
  }

  /** `needle in hay` for Python strings. */
  predicate Contains(hay: string, needle: string)
    decreases |hay|
  {
    needle <= hay || (|hay| > 0 && Contains(hay[1..], needle))
  }

  /** The needle occurs in the hay starting at position i. */
  predicate OccursAt(hay: string, needle: string, i: nat)
  {
    i + |needle| <= |hay| && hay[i..i + |needle|] == needle
  }

  /** `needle in hay` holds iff the needle occurs at some position of the hay. */
  lemma {:induction false} ContainsAt(hay: string, needle: string)
    ensures Contains(hay, needle) <==> exists i: nat :: OccursAt(hay, needle, i)
    decreases |hay|
  {
    if needle <= hay {
      assert OccursAt(hay, needle, 0);
    } else if |hay| > 0 {
      ContainsAt(hay[1..], needle);
      if i: nat :| OccursAt(hay, needle, i) {
        assert i != 0;
        assert OccursAt(hay[1..], needle, i - 1) by {
          assert hay[1..][i - 1..i - 1 + |needle|] == hay[i..i + |needle|];
        }
      }
      if j: nat :| OccursAt(hay[1..], needle, j) {
        assert OccursAt(hay, needle, j + 1) by {
          assert j + 1 + |needle| <= |hay|;
          assert hay[1..][j..j + |needle|] == hay[j + 1..j + 1 + |needle|];
        }
      }
    } else {
      assert forall i: nat :: !OccursAt(hay, needle, i);
    }
  }

  /** Whatever occurs inside an occurring text occurs too. */
  lemma ContainsTrans(hay: string, mid: string, needle: string)
    requires Contains(hay, mid) && Contains(mid, needle)
    ensures Contains(hay, needle)
  {
    ContainsAt(hay, mid);
    ContainsAt(mid, needle);
    var i: nat :| OccursAt(hay, mid, i);
    var j: nat :| OccursAt(mid, needle, j);
    assert OccursAt(hay, needle, i + j) by {
      assert forall k :: 0 <= k < |mid| ==> mid[k] == hay[i + k];
      assert forall k :: 0 <= k < |needle| ==> needle[k] == mid[j + k];
      assert forall k :: 0 <= k < |needle| ==> hay[i + j..i + j + |needle|][k] == needle[k];
    }
    ContainsAt(hay, needle);
  }

  /** The needle occurs at position i of the hay. */
  lemma ContainsWitness(hay: string, needle: string, i: nat)
    requires OccursAt(hay, needle, i)
    ensures Contains(hay, needle)
  {
    ContainsAt(hay, needle);
  }

  /** The character c does not occur in s. */
  predicate Lacks(s: string, c: char) { forall i :: 0 <= i < |s| ==> s[i] != c }

  /** s.replace(c, "") for one character c. */
  function RemoveChar(s: string, c: char): (r: string)
    ensures |r| <= |s| && Lacks(r, c)
    ensures Lacks(s, c) ==> r == s
  {
    if s == [] then [] else (if s[0] == c then [] else [s[0]]) + RemoveChar(s[1..], c)
  }

  lemma {:induction false} RemoveCharAppend(a: string, b: string, c: char)
    ensures RemoveChar(a + b, c) == RemoveChar(a, c) + RemoveChar(b, c)
  {
    if a == [] {
      assert a + b == b;
    } else {
      var h := if a[0] == c then [] else [a[0]];
      var ab := a + b;
      assert ab[0] == a[0] && ab[1..] == a[1..] + b;
      RemoveCharAppend(a[1..], b, c);
      calc {
        RemoveChar(ab, c);
        h + RemoveChar(a[1..] + b, c);
        h + (RemoveChar(a[1..], c) + RemoveChar(b, c));
        (h + RemoveChar(a[1..], c)) + RemoveChar(b, c);
      }
    }
  }

  /** Index of the first occurrence of c, or |s| when there is none. */
  function FirstIndex(s: string, c: char): (i: nat)
    ensures i <= |s|
    ensures i < |s| ==> s[i] == c
    ensures forall j :: 0 <= j < i ==> s[j] != c
  {
    if |s| == 0 then 0 else if s[0] == c then 0 else 1 + FirstIndex(s[1..], c)
  }

  // ---------------------------------------------------------------------------
  // zfill
  // ---------------------------------------------------------------------------

  function Zeros(n: nat): (r: string)
    ensures |r| == n && forall i :: 0 <= i < n ==> r[i] == '0'
  {
    if n == 0 then "" else "0" + Zeros(n - 1)
  }

  /** str.zfill(width): left-pad with zeros, keeping a leading sign in front. */
  function ZFill(s: string, width: int): (r: string)
    ensures |r| == if |s| >= width then |s| else width
    ensures |s| >= width ==> r == s
    ensures |s| < width && (|s| == 0 || (s[0] != '+' && s[0] != '-')) ==>
              r[width - |s|..] == s && r[..width - |s|] == Zeros(width - |s|)
    ensures |s| < width && |s| > 0 && (s[0] == '+' || s[0] == '-') ==>
              r[0] == s[0] && r[width - |s| + 1..] == s[1..]
              && r[1..width - |s| + 1] == Zeros(width - |s|)
  {
    if |s| >= width then s
    else if |s| > 0 && (s[0] == '+' || s[0] == '-') then [s[0]] + Zeros(width - |s|) + s[1..]
    else Zeros(width - |s|) + s
  }

  lemma {:induction false} ZFillIdempotent(s: string, width: int)
    ensures ZFill(ZFill(s, width), width) == ZFill(s, width)
  {
    var r := ZFill(s, width);
    assert |r| >= width;
  }

  // ---------------------------------------------------------------------------
  // Decimal text
  // ---------------------------------------------------------------------------

  function DigitChar(d: nat): (c: char)
    requires d < 10
    ensures IsDigit(c) && c as int - '0' as int == d
  {
    ('0' as int + d) as char
  }

  function DigitValue(c: char): nat
    requires IsDigit(c)
  {
    c as int - '0' as int
  }

  /** str(n) for a natural number. */
  function NatStr(n: nat): (r: string)
    ensures |r| >= 1 && AllDigits(r)
    decreases n
  {
    if n < 10 then [DigitChar(n)] else NatStr(n / 10) + [DigitChar(n % 10)]
  }

  /** str(i) for an integer. */
  function IntStr(i: int): (r: string)
    ensures |r| >= 1
    ensures i >= 0 <==> AllDigits(r)
  {
    if i < 0 then
      var r := "-" + NatStr(-i);
      assert !IsDigit(r[0]);
      r
    else NatStr(i)
  }

  /** str(i) is made of digits and a leading minus sign only. */
  lemma IntStrChars(i: int)
    ensures forall k :: 0 <= k < |IntStr(i)| ==> IntStr(i)[k] == '-' || IsDigit(IntStr(i)[k])
  {
    if i < 0 {
      assert IntStr(i) == "-" + NatStr(-i);
    }
  }

  /** The number spelled by a string of decimal digits. */
  function DigitsValue(s: string): nat
    requires AllDigits(s)
  {
    if s == [] then 0 else 10 * DigitsValue(s[..|s| - 1]) + DigitValue(s[|s| - 1])
  }

  /** A non-empty run of decimal digits read as a number. */
  function ParseNat(s: string): (r: Option<nat>)
    ensures r.Some? <==> |s| > 0 && AllDigits(s)
  {
    if |s| > 0 && AllDigits(s) then Some(DigitsValue(s)) else None
  }

  lemma {:induction false} DigitsValueOfNatStr(n: nat)
    ensures DigitsValue(NatStr(n)) == n
    decreases n
  {
    if n >= 10 {
      var p := NatStr(n / 10);
      var s := p + [DigitChar(n % 10)];
      assert s[..|s| - 1] == p;
      DigitsValueOfNatStr(n / 10);
    }
  }

  /** Reading back what NatStr wrote gives the number back. */
  lemma ParseNatStr(n: nat)
    ensures ParseNat(NatStr(n)) == Some(n)
  {
    DigitsValueOfNatStr(n);
  }

  /** Decimal renderings of distinct numbers differ. */
  lemma NatStrInjective(a: nat, b: nat)
    requires NatStr(a) == NatStr(b)
    ensures a == b
  {
    ParseNatStr(a);
    ParseNatStr(b);
  }

  /** Python's int(text): surrounding whitespace, an optional sign, then digits. */
  function ParseInt(s: string): (r: Option<int>)
    ensures var t := Strip(s);
            r.Some? <==> (|t| > 0 && AllDigits(t))
                         || (|t| > 1 && (t[0] == '+' || t[0] == '-') && AllDigits(t[1..]))
  {
    var t := Strip(s);
    if |t| > 0 && (t[0] == '+' || t[0] == '-') then
      match ParseNat(t[1..])
      case None => None
      case Some(n) => Some(if t[0] == '-' then -(n as int) else n as int)
    else
      match ParseNat(t)
      case None => None
      case Some(n) => Some(n)
  }

  lemma ParseIntStr(i: int)
    ensures ParseInt(IntStr(i)) == Some(i)
  {
    var s := IntStr(i);
    if i < 0 {
      assert s == "-" + NatStr(-i);
      assert !IsSpace(s[0]) && !IsSpace(s[|s| - 1]);
      assert Strip(s) == s;
      assert s[1..] == NatStr(-i);
      ParseNatStr(-i);
    } else {
      assert !IsSpace(s[0]) && !IsSpace(s[|s| - 1]);
      assert Strip(s) == s;
      assert !(s[0] == '+' || s[0] == '-');
      ParseNatStr(i);
    }
  }

  function Pow10(k: nat): (r: real)
    ensures r >= 1.0
  {
    if k == 0 then 1.0 else 10.0 * Pow10(k - 1)
  }

  /** m * 10^k for a possibly negative exponent k. */
  function Scale(m: real, k: int): real
  {
    if k >= 0 then m * Pow10(k) else m / Pow10(-k)
  }

  /** Index of the first 'e' or 'E', or |s|. */
  function ExponentMark(s: string): (i: nat)
    ensures i <= |s|
    ensures i < |s| ==> s[i] == 'e' || s[i] == 'E'
    ensures forall j :: 0 <= j < i ==> s[j] != 'e' && s[j] != 'E'
  {
    if |s| == 0 then 0 else if s[0] == 'e' || s[0] == 'E' then 0 else 1 + ExponentMark(s[1..])
  }

  /** An optionally signed run of digits (the exponent of a float literal). */
  function ParseSignedDigits(s: string): Option<int>
  {
    if |s| > 0 && (s[0] == '+' || s[0] == '-') then
      match ParseNat(s[1..])
      case None => None
      case Some(n) => Some(if s[0] == '-' then -(n as int) else n as int)
    else
      match ParseNat(s)
      case None => None
      case Some(n) => Some(n)
  }

  /** digits [ '.' digits ] [ ('e'|'E') [sign] digits ] with at least one mantissa digit. */
  function ParseUnsignedDecimal(t: string): Option<real>
  {
    var e := ExponentMark(t);
    var mant := t[..e];
    var expo := if e < |t| then ParseSignedDigits(t[e + 1..]) else Some(0);
    var d := FirstIndex(mant, '.');
    var ip := mant[..d];
    var fp := if d < |mant| then mant[d + 1..] else [];
    if AllDigits(ip) && AllDigits(fp) && |ip| + |fp| > 0 && expo.Some? then
      assert AllDigits(ip + fp);
      Some(Scale(DigitsValue(ip + fp) as real, expo.value - |fp|))
    else None
  }

  /** Python's float(text) for finite decimal literals. */
  function ParseDecimal(s: string): Option<real>
  {
    var t := Strip(s);
    if |t| > 0 && (t[0] == '+' || t[0] == '-') then
      match ParseUnsignedDecimal(t[1..])
      case None => None
      case Some(v) => Some(if t[0] == '-' then -v else v)
    else ParseUnsignedDecimal(t)
  }

  lemma AllDigitsLacks(s: string, c: char)
    requires AllDigits(s) && !IsDigit(c)
    ensures FirstIndex(s, c) == |s|
  {
  }

  lemma UnsignedDecimalOfDigits(s: string)
    requires |s| > 0 && AllDigits(s)
    ensures ParseUnsignedDecimal(s) == Some(DigitsValue(s) as real)
  {
    var e := ExponentMark(s);
    assert e == |s|;
    var mant := s[..e];
    assert mant == s;
    AllDigitsLacks(s, '.');
    var fp: string := [];
    assert mant[..FirstIndex(mant, '.')] + fp == s;
    assert Scale(DigitsValue(s) as real, 0 - |fp|) == DigitsValue(s) as real;
  }

  /** float(str(n)) == n for a natural number. */
  lemma ParseDecimalNatStr(n: nat)
    ensures ParseDecimal(NatStr(n)) == Some(n as real)
  {
    var s := NatStr(n);
    assert !IsSpace(s[0]) && !IsSpace(s[|s| - 1]);
    assert Strip(s) == s;
    assert !(s[0] == '+' || s[0] == '-');
    UnsignedDecimalOfDigits(s);
    DigitsValueOfNatStr(n);
  }

  /** Unsigned text without surrounding blanks reads as the unsigned literal. */
  lemma ParseDecimalUnsigned(s: string)
    requires |s| > 0 && !IsSpace(s[0]) && !IsSpace(s[|s| - 1]) && s[0] != '+' && s[0] != '-'
    ensures ParseDecimal(s) == ParseUnsignedDecimal(s)
  {
    assert Strip(s) == s;
  }

  /** Digits, a point and digits read as the digit string scaled down by the fraction's length. */
  lemma UnsignedDecimalWithPoint(p: string, q: string)
    requires AllDigits(p) && AllDigits(q) && |p| + |q| > 0
    ensures AllDigits(p + q)
    ensures ParseUnsignedDecimal(p + "." + q) == Some(Scale(DigitsValue(p + q) as real, 0 - |q|))
  {
    var s := p + "." + q;
    assert forall j :: 0 <= j < |s| ==> s[j] == '.' || IsDigit(s[j]);
    var e := ExponentMark(s);
    assert e == |s|;
    assert s[..e] == s;
    assert s[|p|] == '.';
    assert forall j :: 0 <= j < |p| ==> s[j] == p[j];
    assert FirstIndex(s, '.') == |p|;
    assert s[..|p|] == p && s[|p| + 1..] == q;
  }

  /** 10^k as a natural number. */
  function TenPow(k: nat): nat
  {
    if k == 0 then 1 else 10 * TenPow(k - 1)
  }

  lemma {:induction false} TenPowReal(k: nat)
    ensures TenPow(k) as real == Pow10(k)
  {
    if k > 0 {
      TenPowReal(k - 1);
    }
  }

  /** Appending digits shifts the value of the first ones left by their count. */
  lemma {:induction false} DigitsValueAppend(p: string, q: string)
    requires AllDigits(p) && AllDigits(q)
    ensures AllDigits(p + q)
    ensures DigitsValue(p + q) == DigitsValue(p) * TenPow(|q|) + DigitsValue(q)
    decreases |q|
  {
    var s := p + q;
    if q == [] {
      assert s == p;
    } else {
      var q' := q[..|q| - 1];
      assert s[..|s| - 1] == p + q' && s[|s| - 1] == q[|q| - 1];
      DigitsValueAppend(p, q');
      var c := DigitValue(q[|q| - 1]);
      assert DigitsValue(s) == 10 * DigitsValue(p + q') + c;
      assert DigitsValue(q) == 10 * DigitsValue(q') + c;
      ShiftStep(DigitsValue(p + q'), DigitsValue(s), DigitsValue(q),
        DigitsValue(p), DigitsValue(q'), c, TenPow(|q'|), TenPow(|q|));
    }
  }

  /** One more digit: if x = a·w + b then 10x + c = a·(10w) + (10b + c). */
  lemma ShiftStep(x: int, y: int, z: int, a: int, b: int, c: int, w: int, w': int)
    requires x == a * w + b && y == 10 * x + c && z == 10 * b + c && w' == 10 * w
    ensures y == a * w' + z
  {
  }

  /** A run of k digits spells less than 10^k. */
  lemma {:induction false} DigitsValueBelow(q: string)
    requires AllDigits(q)
    ensures DigitsValue(q) < TenPow(|q|)
    decreases |q|
  {
    if q != [] {
      DigitsValueBelow(q[..|q| - 1]);
    }
  }

  /** Multiplying by a non-negative number keeps order. */
  lemma MulMonotone(a: real, u: real, v: real)
    requires a >= 0.0 && u <= v
    ensures a * u <= a * v
  {
  }

  /** (a·t + b) / t has whole part a when 0 <= b < t. */
  lemma WholePart(n: int, a: int, b: int, t: int, w: real)
    requires n == a * t + b && 0 <= b < t && t as real == w
    ensures a as real <= n as real / w < a as real + 1.0
  {
    var x, y := a as real, b as real;
    assert (a * t) as real == x * w;
    assert n as real == x * w + y;
    assert w * (x + 1.0) == w * x + w;
    QuotientAtLeast(n as real, w, x);
    QuotientBelow(n as real, w, x + 1.0);
  }

  lemma ScaleDown(m: real, k: nat)
    ensures Scale(m, 0 - k) == m / Pow10(k)
  {
  }

  /**
   * float("p.q") for digit runs p and q: its whole part is the number p spells,
   * so `astype(int)` keeps p and drops the fraction.
   */
  lemma DecimalWholePart(p: string, q: string)
    requires |p| > 0 && AllDigits(p) && AllDigits(q)
    ensures ParseDecimal(p + "." + q).Some?
    ensures DigitsValue(p) as real <= ParseDecimal(p + "." + q).value < DigitsValue(p) as real + 1.0
  {
    DecimalWithPoint(p, q);
    DigitsValueAppend(p, q);
    DigitsValueBelow(q);
    TenPowReal(|q|);
    WholePart(DigitsValue(p + q), DigitsValue(p), DigitsValue(q), TenPow(|q|), Pow10(|q|));
  }

  /** float("p.q") is the digits of p and q together divided by 10 to the length of q. */
  lemma DecimalWithPoint(p: string, q: string)
    requires |p| > 0 && AllDigits(p) && AllDigits(q)
    ensures AllDigits(p + q)
    ensures ParseDecimal(p + "." + q) == Some(DigitsValue(p + q) as real / Pow10(|q|))
  {
    var s := p + "." + q;
    UnsignedDecimalWithPoint(p, q);
    assert s[0] == p[0];
    assert IsDigit(s[|s| - 1]) || s[|s| - 1] == '.';
    ParseDecimalUnsigned(s);
    ScaleDown(DigitsValue(p + q) as real, |q|);
  }

  /** Leading zeros do not change the number a digit string spells. */
  lemma {:induction false} ZerosPrefixValue(n: nat, s: string)
    requires AllDigits(s)
    ensures AllDigits(Zeros(n) + s) && DigitsValue(Zeros(n) + s) == DigitsValue(s)
    decreases |s|
  {
    var z := Zeros(n);
    if s == [] {
      assert z + s == z;
      ZerosValue(n);
    } else {
      var t := z + s;
      assert t[..|t| - 1] == z + s[..|s| - 1];
      ZerosPrefixValue(n, s[..|s| - 1]);
    }
  }

  /** Zero-padding a digit string keeps the number it spells. */
  lemma ZFillDigits(s: string, width: int)
    requires |s| > 0 && AllDigits(s)
    ensures var p := ZFill(s, width);
            AllDigits(p) && DigitsValue(p) == DigitsValue(s)
  {
    if |s| < width {
      var z := Zeros(width - |s|);
      assert IsDigit(s[0]);
      assert ZFill(s, width) == z + s;
      ZerosPrefixValue(width - |s|, s);
    } else {
      assert ZFill(s, width) == s;
    }
  }

  lemma {:induction false} ZerosValue(n: nat)
    ensures AllDigits(Zeros(n)) && DigitsValue(Zeros(n)) == 0
  {
    if n > 0 {
      var z := Zeros(n);
      assert z[..|z| - 1] == Zeros(n - 1);
      ZerosValue(n - 1);
    }
  }

  // ---------------------------------------------------------------------------
  // split / join
  // ---------------------------------------------------------------------------

  /** str.split(sep) for a one-character separator. */
  function Split(s: string, sep: char): (parts: seq<string>)
    ensures |parts| >= 1
    ensures forall i :: 0 <= i < |parts| ==> Lacks(parts[i], sep)
    decreases |s|
  {
    var i := FirstIndex(s, sep);
    if i == |s| then [s] else [s[..i]] + Split(s[i + 1..], sep)
  }

  /** sep.join(parts). */
  function Join(parts: seq<string>, sep: string): string
  {
    if |parts| == 0 then ""
    else if |parts| == 1 then parts[0]
    else parts[0] + sep + Join(parts[1..], sep)
  }

  /** Splitting a join on a separator no part contains gives the parts back. */
  lemma {:induction false} SplitJoin(parts: seq<string>, sep: char)
    requires |parts| >= 1
    requires forall i :: 0 <= i < |parts| ==> Lacks(parts[i], sep)
    ensures Split(Join(parts, [sep]), sep) == parts
    decreases |parts|
  {
    if |parts| == 1 {
      assert FirstIndex(parts[0], sep) == |parts[0]|;
    } else {
      var a := parts[0];
      var rest := Join(parts[1..], [sep]);
      var s := a + [sep] + rest;
      assert Join(parts, [sep]) == s;
      var i := FirstIndex(s, sep);
      assert s[|a|] == sep;
      assert i == |a|;
      assert s[..i] == a;
      assert s[i + 1..] == rest;
      SplitJoin(parts[1..], sep);
    }
  }

  /** A separator-free head is the first part, and the rest is split on its own. */
  lemma SplitHead(a: string, b: string, sep: char)
    requires Lacks(a, sep)
    ensures Split(a + [sep] + b, sep) == [a] + Split(b, sep)
  {
    var s := a + [sep] + b;
    assert s[|a|] == sep;
    assert forall j :: 0 <= j < |a| ==> s[j] == a[j];
    assert FirstIndex(s, sep) == |a|;
    assert s[..|a|] == a && s[|a| + 1..] == b;
  }

  /** The last part of a split is the text after the last separator. */
  lemma {:induction false} SplitLast(b: string, c: string, sep: char)
    requires Lacks(c, sep)
    ensures var p := Split(b + [sep] + c, sep); p[|p| - 1] == c
    decreases |b|
  {
    var s := b + [sep] + c;
    SplitWhole(c, sep);
    if Lacks(b, sep) {
      SplitHead(b, c, sep);
      ConsEnds(b, [c]);
    } else {
      var i := FirstIndex(b, sep);
      var b0, b1 := b[..i], b[i + 1..];
      assert b == b0 + [sep] + b1;
      RegroupJoined(b0, b1, c, sep);
      SplitHead(b0, b1 + [sep] + c, sep);
      SplitLast(b1, c, sep);
      ConsEnds(b0, Split(b1 + [sep] + c, sep));
    }
  }

  /** Text without the separator splits into itself. */
  lemma SplitWhole(c: string, sep: char)
    requires Lacks(c, sep)
    ensures Split(c, sep) == [c]
  {
    assert FirstIndex(c, sep) == |c|;
  }

  lemma SplitOuter(a: string, t: string, l: string, sep: char)
    requires Lacks(a, sep) && Lacks(l, sep)
    ensures var p := Split(a + [sep] + t + [sep] + l, sep); p[0] == a && p[|p| - 1] == l
  {
    var rest := t + [sep] + l;
    RegroupJoined(a, t, l, sep);
    SplitHead(a, rest, sep);
    SplitLast(t, l, sep);
    ConsEnds(a, Split(rest, sep));
  }

  lemma RegroupJoined(a: string, t: string, l: string, sep: char)
    ensures a + [sep] + t + [sep] + l == a + [sep] + (t + [sep] + l)
  {
  }

  lemma ConsEnds(a: string, r: seq<string>)
    requires |r| >= 1
    ensures var p := [a] + r; p[0] == a && p[|p| - 1] == r[|r| - 1]
  {
  }

  // ---------------------------------------------------------------------------
  // String ordering (Python compares strings by code point, a prefix first)
  // ---------------------------------------------------------------------------

  predicate LexLe(a: string, b: string)
  {
    a == [] || (b != [] && (a[0] < b[0] || (a[0] == b[0] && LexLe(a[1..], b[1..]))))
  }

  lemma {:induction false} LexLeTotal(a: string, b: string)
    ensures LexLe(a, b) || LexLe(b, a)
  {
    if a != [] && b != [] && a[0] == b[0] {
      LexLeTotal(a[1..], b[1..]);
    }
  }

  lemma {:induction false} LexLeTransitive(a: string, b: string, c: string)
    requires LexLe(a, b) && LexLe(b, c)
    ensures LexLe(a, c)
  {
    if a != [] && b != [] && c != [] && a[0] == b[0] && b[0] == c[0] {
      LexLeTransitive(a[1..], b[1..], c[1..]);
    }
  }

  lemma {:induction false} LexLeAntisymmetric(a: string, b: string)
    requires LexLe(a, b) && LexLe(b, a)
    ensures a == b
  {
    if a != [] && b != [] {
      LexLeAntisymmetric(a[1..], b[1..]);
      assert a == [a[0]] + a[1..];
      assert b == [b[0]] + b[1..];
    }
  }

  // ---------------------------------------------------------------------------
  // Filtering (a boolean mask over rows, `[x for x in s if p(x)]`)
  // ---------------------------------------------------------------------------

  function Filter<T(!new)>(s: seq<T>, p: T -> bool): (r: seq<T>)
    ensures |r| <= |s|
    ensures forall x {:trigger x in r} :: x in r <==> x in s && p(x)
  {
    if s == [] then []
    else (if p(s[0]) then [s[0]] else []) + Filter(s[1..], p)
  }

  /** Filtering a concatenation filters each part. */
  lemma {:induction false} FilterAppend<T(!new)>(a: seq<T>, b: seq<T>, p: T -> bool)
    ensures Filter(a + b, p) == Filter(a, p) + Filter(b, p)
    decreases |a|
  {
    if a == [] {
      assert a + b == b;
    } else {
      var head := if p(a[0]) then [a[0]] else [];
      assert (a + b)[0] == a[0] && (a + b)[1..] == a[1..] + b;
      FilterAppend(a[1..], b, p);
      calc {
        Filter(a + b, p);
        head + Filter(a[1..] + b, p);
        head + (Filter(a[1..], p) + Filter(b, p));
        (head + Filter(a[1..], p)) + Filter(b, p);
      }
    }
  }

  /** Two filters in a row are one filter on the conjunction (`df[m1][m2]`). */
  lemma {:induction false} FilterFilter<T(!new)>(s: seq<T>, p: T -> bool, q: T -> bool, both: T -> bool)
    requires forall x :: both(x) == (p(x) && q(x))
    ensures Filter(Filter(s, p), q) == Filter(s, both)
    decreases |s|
  {
    if s != [] {
      var head := if p(s[0]) then [s[0]] else [];
      FilterAppend(head, Filter(s[1..], p), q);
      FilterFilter(s[1..], p, q, both);
    }
  }

  /** A filter that every element passes keeps the sequence as it is. */
  lemma {:induction false} FilterAll<T(!new)>(s: seq<T>, p: T -> bool)
    requires forall x :: x in s ==> p(x)
    ensures Filter(s, p) == s
    decreases |s|
  {
    if s != [] {
      assert forall x :: x in s[1..] ==> x in s;
      FilterAll(s[1..], p);
    }
  }

  /** A stronger filter keeps no more elements. */
  lemma {:induction false} FilterImplies<T(!new)>(s: seq<T>, p: T -> bool, q: T -> bool)
    requires forall x :: p(x) ==> q(x)
    ensures |Filter(s, p)| <= |Filter(s, q)|
    decreases |s|
  {
    if s != [] {
      FilterImplies(s[1..], p, q);
    }
  }

  /** `s[mask]` for a boolean mask of the same length: the elements whose entry is true, in order. */
  /** Applies `f` to every element in order; the first error stops the whole. */
  function MapAll<A, B>(xs: seq<A>, f: A -> Result<B>): (r: Result<seq<B>>)
    ensures r.Ok? ==> |r.value| == |xs| && forall k :: 0 <= k < |xs| ==> f(xs[k]) == Ok(r.value[k])
    ensures r.Err? <==> exists k :: 0 <= k < |xs| && f(xs[k]).Err?
  {
    if xs == [] then Ok([])
    else
      assert forall k :: 1 <= k < |xs| ==> xs[k] == xs[1..][k - 1];
      match f(xs[0])
      case Err(e) => Err(e)
      case Ok(y) =>
        match MapAll(xs[1..], f)
        case Err(e) => Err(e)
        case Ok(rest) => Ok([y] + rest)
  }

  /** A filter keeps every element iff the test holds throughout. */
  lemma {:induction false} FilterFull<T(!new)>(s: seq<T>, p: T -> bool)
    ensures |Filter(s, p)| == |s| <==> forall x :: x in s ==> p(x)
    decreases |s|
  {
    if s != [] {
      FilterFull(s[1..], p);
      assert forall x :: x in s <==> x == s[0] || x in s[1..];
      assert |Filter(s[1..], p)| <= |s[1..]|;
    }
  }

  /** `unique()`: the distinct elements, in order of first appearance. */
  function Unique<T(==,!new)>(s: seq<T>): (r: seq<T>)
    ensures forall x :: x in r <==> x in s
    ensures forall i, j :: 0 <= i < j < |r| ==> r[i] != r[j]
    ensures |r| <= |s|
  {
    if s == [] then []
    else
      var u := Unique(s[..|s| - 1]);
      assert forall x :: x in s <==> x in s[..|s| - 1] || x == s[|s| - 1];
      if s[|s| - 1] in u then u else u + [s[|s| - 1]]
  }

  function Select<T>(s: seq<T>, mask: seq<bool>): (r: seq<T>)
    requires |mask| == |s|
    ensures |r| <= |s|
  {
    if s == [] then [] else (if mask[0] then [s[0]] else []) + Select(s[1..], mask[1..])
  }

  /** Selecting by the mask of a predicate is filtering by the predicate. */
  lemma {:induction false} SelectFilter<T(!new)>(s: seq<T>, mask: seq<bool>, p: T -> bool)
    requires |mask| == |s|
    requires forall i :: 0 <= i < |s| ==> mask[i] == p(s[i])
    ensures Select(s, mask) == Filter(s, p)
    decreases |s|
  {
    if s != [] {
      assert forall i :: 0 <= i < |s| - 1 ==> mask[1..][i] == mask[i + 1] && s[1..][i] == s[i + 1];
      SelectFilter(s[1..], mask[1..], p);
    }
  }

  /** The present results of f over s, in order (`dropna` after a coercing map). */
  function Collect<A, B>(s: seq<A>, f: A -> Option<B>): (r: seq<B>)
    ensures |r| <= |s|
  {
    if s == [] then []
    else Collect(s[..|s| - 1], f) + (match f(s[|s| - 1]) case None => [] case Some(y) => [y])
  }

  /** y is collected iff f gives it for some element. */
  lemma {:induction false} CollectMembers<A, B>(s: seq<A>, f: A -> Option<B>, y: B)
    ensures y in Collect(s, f) <==> exists i :: 0 <= i < |s| && f(s[i]) == Some(y)
  {
    if s != [] {
      var init := s[..|s| - 1];
      CollectMembers(init, f, y);
      var own := match f(s[|s| - 1]) case None => [] case Some(z) => [z];
      assert Collect(s, f) == Collect(init, f) + own;
      if y in Collect(init, f) {
        var i :| 0 <= i < |init| && f(init[i]) == Some(y);
        assert s[i] == init[i];
      }
      if i :| 0 <= i < |s| && f(s[i]) == Some(y) {
        if i < |init| {
          assert init[i] == s[i];
        } else {
          assert y in own;
        }
      }
    }
  }

  /** The multiset of a non-empty sequence splits off its last element. */
  lemma MultisetSnoc<T>(s: seq<T>)
    requires s != []
    ensures multiset(s) == multiset(s[..|s| - 1]) + multiset{s[|s| - 1]}
  {
    assert s == s[..|s| - 1] + [s[|s| - 1]];
  }

  /** One more element collected: what a loop appending f's present results adds per step. */
  lemma CollectSnoc<A, B>(s: seq<A>, f: A -> Option<B>, i: int)
    requires 0 <= i < |s|
    ensures Collect(s[..i + 1], f) == Collect(s[..i], f) + (match f(s[i]) case None => [] case Some(y) => [y])
  {
    assert s[..i + 1][..i] == s[..i];
  }

  /** When f gives a result for every element, the i-th result is f's result for the i-th element. */
  lemma {:induction false} CollectTotal<A, B>(s: seq<A>, f: A -> Option<B>)
    requires forall i :: 0 <= i < |s| ==> f(s[i]).Some?
    ensures |Collect(s, f)| == |s|
    ensures forall i :: 0 <= i < |s| ==> f(s[i]) == Some(Collect(s, f)[i])
  {
    if s != [] {
      var init := s[..|s| - 1];
      assert forall i :: 0 <= i < |init| ==> init[i] == s[i];
      CollectTotal(init, f);
    }
  }

  // ---------------------------------------------------------------------------
  // Numbers
  // ---------------------------------------------------------------------------

  /** int(x) for a float: truncation toward zero. */
  function Trunc(x: real): (n: int)
    ensures x >= 0.0 ==> 0 <= n && n as real <= x < n as real + 1.0
    ensures x < 0.0 ==> n <= 0 && n as real - 1.0 < x <= n as real
  {
    if x >= 0.0 then x.Floor else -((-x).Floor)
  }

  /** A non-negative x between n and n + 1 truncates to n. */
  lemma TruncOfWhole(x: real, n: int)
    requires 0 <= n && n as real <= x < n as real + 1.0
    ensures Trunc(x) == n
  {
    var m := Trunc(x);
    assert m as real <= x < n as real + 1.0 && n as real <= x < m as real + 1.0;
  }

  /** round(x) for a float: to the nearest integer, ties to the even one. */
  function RoundHalfEven(x: real): (n: int)
    ensures x - 0.5 <= n as real <= x + 0.5
    ensures (n as real == x - 0.5 || n as real == x + 0.5) ==> n % 2 == 0
  {
    var f := x.Floor;
    var d := x - f as real;
    if d < 0.5 then f
    else if d > 0.5 then f + 1
    else if f % 2 == 0 then f else f + 1
  }

  function Abs(x: real): (r: real)
    ensures r >= 0.0 && (r == x || r == -x)
  {
    if x < 0.0 then -x else x
  }

  function Min(a: real, b: real): real { if a <= b then a else b }

  function Max(a: real, b: real): real { if a >= b then a else b }

  /** min() and max() of a non-empty list. */
  function MinOf(v: seq<real>): (m: real)
    requires v != []
    ensures m in v && forall i :: 0 <= i < |v| ==> m <= v[i]
  {
    if |v| == 1 then v[0]
    else
      var m := MinOf(v[..|v| - 1]);
      if v[|v| - 1] < m then v[|v| - 1] else m
  }

  function MaxOf(v: seq<real>): (m: real)
    requires v != []
    ensures m in v && forall i :: 0 <= i < |v| ==> v[i] <= m
  {
    if |v| == 1 then v[0]
    else
      var m := MaxOf(v[..|v| - 1]);
      if v[|v| - 1] > m then v[|v| - 1] else m
  }

  /** sum() of a list of numbers. */
  function Sum(v: seq<real>): real
  {
    if v == [] then 0.0 else Sum(v[..|v| - 1]) + v[|v| - 1]
  }

  /** A sum of non-negative terms is non-negative. */
  lemma {:induction false} SumNonNegative(v: seq<real>)
    requires forall i :: 0 <= i < |v| ==> v[i] >= 0.0
    ensures Sum(v) >= 0.0
  {
    if v != [] {
      SumNonNegative(v[..|v| - 1]);
    }
  }

  /** Each entry divided by `total`. */
  function Normalize(v: seq<real>, total: real): (r: seq<real>)
    requires total != 0.0
    ensures |r| == |v| && forall i :: 0 <= i < |v| ==> r[i] == v[i] / total
  {
    if v == [] then [] else Normalize(v[..|v| - 1], total) + [v[|v| - 1] / total]
  }

  /** Dividing every entry by the total divides their sum by it. */
  lemma {:induction false} SumNormalize(v: seq<real>, total: real)
    requires total != 0.0
    ensures Sum(Normalize(v, total)) == Sum(v) / total
  {
    if v != [] {
      var init := v[..|v| - 1];
      SumNormalize(init, total);
      assert Normalize(v, total)[..|v| - 1] == Normalize(init, total);
      assert Normalize(v, total) == Normalize(init, total) + [v[|v| - 1] / total];
      DivAdd(Sum(init), v[|v| - 1], total);
    }
  }

  lemma DivAdd(a: real, b: real, t: real)
    requires t != 0.0
    ensures (a + b) / t == a / t + b / t
  {
    assert (a / t) * t == a && (b / t) * t == b;
    assert (a / t + b / t) * t == a + b;
  }

  /** The mean of a series (`Series.mean()`, `ndarray.mean()`): NaN (`None`) for an empty series. */
  function Mean(v: seq<real>): (r: Option<real>)
    ensures r.None? <==> v == []
  {
    if v == [] then None else Some(Sum(v) / |v| as real)
  }

  /** A total between n*lo and n*hi, divided by n > 0, lies between lo and hi. */
  lemma DivideBetween(sum: real, n: real, lo: real, hi: real)
    requires n > 0.0 && n * lo <= sum <= n * hi
    ensures lo <= sum / n <= hi
  {
  }

  /** (series * weights).sum() */
  function Dot(v: seq<real>, w: seq<real>): real
    requires |v| == |w|
  {
    if v == [] then 0.0 else Dot(v[..|v| - 1], w[..|w| - 1]) + v[|v| - 1] * w[|w| - 1]
  }

  lemma {:induction false} DotAtLeast(v: seq<real>, w: seq<real>, lo: real)
    requires |v| == |w|
    requires forall i :: 0 <= i < |v| ==> lo <= v[i] && 0.0 <= w[i]
    ensures lo * Sum(w) <= Dot(v, w)
    decreases |v|
  {
    if v != [] {
      var n := |v| - 1;
      var iv, iw := v[..n], w[..n];
      DotAtLeast(iv, iw, lo);
      DotStep(v, w);
      StepAtLeast(Dot(v, w), Sum(w), Dot(iv, iw), Sum(iw), v[n], w[n], lo);
    }
  }

  lemma {:induction false} DotAtMost(v: seq<real>, w: seq<real>, hi: real)
    requires |v| == |w|
    requires forall i :: 0 <= i < |v| ==> v[i] <= hi && 0.0 <= w[i]
    ensures Dot(v, w) <= hi * Sum(w)
    decreases |v|
  {
    if v != [] {
      var n := |v| - 1;
      var iv, iw := v[..n], w[..n];
      DotAtMost(iv, iw, hi);
      DotStep(v, w);
      StepAtMost(Dot(v, w), Sum(w), Dot(iv, iw), Sum(iw), v[n], w[n], hi);
    }
  }

  lemma {:induction false} DotStep(v: seq<real>, w: seq<real>)
    requires |v| == |w| && v != []
    ensures Sum(w) == Sum(w[..|w| - 1]) + w[|w| - 1]
    ensures Dot(v, w) == Dot(v[..|v| - 1], w[..|w| - 1]) + v[|v| - 1] * w[|w| - 1]
  {
  }

  /** One more weighted value at least lo keeps the weighted total at least lo times the total weight. */
  lemma StepAtLeast(dot: real, sum: real, a: real, s: real, x: real, w: real, lo: real)
    requires dot == a + x * w && sum == s + w
    requires lo * s <= a && lo <= x && 0.0 <= w
    ensures lo * sum <= dot
  {
    assert lo * w <= x * w;
    assert lo * sum == lo * s + lo * w;
  }

  lemma StepAtMost(dot: real, sum: real, a: real, s: real, x: real, w: real, hi: real)
    requires dot == a + x * w && sum == s + w
    requires a <= hi * s && x <= hi && 0.0 <= w
    ensures dot <= hi * sum
  {
    assert x * w <= hi * w;
    assert hi * sum == hi * s + hi * w;
  }

  /** With non-negative weights of positive total, the weighted mean of values in [lo, hi] lies in [lo, hi]. */
  lemma WeightedMeanBetween(v: seq<real>, w: seq<real>, lo: real, hi: real)
    requires |v| == |w| && Sum(w) > 0.0
    requires forall i :: 0 <= i < |v| ==> lo <= v[i] <= hi && 0.0 <= w[i]
    ensures lo <= Dot(v, w) / Sum(w) <= hi
  {
    WeightedMeanAtLeast(v, w, lo);
    WeightedMeanAtMost(v, w, hi);
  }

  lemma {:induction false} WeightedMeanAtLeast(v: seq<real>, w: seq<real>, lo: real)
    requires |v| == |w| && Sum(w) > 0.0
    requires forall i :: 0 <= i < |v| ==> lo <= v[i] && 0.0 <= w[i]
    ensures lo <= Dot(v, w) / Sum(w)
  {
    DotAtLeast(v, w, lo);
    QuotientAtLeast(Dot(v, w), Sum(w), lo);
  }

  lemma {:induction false} WeightedMeanAtMost(v: seq<real>, w: seq<real>, hi: real)
    requires |v| == |w| && Sum(w) > 0.0
    requires forall i :: 0 <= i < |v| ==> v[i] <= hi && 0.0 <= w[i]
    ensures Dot(v, w) / Sum(w) <= hi
  {
    DotAtMost(v, w, hi);
    QuotientAtMost(Dot(v, w), Sum(w), hi);
  }

  /** 100 * d / n for 0 <= d <= n is a percentage: 0 exactly for d = 0 and 100 exactly for d = n. */
  lemma PercentBounds(d: real, n: real)
    requires 0.0 <= d <= n && n > 0.0
    ensures 0.0 <= 100.0 * d / n <= 100.0
    ensures 100.0 * d / n == 0.0 <==> d == 0.0
    ensures 100.0 * d / n == 100.0 <==> d == n
  {
    var p := 100.0 * d / n;
    assert p * n == 100.0 * d;
    DivideBetween(100.0 * d, n, 0.0, 100.0);
    if p == 100.0 {
      assert 100.0 * n == 100.0 * d;
    }
    if p == 0.0 {
      assert 0.0 * n == 100.0 * d;
    }
    if d == n {
      SelfQuotient(100.0, n);
    }
  }

  lemma QuotientTimes(a: real, n: real, k: real)
    requires n > 0.0
    ensures a / n * k == k * a / n
  {
  }

  lemma SelfQuotient(a: real, n: real)
    requires n > 0.0
    ensures a * n / n == a
  {
  }

  lemma QuotientAtLeast(sum: real, n: real, lo: real)
    requires n > 0.0 && lo * n <= sum
    ensures lo <= sum / n
  {
    DivideBetween(sum, n, lo, sum / n);
  }

  lemma QuotientBelow(sum: real, n: real, hi: real)
    requires n > 0.0 && sum < n * hi
    ensures sum / n < hi
  {
  }

  lemma QuotientAtMost(sum: real, n: real, hi: real)
    requires n > 0.0 && sum <= hi * n
    ensures sum / n <= hi
  {
    DivideBetween(sum, n, sum / n, hi);
  }

  /** np.clip / Series.clip to [lo, hi]. */
  function Clip(x: real, lo: real, hi: real): (r: real)
    requires lo <= hi
    ensures lo <= r <= hi
    ensures lo <= x <= hi ==> r == x
  {
    if x < lo then lo else if x > hi then hi else x
  }

  // ---------------------------------------------------------------------------
  // pandas: df.sort_values(col).iloc[-1]
  // ---------------------------------------------------------------------------

  /**
   * The row `df.sort_values(col).iloc[-1]` selects, given the column's values.
   * Missing values sort last, so a row with a missing key wins when there is one
   * (the last such row); otherwise the last row holding the greatest key.
   */
  function LatestIndex(keys: seq<Option<int>>): (i: nat)
    requires |keys| > 0
    ensures i < |keys|
    ensures keys[i].None? <==> exists j :: 0 <= j < |keys| && keys[j].None?
    ensures keys[i].None? ==> forall j :: i < j < |keys| ==> keys[j].Some?
    ensures keys[i].Some? ==>
              forall j :: 0 <= j < |keys| ==> keys[j].Some? && keys[j].value <= keys[i].value
    ensures keys[i].Some? ==> forall j :: i < j < |keys| ==> keys[j].value < keys[i].value
  {
    if |keys| == 1 then 0
    else
      var p := LatestIndex(keys[..|keys| - 1]);
      var last := keys[|keys| - 1];
      assert forall j :: 0 <= j < |keys| - 1 ==> keys[..|keys| - 1][j] == keys[j];
      if last.None? then |keys| - 1
      else if keys[p].None? then p
      else if last.value >= keys[p].value then |keys| - 1
      else p
  }
}
