/**
 * Reading numbers typed into the form: `parseNum` (quantities, prices, rates,
 * fees, amounts paid), the digit filter used on the printed copy, and
 * `parseInt(terms, 10)` for invoice payment terms.
 *
 * `parseFloat` is a library routine: it is a parameter here, a partial
 * function from text to a number that returns `None` where JavaScript
 * returns `NaN`.
 */
module Numbers {
  import opened Base

  /** The characters `parseNum` deletes before parsing: `/[,$\s]/g`. */
  predicate IsSeparator(c: char) {
    c == ',' || c == '$' || IsJsSpace(c)
  }

  function StripSeparators(s: string): (r: string)
    ensures |r| <= |s|
    ensures forall i :: 0 <= i < |r| ==> !IsSeparator(r[i])
    ensures forall c :: c in r <==> c in s && !IsSeparator(c)
  {
    if s == [] then []
    else (if IsSeparator(s[0]) then [] else [s[0]]) + StripSeparators(s[1..])
  }

  lemma {:induction false} StripSeparatorsKeepsClean(s: string)
    requires forall i :: 0 <= i < |s| ==> !IsSeparator(s[i])
    ensures StripSeparators(s) == s
  {
    if s != [] {
      StripSeparatorsKeepsClean(s[1..]);
    }
  }

  lemma StripSeparatorsIdempotent(s: string)
    ensures StripSeparators(StripSeparators(s)) == StripSeparators(s)
  {
    StripSeparatorsKeepsClean(StripSeparators(s));
  }

  /** Deleting separators commutes with concatenation, so they may sit anywhere in the text. */
  lemma {:induction false} StripSeparatorsAppend(a: string, b: string)
    ensures StripSeparators(a + b) == StripSeparators(a) + StripSeparators(b)
  {
    if a == [] {
      assert a + b == b;
    } else {
      assert (a + b)[0] == a[0];
      assert (a + b)[1..] == a[1..] + b;
      StripSeparatorsAppend(a[1..], b);
      var head := if IsSeparator(a[0]) then [] else [a[0]];
      assert StripSeparators(a + b) == head + (StripSeparators(a[1..]) + StripSeparators(b));
    }
  }

  /** `parseNum(str)`: null reads as 0, unparseable text reads as 0. */
  function ParseNum(raw: Option<string>, parseFloat: string -> Option<real>): (n: real)
    ensures raw.None? ==> n == 0.0
    ensures raw.Some? && parseFloat(StripSeparators(raw.value)).None? ==> n == 0.0
  {
    match raw
    case None => 0.0
    case Some(s) =>
      match parseFloat(StripSeparators(s))
      case None => 0.0
      case Some(v) => v
  }

  /** Separators typed anywhere in a field do not change what `parseNum` reads. */
  lemma ParseNumIgnoresSeparators(a: string, c: char, b: string, parseFloat: string -> Option<real>)
    requires IsSeparator(c)
    ensures ParseNum(Some(a + [c] + b), parseFloat) == ParseNum(Some(a + b), parseFloat)
  {
    StripSeparatorsDropsOne(a, c, b);
  }

  lemma StripSeparatorsDropsOne(a: string, c: char, b: string)
    requires IsSeparator(c)
    ensures StripSeparators(a + [c] + b) == StripSeparators(a + b)
  {
    var sa, sb := StripSeparators(a), StripSeparators(b);
    assert StripSeparators([c]) == [] by {
      assert [c][1..] == [];
    }
    StripSeparatorsAppend(a, [c]);
    assert StripSeparators(a + [c]) == sa;
    StripSeparatorsAppend(a + [c], b);
    assert StripSeparators(a + [c] + b) == sa + sb;
    StripSeparatorsAppend(a, b);
  }

  /** `parseNum` of its own cleaned text is the same number. */
  lemma ParseNumOfCleaned(s: string, parseFloat: string -> Option<real>)
    ensures ParseNum(Some(StripSeparators(s)), parseFloat) == ParseNum(Some(s), parseFloat)
  {
    StripSeparatorsIdempotent(s);
  }

  /** `s.replace(/[^\d.]/g, '')`: keep ASCII digits and dots only. */
  function KeepDigitsAndDots(s: string): (r: string)
    ensures |r| <= |s|
    ensures forall i :: 0 <= i < |r| ==> IsDigit(r[i]) || r[i] == '.'
    ensures forall c :: c in r <==> c in s && (IsDigit(c) || c == '.')
  {
    if s == [] then []
    else (if IsDigit(s[0]) || s[0] == '.' then [s[0]] else []) + KeepDigitsAndDots(s[1..])
  }

  /** The filter works character by character, so it commutes with concatenation. */
  lemma {:induction false} KeepDigitsAndDotsAppend(a: string, b: string)
    ensures KeepDigitsAndDots(a + b) == KeepDigitsAndDots(a) + KeepDigitsAndDots(b)
  {
    if a == [] {
      assert a + b == b;
    } else {
      assert (a + b)[0] == a[0];
      assert (a + b)[1..] == a[1..] + b;
      KeepDigitsAndDotsAppend(a[1..], b);
      var head := if IsDigit(a[0]) || a[0] == '.' then [a[0]] else [];
      assert KeepDigitsAndDots(a + b) == head + (KeepDigitsAndDots(a[1..]) + KeepDigitsAndDots(b));
    }
  }

  /** A digit or dot anywhere in the text is copied in place. */
  lemma KeepDigitsAndDotsKeeps(a: string, c: char, b: string)
    requires IsDigit(c) || c == '.'
    ensures KeepDigitsAndDots(a + [c] + b) == KeepDigitsAndDots(a) + [c] + KeepDigitsAndDots(b)
  {
    assert KeepDigitsAndDots([c]) == [c] by {
      assert [c][1..] == [];
    }
    KeepDigitsAndDotsAppend(a, [c]);
    KeepDigitsAndDotsAppend(a + [c], b);
  }

  /** Any other character anywhere in the text is dropped. */
  lemma KeepDigitsAndDotsDrops(a: string, c: char, b: string)
    requires !IsDigit(c) && c != '.'
    ensures KeepDigitsAndDots(a + [c] + b) == KeepDigitsAndDots(a) + KeepDigitsAndDots(b)
  {
    assert KeepDigitsAndDots([c]) == [] by {
      assert [c][1..] == [];
    }
    KeepDigitsAndDotsAppend(a, [c]);
    assert KeepDigitsAndDots(a + [c]) == KeepDigitsAndDots(a);
    KeepDigitsAndDotsAppend(a + [c], b);
  }

  lemma {:induction false} KeepDigitsAndDotsKeepsNumeric(s: string)
    requires forall i :: 0 <= i < |s| ==> IsDigit(s[i]) || s[i] == '.'
    ensures KeepDigitsAndDots(s) == s
  {
    if s != [] {
      KeepDigitsAndDotsKeepsNumeric(s[1..]);
    }
  }

  // ---------------------------------------------------------------------
  // parseInt(s, 10)

  /** The longest prefix of `s` made of decimal digits. */
  function LeadingDigits(s: string): (r: string)
    ensures |r| <= |s| && r == s[..|r|]
    ensures forall i :: 0 <= i < |r| ==> IsDigit(s[i])
    ensures |r| == |s| || !IsDigit(s[|r|])
  {
    if s != [] && IsDigit(s[0]) then [s[0]] + LeadingDigits(s[1..]) else []
  }

  function DigitValue(c: char): nat
    requires IsDigit(c)
  {
    (c as int) - ('0' as int)
  }

  /** The value of a string of decimal digits, most significant first. */
  function DigitsValue(ds: string): nat
    requires forall i :: 0 <= i < |ds| ==> IsDigit(ds[i])
  {
    if ds == [] then 0 else 10 * DigitsValue(ds[..|ds| - 1]) + DigitValue(ds[|ds| - 1])
  }

  /**
   * `parseInt(s, 10)`: leading white space, an optional sign, then the longest
   * run of decimal digits; `None` (JavaScript's `NaN`) when there is no digit.
   */
  function ParseIntDecimal(s: string): (n: Option<int>)
    ensures TrimStart(s) == [] ==> n.None?
  {
    var t := TrimStart(s);
    var negative := t != [] && t[0] == '-';
    var u := if t != [] && (t[0] == '-' || t[0] == '+') then t[1..] else t;
    var ds := LeadingDigits(u);
    var magnitude: int := DigitsValue(ds);
    if ds == [] then None
    else Some(if negative then -magnitude else magnitude)
  }

  /** Text without a single decimal digit is `NaN`. */
  lemma ParseIntNeedsDigit(s: string)
    requires forall i :: 0 <= i < |s| ==> !IsDigit(s[i])
    ensures ParseIntDecimal(s).None?
  {
    var t := TrimStart(s);
    var u := if t != [] && (t[0] == '-' || t[0] == '+') then t[1..] else t;
    assert u == s[|s| - |u|..];
    assert u != [] ==> !IsDigit(u[0]);
  }

  lemma TrimStartUnchanged(s: string)
    requires s == [] || !IsJsSpace(s[0])
    ensures TrimStart(s) == s
  {
  }

  /** Text that starts with a digit parses as its leading digits. */
  lemma {:induction false} ParseIntUnsigned(ds: string, rest: string)
    requires ds != [] && forall i :: 0 <= i < |ds| ==> IsDigit(ds[i])
    requires rest == [] || !IsDigit(rest[0])
    ensures ParseIntDecimal(ds + rest) == Some(DigitsValue(ds))
  {
    var s := ds + rest;
    assert s[0] == ds[0];
    TrimStartUnchanged(s);
    LeadingDigitsOfDigits(ds, rest);
  }

  /** Text that starts with '-' and a digit parses as the negated leading digits. */
  lemma {:induction false} ParseIntNegative(ds: string, rest: string)
    requires ds != [] && forall i :: 0 <= i < |ds| ==> IsDigit(ds[i])
    requires rest == [] || !IsDigit(rest[0])
    ensures ParseIntDecimal("-" + ds + rest) == Some(-(DigitsValue(ds) as int))
  {
    var s := "-" + ds + rest;
    TrimStartUnchanged(s);
    assert s[1..] == ds + rest;
    LeadingDigitsOfDigits(ds, rest);
  }

  /** Decimal digits of a natural number, without leading zeros (`String(n)`). */
  function ShowNat(n: nat): (ds: string)
    ensures |ds| > 0
    ensures forall i :: 0 <= i < |ds| ==> IsDigit(ds[i])
  {
    if n < 10 then [('0' as int + n) as char]
    else ShowNat(n / 10) + [('0' as int + n % 10) as char]
  }

  /** `String(n)` for an integer. */
  function ShowInt(n: int): (s: string)
    ensures |s| > 0
    ensures s[0] == '-' <==> n < 0
    ensures n >= 0 ==> s == ShowNat(n)
    ensures n < 0 ==> s[1..] == ShowNat(-n)
  {
    if n < 0 then "-" + ShowNat(-n) else ShowNat(n)
  }

  lemma {:induction false} DigitsValueShowNat(n: nat)
    ensures DigitsValue(ShowNat(n)) == n
  {
    var ds := ShowNat(n);
    if n >= 10 {
      DigitsValueShowNat(n / 10);
      assert ds[..|ds| - 1] == ShowNat(n / 10);
    }
  }

  lemma {:induction false} LeadingDigitsOfDigits(ds: string, rest: string)
    requires forall i :: 0 <= i < |ds| ==> IsDigit(ds[i])
    requires rest == [] || !IsDigit(rest[0])
    ensures LeadingDigits(ds + rest) == ds
  {
    if ds != [] {
      assert (ds + rest)[1..] == ds[1..] + rest;
      LeadingDigitsOfDigits(ds[1..], rest);
    }
  }

  /**
   * `parseInt` reads back `String(n)`, and stops at the first character that
   * is not a digit ("30 days" reads as 30).
   */
  lemma ParseIntShowInt(n: int, rest: string)
    requires rest == [] || !IsDigit(rest[0])
    ensures ParseIntDecimal(ShowInt(n) + rest) == Some(n)
  {
    var ds := ShowNat(if n < 0 then -n else n);
    DigitsValueShowNat(if n < 0 then -n else n);
    if n < 0 {
      assert ShowInt(n) + rest == "-" + ds + rest;
      ParseIntNegative(ds, rest);
    } else {
      assert ShowInt(n) + rest == ds + rest;
      ParseIntUnsigned(ds, rest);
    }
  }
}
