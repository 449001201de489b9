/** The part of the C library's strtoul(text, &end, 0) that the location
    parser relies on: an unsigned number in base 0, where "0x" or "0X" followed
    by a hexadecimal digit selects base 16, any other leading '0' selects
    base 8, and anything else base 10. The reader returns the value and the
    unread rest of the text (what `end` points at). */
module Strtoul {

  /** The value of a digit character; 16 for anything that is no digit in
      base 16, so that it is a digit in none of the bases used here. */
  function DigitValue(c: char): (v: nat)
    ensures v <= 16
  {
    if '0' <= c <= '9' then c as int - '0' as int
    else if 'a' <= c <= 'f' then c as int - 'a' as int + 10
    else if 'A' <= c <= 'F' then c as int - 'A' as int + 10
    else 16
  }

  predicate IsDigitOf(c: char, base: nat)
  {
    DigitValue(c) < base
  }

  /** Every character of `ds` is a digit in `base`. */
  predicate AllDigits(ds: string, base: nat)
  {
    forall i :: 0 <= i < |ds| ==> IsDigitOf(ds[i], base)
  }

  /** The number of leading characters of `s` that are digits in `base`. */
  function RunLength(s: string, base: nat): (n: nat)
    ensures n <= |s|
    ensures forall i :: 0 <= i < n ==> IsDigitOf(s[i], base)
    ensures n < |s| ==> !IsDigitOf(s[n], base)
  {
    if s == [] || !IsDigitOf(s[0], base) then 0 else 1 + RunLength(s[1..], base)
  }

  /** The number written by the digit string `ds`, most significant first. */
  function Value(ds: string, base: nat): nat
  {
    if ds == [] then 0
    else Value(ds[..|ds| - 1], base) * base + DigitValue(ds[|ds| - 1]) % 16
  }

  /** What strtoul returns, and where it stops reading. */
  datatype Reading = Reading(value: nat, rest: string)

  predicate HasHexPrefix(s: string)
  {
    |s| >= 3 && s[0] == '0' && (s[1] == 'x' || s[1] == 'X') && IsDigitOf(s[2], 16)
  }

  /** strtoul(s, &end, 0), without leading white space, signs or the clamping
      of values that do not fit an unsigned long. */
  function ReadULong(s: string): (r: Reading)
    ensures |r.rest| <= |s| && r.rest == s[|s| - |r.rest|..]
    ensures |r.rest| == |s| ==> r.value == 0
    ensures HasHexPrefix(s) ==> r.rest == [] || !IsDigitOf(r.rest[0], 16)
    ensures !HasHexPrefix(s) && s != [] && s[0] == '0' ==> r.rest == [] || !IsDigitOf(r.rest[0], 8)
    ensures s != [] && s[0] != '0' ==> r.rest == [] || !IsDigitOf(r.rest[0], 10)
  {
    if HasHexPrefix(s) then
      var n := RunLength(s[2..], 16);
      Reading(Value(s[2..2 + n], 16), s[2 + n..])
    else if s != [] && s[0] == '0' then
      var n := RunLength(s, 8);
      Reading(Value(s[..n], 8), s[n..])
    else
      var n := RunLength(s, 10);
      Reading(Value(s[..n], 10), s[n..])
  }

  /** The character of a digit value below 16, lower-case letters above 9. */
  function DigitChar(d: nat): (c: char)
    requires d < 16
    ensures DigitValue(c) == d
  {
    if d < 10 then ('0' as int + d) as char else ('a' as int + d - 10) as char
  }

  /** The bases strtoul chooses in base 0: octal, decimal and hexadecimal. */
  predicate IsBase(base: nat)
  {
    base == 8 || base == 10 || base == 16
  }

  /** The facts about `/` and `%` that rendering needs, for the three bases. */
  lemma DivMod(n: nat, base: nat)
    requires IsBase(base)
    ensures n % base < base && n == n / base * base + n % base
    ensures n >= base ==> 1 <= n / base < n
  {
    if base == 10 {
      assert n % 10 < 10;
    } else if base == 8 {
      assert n % 8 < 8;
    }
  }

  /** `n` written in `base` without leading zeros ("0" for zero). */
  function Render(n: nat, base: nat): (ds: string)
    requires IsBase(base)
    ensures ds != [] && AllDigits(ds, base)
    ensures n >= base ==> DigitValue(ds[0]) != 0
    decreases n
  {
    DivMod(n, base);
    if n < base then [DigitChar(n)]
    else Render(n / base, base) + [DigitChar(n % base)]
  }

  /** One step of Value: the last digit added to the value of the others. */
  lemma ValueStep(ds: string, base: nat, q: nat, r: nat)
    requires ds != [] && Value(ds[..|ds| - 1], base) == q
    requires DigitValue(ds[|ds| - 1]) == r && r < 16
    ensures Value(ds, base) == q * base + r
  {
  }

  /** Reading the rendering of `n` gives `n` back. */
  lemma {:induction false} ValueOfRender(n: nat, base: nat)
    requires IsBase(base)
    ensures Value(Render(n, base), base) == n
    decreases n
  {
    var ds := Render(n, base);
    DivMod(n, base);
    if n >= base {
      var q, r := n / base, n % base;
      ValueOfRender(q, base);
      assert ds[..|ds| - 1] == Render(q, base);
      ValueStep(ds, base, q, r);
    } else {
      ValueStep(ds, base, 0, n);
    }
  }

  /** A digit run followed by a non-digit (or nothing) is read to its end. */
  lemma {:induction false} RunLengthOfDigits(ds: string, rest: string, base: nat)
    requires AllDigits(ds, base)
    requires rest == [] || !IsDigitOf(rest[0], base)
    ensures RunLength(ds + rest, base) == |ds|
  {
    if ds != [] {
      assert (ds + rest)[1..] == ds[1..] + rest;
      RunLengthOfDigits(ds[1..], rest, base);
    }
  }

  /** The hexadecimal branch of the reader, as a step: "0x", a digit run and
      a rest that cannot continue it. */
  lemma ReadHexDigits(ds: string, rest: string)
    requires ds != [] && AllDigits(ds, 16)
    requires rest == [] || !IsDigitOf(rest[0], 16)
    ensures ReadULong("0x" + (ds + rest)) == Reading(Value(ds, 16), rest)
  {
    var t := ds + rest;
    var s := "0x" + t;
    assert s[0] == '0' && s[1] == 'x' && s[2] == ds[0];
    assert HasHexPrefix(s);
    assert s[2..] == t;
    RunLengthOfDigits(ds, rest, 16);
    assert RunLength(s[2..], 16) == |ds|;
    assert s[2..2 + |ds|] == ds && s[2 + |ds|..] == rest;
  }

  /** The decimal branch of the reader, as a step: a digit run that does not
      start with '0' and a rest that cannot continue it. */
  lemma ReadDecimalDigits(ds: string, rest: string)
    requires ds != [] && ds[0] != '0' && AllDigits(ds, 10)
    requires rest == [] || !IsDigitOf(rest[0], 10)
    ensures ReadULong(ds + rest) == Reading(Value(ds, 10), rest)
  {
    var s := ds + rest;
    RunLengthOfDigits(ds, rest, 10);
    assert s[..|ds|] == ds && s[|ds|..] == rest;
  }

  /** A lone "0" before anything that continues neither an octal number nor
      a hex prefix reads as 0. */
  lemma ReadZero(rest: string)
    requires rest == [] || (!IsDigitOf(rest[0], 8) && !HasHexPrefix("0" + rest))
    ensures ReadULong("0" + rest) == Reading(0, rest)
  {
    var s := "0" + rest;
    RunLengthOfDigits("0", rest, 8);
    assert s[..1] == "0" && s[1..] == rest;
    ValueStep("0", 8, 0, 0);
  }

  /** A positive number written in decimal is read back, whatever non-digit
      follows it. */
  lemma ReadPositive(n: nat, rest: string)
    requires n > 0
    requires rest == [] || !IsDigitOf(rest[0], 10)
    ensures ReadULong(Render(n, 10) + rest) == Reading(n, rest)
  {
    var ds := Render(n, 10);
    ValueOfRender(n, 10);
    assert n < 10 ==> ds == [DigitChar(n)];
    assert ds[0] != '0' by {
      assert DigitValue(ds[0]) != 0;
    }
    ReadDecimalDigits(ds, rest);
  }

  /** A number written in decimal is read back with the rest untouched, as long
      as the rest cannot continue the number. */
  lemma ReadDecimal(n: nat, rest: string)
    requires rest == [] || (!IsDigitOf(rest[0], 10) && rest[0] != 'x' && rest[0] != 'X')
    ensures ReadULong(Render(n, 10) + rest) == Reading(n, rest)
  {
    if n == 0 {
      assert Render(0, 10) == "0";
      ReadZero(rest);
    } else {
      ReadPositive(n, rest);
    }
  }

  /** A number written as "0x" and hexadecimal digits is read back likewise. */
  lemma ReadHex(n: nat, rest: string)
    requires rest == [] || !IsDigitOf(rest[0], 16)
    ensures ReadULong("0x" + Render(n, 16) + rest) == Reading(n, rest)
  {
    ValueOfRender(n, 16);
    ReadHexDigits(Render(n, 16), rest);
    assert "0x" + Render(n, 16) + rest == "0x" + (Render(n, 16) + rest);
  }

  /** A leading zero adds nothing to the value of a digit string. */
  lemma {:induction false} ValueLeadingZero(ds: string, base: nat)
    ensures Value("0" + ds, base) == Value(ds, base)
    decreases |ds|
  {
    var s := "0" + ds;
    if ds == [] {
      ValueStep(s, base, 0, 0);
    } else {
      assert s[..|s| - 1] == "0" + ds[..|ds| - 1];
      assert s[|s| - 1] == ds[|ds| - 1];
      ValueLeadingZero(ds[..|ds| - 1], base);
    }
  }

  /** The octal branch of the reader, as a step: '0', an octal digit run and a
      rest that cannot continue it. */
  lemma ReadOctalDigits(ds: string, rest: string)
    requires ds != [] && AllDigits(ds, 8)
    requires rest == [] || !IsDigitOf(rest[0], 8)
    ensures ReadULong("0" + (ds + rest)) == Reading(Value(ds, 8), rest)
  {
    var s := "0" + (ds + rest);
    var zds := "0" + ds;
    assert s == zds + rest;
    assert IsDigitOf(ds[0], 8) && s[1] == ds[0];
    assert !HasHexPrefix(s);
    assert AllDigits(zds, 8) by {
      forall i | 0 <= i < |zds| ensures IsDigitOf(zds[i], 8) {
        if i > 0 {
          assert zds[i] == ds[i - 1];
        }
      }
    }
    RunLengthOfDigits(zds, rest, 8);
    assert s[..|zds|] == zds && s[|zds|..] == rest;
    ValueLeadingZero(ds, 8);
  }

  /** A number written as '0' and octal digits is read back in base 8, the
      rest untouched as long as it cannot continue the number. */
  lemma ReadOctal(n: nat, rest: string)
    requires rest == [] || !IsDigitOf(rest[0], 8)
    ensures ReadULong("0" + Render(n, 8) + rest) == Reading(n, rest)
  {
    ValueOfRender(n, 8);
    ReadOctalDigits(Render(n, 8), rest);
    assert "0" + Render(n, 8) + rest == "0" + (Render(n, 8) + rest);
  }
}
