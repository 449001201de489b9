/** The location parser of phytool.c: `IF/ADDR[/REG]` becomes a Loc.
    strtok(text, "/") is modelled by a cursor over the unchanged text; the
    tokens it hands out one after another are specified by Tokens. */
module Location {
  import opened Wrappers
  import opened Mdio
  import opened Strtoul

  /** A token as strtok returns it: non-empty and free of the delimiter. */
  predicate IsToken(t: string)
  {
    t != [] && forall i :: 0 <= i < |t| ==> t[i] != '/'
  }

  /** The number of characters before the first '/' (or the end). */
  function TokenLength(s: string): (n: nat)
    ensures n <= |s|
    ensures forall i :: 0 <= i < n ==> s[i] != '/'
    ensures n < |s| ==> s[n] == '/'
  {
    if s == [] || s[0] == '/' then 0 else 1 + TokenLength(s[1..])
  }

  /** The tokens that successive strtok(…, "/") calls return: the maximal
      runs of non-'/' characters, so leading and repeated slashes are skipped. */
  function Tokens(s: string): (toks: seq<string>)
    ensures forall k :: 0 <= k < |toks| ==> IsToken(toks[k])
    decreases |s|
  {
    if s == [] then []
    else if s[0] == '/' then Tokens(s[1..])
    else
      var n := TokenLength(s);
      [s[..n]] + Tokens(s[n..])
  }

  /** TokenLength finds the first '/', wherever the caller knows it to be. */
  lemma {:induction false} TokenLengthIs(s: string, n: nat)
    requires n <= |s|
    requires forall i :: 0 <= i < n ==> s[i] != '/'
    requires n == |s| || s[n] == '/'
    ensures TokenLength(s) == n
  {
    if n > 0 {
      TokenLengthIs(s[1..], n - 1);
    }
  }

  /** A delimiter at the cursor is skipped. */
  lemma TokensSkipAt(s: string, i: nat)
    requires i < |s| && s[i] == '/'
    ensures Tokens(s[i..]) == Tokens(s[i + 1..])
  {
    assert s[i..][1..] == s[i + 1..];
  }

  /** A run s[i..j] of non-delimiters that starts at a non-delimiter and ends
      at a '/' or at the end is the next token; the cursor then moves past
      that '/'. */
  lemma TokensTakeAt(s: string, i: nat, j: nat)
    requires i < j <= |s|
    requires forall k :: i <= k < j ==> s[k] != '/'
    requires j == |s| || s[j] == '/'
    ensures Tokens(s[i..]) == [s[i..j]] + Tokens(s[if j < |s| then j + 1 else j..])
  {
    TokenLengthIs(s[i..], j - i);
    assert s[i..][..j - i] == s[i..j] && s[i..][j - i..] == s[j..];
    if j < |s| {
      TokensSkipAt(s, j);
    }
  }

  /** One strtok(…, "/") call from cursor position `from`: skip delimiters,
      then take characters up to the next '/' (or the end). The cursor moves
      past that '/', as strtok's saved pointer does. */
  method Strtok(s: string, from: nat) returns (tok: Option<string>, next: nat)
    requires from <= |s|
    ensures from <= next <= |s|
    ensures tok.None? ==> Tokens(s[from..]) == []
    ensures tok.Some? ==> Tokens(s[from..]) == [tok.value] + Tokens(s[next..])
  {
    var i := from;
    while i < |s| && s[i] == '/'
      invariant from <= i <= |s|
      invariant Tokens(s[from..]) == Tokens(s[i..])
    {
      TokensSkipAt(s, i);
      i := i + 1;
    }
    if i == |s| {
      assert s[i..] == [];
      return None, i;
    }
    var j := i;
    while j < |s| && s[j] != '/'
      invariant i <= j <= |s|
      invariant forall k :: i <= k < j ==> s[k] != '/'
    {
      j := j + 1;
    }
    TokensTakeAt(s, i, j);
    tok := Some(s[i..j]);
    next := if j < |s| then j + 1 else j;
  }

  /** strncpy(loc->ifnam, tok, IFNAMSIZ): at most IFNAMSIZ characters. */
  function IfName(tok: string): (name: string)
    ensures |name| <= IfNameSize && |name| <= |tok|
    ensures name == tok[..|name|]
    ensures |tok| <= IfNameSize ==> name == tok
  {
    if |tok| <= IfNameSize then tok else tok[..IfNameSize]
  }

  /** parse_phy_id: a bare number is the address itself (truncated to 16
      bits, not range-checked); `A:B` is the clause-45 address with A in the
      device field and B in the port field. Anything left over is an error. */
  function ParsePhyId(text: string): (id: Option<bv16>)
    ensures ReadULong(text).rest == [] ==> id.Some?
    ensures id.Some? && ReadULong(text).rest != [] ==>
      id.value & PhyIdC45Flag != 0 && ReadULong(text).rest[0] == ':' &&
      ReadULong(ReadULong(text).rest[1..]).rest == []
  {
    var first := ReadULong(text);
    if first.rest == [] then Some(Trunc16(first.value))
    else if first.rest[0] != ':' then None
    else
      var second := ReadULong(first.rest[1..]);
      if second.rest != [] then None
      else Some(PhyIdC45(second.value, first.value))
  }

  /** parse_loc: interface, address and an optional register token. The
      register is read with no check of what follows its digits; a missing
      register means "summary" unless `strict`. */
  function ParsedLoc(text: string, strict: bool): (r: Result<Loc>)
    ensures |Tokens(text)| < 2 ==> r == FormatError
    ensures r.Ok? ==> |r.value.ifnam| <= IfNameSize
    ensures r.Ok? && strict ==> |Tokens(text)| >= 3
  {
    var toks := Tokens(text);
    if |toks| < 2 then FormatError
    else
      match ParsePhyId(toks[1])
      case None => FormatError
      case Some(id) =>
        if |toks| >= 3 then Ok(Loc(IfName(toks[0]), id, Trunc16(ReadULong(toks[2]).value)))
        else if !strict then Ok(Loc(IfName(toks[0]), id, RegSummary))
        else FormatError
  }

  /** parse_loc as the C code runs it: three strtok calls over one cursor. */
  method ParseLoc(text: string, strict: bool) returns (r: Result<Loc>)
    ensures r == ParsedLoc(text, strict)
  {
    assert text[0..] == text;
    var tok, next := Strtok(text, 0);
    if tok.None? {
      return FormatError;
    }
    var ifnam := IfName(tok.value);
    var addr, next2 := Strtok(text, next);
    if addr.None? {
      return FormatError;
    }
    var id := ParsePhyId(addr.value);
    if id.None? {
      return FormatError;
    }
    var regTok, _ := Strtok(text, next2);
    var reg: bv16;
    if regTok.Some? {
      reg := Trunc16(ReadULong(regTok.value).value);
    } else if !strict {
      reg := RegSummary;
    } else {
      return FormatError;
    }
    r := Ok(Loc(ifnam, id.value, reg));
  }

  // ---------------------------------------------------------------------
  // Tokens of texts built from tokens

  lemma TokensOfToken(t: string)
    requires IsToken(t)
    ensures Tokens(t) == [t]
  {
    TokenLengthIs(t, |t|);
    assert t[..|t|] == t;
  }

  lemma TokensAfterToken(t: string, rest: string)
    requires IsToken(t)
    ensures Tokens(t + "/" + rest) == [t] + Tokens(rest)
  {
    var s := t + "/" + rest;
    TokenLengthIs(s, |t|);
    assert s[..|t|] == t;
    assert s[|t|..][1..] == rest;
  }

  /** Leading and doubled slashes are skipped. */
  lemma TokensSkipSlash(s: string)
    ensures Tokens("/" + s) == Tokens(s)
  {
    assert ("/" + s)[1..] == s;
  }

  // ---------------------------------------------------------------------
  // parse_loc on the shapes IF/ADDR/REG and IF/ADDR

  /** IF/ADDR/REG: the interface, the parsed address and the register read
      as a number prefix, truncated to 16 bits; strictness plays no part. */
  lemma ParsedLocThreeTokens(ifn: string, addr: string, reg: string, strict: bool)
    requires IsToken(ifn) && IsToken(addr) && IsToken(reg)
    ensures ParsedLoc(ifn + "/" + addr + "/" + reg, strict) ==
      match ParsePhyId(addr)
      case None => FormatError
      case Some(id) => Ok(Loc(IfName(ifn), id, Trunc16(ReadULong(reg).value)))
  {
    TokensOfThree(ifn, addr, reg);
  }

  /** Three tokens joined by '/' split back into those three. */
  lemma TokensOfThree(ifn: string, addr: string, reg: string)
    requires IsToken(ifn) && IsToken(addr) && IsToken(reg)
    ensures Tokens(ifn + "/" + addr + "/" + reg) == [ifn, addr, reg]
  {
    TokensOfToken(reg);
    TokensAfterToken(addr, reg);
    assert ifn + "/" + addr + "/" + reg == ifn + "/" + (addr + "/" + reg);
    TokensAfterToken(ifn, addr + "/" + reg);
  }

  /** Tokens after the third are ignored. */
  lemma ParsedLocIgnoresExtraTokens(ifn: string, addr: string, reg: string, more: string, strict: bool)
    requires IsToken(ifn) && IsToken(addr) && IsToken(reg)
    ensures ParsedLoc(ifn + "/" + addr + "/" + reg + "/" + more, strict) ==
            ParsedLoc(ifn + "/" + addr + "/" + reg, strict)
  {
    TokensOfThree(ifn, addr, reg);
    TokensOfThreeAndMore(ifn, addr, reg, more);
  }

  /** With more text after a third '/', the first three tokens stay. */
  lemma TokensOfThreeAndMore(ifn: string, addr: string, reg: string, more: string)
    requires IsToken(ifn) && IsToken(addr) && IsToken(reg)
    ensures Tokens(ifn + "/" + addr + "/" + reg + "/" + more) == [ifn, addr, reg] + Tokens(more)
  {
    var r1 := reg + "/" + more;
    var r2 := addr + "/" + r1;
    TokensAfterToken(reg, more);
    TokensAfterToken(addr, r1);
    TokensAfterToken(ifn, r2);
    Join(addr, reg, more);
    Join(ifn, addr + "/" + reg, more);
    Join(ifn, addr, reg);
  }

  /** Joining with '/' is associative. */
  lemma Join(a: string, b: string, c: string)
    ensures a + "/" + (b + "/" + c) == a + "/" + b + "/" + c
  {
  }

  /** IF/ADDR: the summary register when not strict, a format error when
      strict. */
  lemma ParsedLocTwoTokens(ifn: string, addr: string, strict: bool)
    requires IsToken(ifn) && IsToken(addr)
    ensures ParsedLoc(ifn + "/" + addr, strict) ==
      match ParsePhyId(addr)
      case None => FormatError
      case Some(id) => if strict then FormatError else Ok(Loc(IfName(ifn), id, RegSummary))
  {
    TokensOfToken(addr);
    TokensAfterToken(ifn, addr);
  }

  /** A leading slash and a doubled separator change nothing. */
  lemma ParsedLocSkipsEmptyTokens(ifn: string, addr: string, reg: string, strict: bool)
    requires IsToken(ifn) && IsToken(addr) && IsToken(reg)
    ensures ParsedLoc("/" + ifn + "//" + addr + "/" + reg, strict) ==
            ParsedLoc(ifn + "/" + addr + "/" + reg, strict)
  {
    var tail := addr + "/" + reg;
    assert "/" + ifn + "//" + addr + "/" + reg == "/" + (ifn + "/" + ("/" + tail));
    assert ifn + "/" + addr + "/" + reg == ifn + "/" + tail;
    TokensSkipSlash(ifn + "/" + ("/" + tail));
    TokensAfterToken(ifn, "/" + tail);
    TokensSkipSlash(tail);
    TokensAfterToken(ifn, tail);
  }

  /** A text with fewer than two tokens is always a format error. */
  lemma ParsedLocNeedsTwoTokens(ifn: string, strict: bool)
    requires IsToken(ifn)
    ensures ParsedLoc(ifn, strict) == FormatError
    ensures ParsedLoc(ifn + "/", strict) == FormatError
    ensures ParsedLoc("/" + ifn + "/", strict) == FormatError
  {
    TokensOfToken(ifn);
    TokensAfterToken(ifn, "");
    assert ifn + "/" == ifn + "/" + "";
    assert Tokens("") == [];
    TokensSkipSlash(ifn + "/");
    assert "/" + ifn + "/" == "/" + (ifn + "/");
  }

  // ---------------------------------------------------------------------
  // parse_phy_id on decimal numbers

  /** A bare number is stored truncated to 16 bits: no range check, no flag. */
  lemma ParsePhyIdBare(n: nat)
    ensures ParsePhyId(Render(n, 10)) == Some(Trunc16(n))
  {
    ReadDecimal(n, "");
    assert Render(n, 10) + "" == Render(n, 10);
  }

  /** `A:B` puts A in the device field and B in the port field, flag set. */
  lemma ParsePhyIdPair(dev: nat, port: nat)
    ensures ParsePhyId(Render(dev, 10) + ":" + Render(port, 10)) == Some(PhyIdC45(port, dev))
  {
    var b := Render(port, 10);
    ReadDecimal(dev, ":" + b);
    ReadDecimal(port, "");
    assert b + "" == b;
    assert Render(dev, 10) + ":" + b == Render(dev, 10) + (":" + b);
    ParsePhyIdOfReads(Render(dev, 10) + (":" + b), dev, b, port);
  }

  /** The two reads of parse_phy_id, as steps: a first number stopped by
      ':' and a second one that uses up the rest make a clause-45 pair. */
  lemma ParsePhyIdOfReads(text: string, dev: nat, t: string, port: nat)
    requires ReadULong(text) == Reading(dev, ":" + t)
    requires ReadULong(t) == Reading(port, "")
    ensures ParsePhyId(text) == Some(PhyIdC45(port, dev))
  {
    assert (":" + t)[1..] == t;
  }

  /** Text that starts with neither a digit nor '0' reads as 0, consuming
      nothing. */
  lemma ReadNoDigits(s: string)
    requires s != [] && !IsDigitOf(s[0], 10)
    ensures ReadULong(s) == Reading(0, s)
  {
    assert s[..0] == [] && s[0..] == s;
  }

  /** With both numbers in 0..31, `A:B` decodes back to device A and port B. */
  lemma ParsePhyIdPairDecodes(dev: nat, port: nat, ifnam: string, reg: bv16)
    requires dev < 32 && port < 32
    ensures var id := ParsePhyId(Render(dev, 10) + ":" + Render(port, 10));
      id.Some? && IsC45(Loc(ifnam, id.value, reg)) &&
      C45Dev(Loc(ifnam, id.value, reg)) == dev && C45Port(Loc(ifnam, id.value, reg)) == port
  {
    ParsePhyIdPair(dev, port);
    C45RoundTrip(ifnam, reg, port, dev);
  }

  /** An empty number before ':' reads as device 0 and is accepted. */
  lemma ParsePhyIdEmptyDevice(n: nat)
    ensures ParsePhyId(":" + Render(n, 10)) == Some(PhyIdC45(n, 0))
  {
    var b := Render(n, 10);
    ReadNoDigits(":" + b);
    ReadDecimal(n, "");
    assert b + "" == b;
    ParsePhyIdOfReads(":" + b, 0, b, n);
  }

  /** An empty number after ':' reads as port 0 and is accepted. */
  lemma ParsePhyIdEmptyPort(n: nat)
    ensures ParsePhyId(Render(n, 10) + ":") == Some(PhyIdC45(0, n))
  {
    ReadDecimal(n, ":");
    assert ":" == ":" + "";
    assert ReadULong("") == Reading(0, "");
    ParsePhyIdOfReads(Render(n, 10) + ":", n, "", 0);
  }

  /** A bare number followed by anything but ':' is rejected. */
  lemma ParsePhyIdRejectsTrailing(n: nat, c: char, tail: string)
    requires c != ':' && !IsDigitOf(c, 10) && c != 'x' && c != 'X'
    ensures ParsePhyId(Render(n, 10) + [c] + tail) == None
  {
    ReadDecimal(n, [c] + tail);
    assert Render(n, 10) + [c] + tail == Render(n, 10) + ([c] + tail);
  }

  /** Anything after the second number is rejected. */
  lemma ParsePhyIdRejectsTrailingAfterPair(dev: nat, port: nat, c: char, tail: string)
    requires !IsDigitOf(c, 10) && c != 'x' && c != 'X'
    ensures ParsePhyId(Render(dev, 10) + (":" + (Render(port, 10) + ([c] + tail)))) == None
  {
    var b := Render(port, 10) + ([c] + tail);
    SecondNumberRest(dev, b);
    ReadDecimal(port, [c] + tail);
    assert ReadULong(b).rest == [c] + tail;
  }

  /** After `A:` the second number is read from what follows the ':'. */
  lemma SecondNumberRest(dev: nat, b: string)
    ensures var first := ReadULong(Render(dev, 10) + (":" + b));
      first.rest != [] && first.rest[0] == ':' && first.rest[1..] == b
  {
    ReadDecimal(dev, ":" + b);
    assert (":" + b)[1..] == b;
  }

  // ---------------------------------------------------------------------
  // Whole locations

  /** Numbers as the parser is given them are tokens. */
  lemma RenderIsToken(n: nat, base: nat)
    requires base == 10 || base == 16
    ensures IsToken(Render(n, base))
  {
    var ds := Render(n, base);
    forall i | 0 <= i < |ds| ensures ds[i] != '/' {
      assert IsDigitOf(ds[i], base);
    }
  }

  lemma HexIsToken(n: nat)
    ensures IsToken("0x" + Render(n, 16))
  {
    RenderIsToken(n, 16);
    var t := "0x" + Render(n, 16);
    forall i | 0 <= i < |t| ensures t[i] != '/' {
      if i >= 2 {
        assert t[i] == Render(n, 16)[i - 2];
      }
    }
  }

  /** IF/N/0xR, for example "eth0/4/0x10": the clause-22 address N and the
      register R, both truncated to 16 bits, in strict and non-strict mode. */
  lemma ParsedLocClause22(ifn: string, n: nat, r: nat, strict: bool)
    requires IsToken(ifn)
    ensures ParsedLoc(ifn + "/" + Render(n, 10) + "/" + ("0x" + Render(r, 16)), strict) ==
            Ok(Loc(IfName(ifn), Trunc16(n), Trunc16(r)))
  {
    RenderIsToken(n, 10);
    HexIsToken(r);
    ParsePhyIdBare(n);
    ReadHex(r, "");
    assert "0x" + Render(r, 16) + "" == "0x" + Render(r, 16);
    ParsedLocThreeTokens(ifn, Render(n, 10), "0x" + Render(r, 16), strict);
  }

  /** A:B is a token when A and B are numbers. */
  lemma PairIsToken(dev: nat, port: nat)
    ensures IsToken(Render(dev, 10) + ":" + Render(port, 10))
  {
    RenderIsToken(dev, 10);
    RenderIsToken(port, 10);
    var a, b := Render(dev, 10), Render(port, 10);
    var t := a + ":" + b;
    forall i | 0 <= i < |t| ensures t[i] != '/' {
      if i < |a| {
        assert t[i] == a[i];
      } else if i > |a| {
        assert t[i] == b[i - |a| - 1];
      }
    }
  }

  /** IF/A:B/0xR, for example "eth0/0:4/0x1000": device A, port B, register R. */
  lemma ParsedLocClause45(ifn: string, dev: nat, port: nat, r: nat, strict: bool)
    requires IsToken(ifn)
    ensures ParsedLoc(ifn + "/" + (Render(dev, 10) + ":" + Render(port, 10)) + "/" + ("0x" + Render(r, 16)), strict) ==
            Ok(Loc(IfName(ifn), PhyIdC45(port, dev), Trunc16(r)))
  {
    PairIsToken(dev, port);
    HexIsToken(r);
    ParsePhyIdPair(dev, port);
    ReadHex(r, "");
    assert "0x" + Render(r, 16) + "" == "0x" + Render(r, 16);
    ParsedLocThreeTokens(ifn, Render(dev, 10) + ":" + Render(port, 10), "0x" + Render(r, 16), strict);
  }

  /** IF/0xN, for example "eth0/0xa": the summary register when not strict,
      a format error when strict. */
  lemma ParsedLocSummary(ifn: string, n: nat)
    requires IsToken(ifn)
    ensures ParsedLoc(ifn + "/" + ("0x" + Render(n, 16)), false) == Ok(Loc(IfName(ifn), Trunc16(n), RegSummary))
    ensures ParsedLoc(ifn + "/" + ("0x" + Render(n, 16)), true) == FormatError
  {
    HexIsToken(n);
    ReadHex(n, "");
    assert "0x" + Render(n, 16) + "" == "0x" + Render(n, 16);
    ParsedLocTwoTokens(ifn, "0x" + Render(n, 16), false);
    ParsedLocTwoTokens(ifn, "0x" + Render(n, 16), true);
  }

  /** The register token is read only as far as it is a number: with a
      trailing non-digit, for example "eth0/1:4/0xg" whose register reads as
      the "0" before 'x' (no hex digit follows it), the location is still
      accepted. */
  lemma ParsedLocRegisterPrefix(ifn: string, addr: string, r: nat, c: char, tail: string, strict: bool)
    requires IsToken(ifn) && IsToken(addr) && IsToken(Render(r, 10) + [c] + tail)
    requires !IsDigitOf(c, 10) && !HasHexPrefix(Render(r, 10) + [c] + tail)
    requires ParsePhyId(addr).Some?
    ensures ParsedLoc(ifn + "/" + addr + "/" + (Render(r, 10) + [c] + tail), strict) ==
            Ok(Loc(IfName(ifn), ParsePhyId(addr).value, Trunc16(r)))
  {
    ReadNumberPrefix(r, c, tail);
    ParsedLocThreeTokens(ifn, addr, Render(r, 10) + [c] + tail, strict);
  }

  /** A number followed by a non-digit reads as that number, unless the two
      make a hex prefix. */
  lemma ReadNumberPrefix(r: nat, c: char, tail: string)
    requires !IsDigitOf(c, 10) && !HasHexPrefix(Render(r, 10) + [c] + tail)
    ensures ReadULong(Render(r, 10) + [c] + tail).value == r
  {
    assert Render(r, 10) + [c] + tail == Render(r, 10) + ([c] + tail);
    if r == 0 {
      assert Render(0, 10) == "0";
      ReadZero([c] + tail);
    } else {
      ReadPositive(r, [c] + tail);
    }
  }
}
