/** What the printers write to standard output, kept one level above the
    characters: each token is one printf conversion, literal or glyph. */
module Output {

  datatype Token =
    | Pad(width: nat)                   // printf("%*s", width, "")
    | Text(s: string)                   // literal text; "\n" ends a line
    | Hex(v: int, prec: int)            // printf("%#.<prec>x", v)
    | Digit(v: int)                     // printf("%x", v) of one nibble
    | Dec(n: int)                       // printf("%d", n)
    | Marker(on: bool)                  // one bit-array glyph, filled when on
    | Flag(name: string, on: bool)      // print_bool: name, highlighted when on
    | AttrName(name: string, indent: nat) // print_attr_name(name, indent)

  /** What a printer produced: its output and its return code, or the output
      written before it dereferenced a NULL pointer (undefined behaviour,
      in practice a crash). */
  datatype Printed = Printed(out: seq<Token>, rc: int) | Fault(out: seq<Token>)

  /** Output printed before a printer runs, put in front of what it prints. */
  function Prefixed(head: seq<Token>, p: Printed): (q: Printed)
    ensures q.out == head + p.out && q.Fault? == p.Fault?
    ensures q.Printed? ==> q.rc == p.rc
  {
    match p
    case Printed(out, rc) => Printed(head + out, rc)
    case Fault(out) => Fault(head + out)
  }

  /** Whether any bit of `mask` is set in `val`, the `on` argument of print_bool. */
  predicate IsSet(val: bv16, mask: bv16)
  {
    val & mask != 0
  }

  /** Whether bit `i` of `val` is set, the way the C tests it: val & (1 << i). */
  predicate Bit(val: bv16, i: nat)
    requires i < 16
  {
    IsSet(val, 1 as bv16 << i)
  }

  /** The separator after the glyph of bit `i` (none after bit 0): two spaces
      at nibble boundaries, one space otherwise. */
  function Separator(i: nat): (sep: seq<Token>)
    requires i < 16
    ensures i == 0 ==> sep == []
    ensures i != 0 ==> |sep| == 1 && sep[0] == Text(if i % 4 == 0 then "  " else " ")
  {
    if i == 0 then [] else if i % 4 == 0 then [Text("  ")] else [Text(" ")]
  }

  /** The glyphs of bits 15 down to `from`, each with its separator. */
  function Markers(val: bv16, from: nat): (row: seq<Token>)
    requires from <= 16
    decreases 16 - from
  {
    if from == 16 then [] else Markers(val, from + 1) + [Marker(Bit(val, from))] + Separator(from)
  }

  /** The second line: the four nibbles, most significant first, each under
      its group of four glyphs. */
  function NibbleLine(val: bv16, indent: nat): seq<Token>
  {
    [Text("\n"), Pad(indent), Text("   "), Digit(((val & 0xf000) >> 12) as nat),
     Text("        "), Digit(((val & 0x0f00) >> 8) as nat),
     Text("        "), Digit(((val & 0x00f0) >> 4) as nat),
     Text("        "), Digit((val & 0x000f) as nat), Text("\n")]
  }

  /** print_bit_array: one glyph per bit, then the nibbles. */
  function BitArray(val: bv16, indent: nat): seq<Token>
  {
    [Pad(indent)] + Markers(val, 0) + NibbleLine(val, indent)
  }

  /** print_bit_array, the loop over bits 15 down to 0 as written. */
  method PrintBitArray(val: bv16, indent: nat) returns (out: seq<Token>)
    ensures out == BitArray(val, indent)
  {
    var row := [];
    var i: int := 15;
    while i >= 0
      invariant -1 <= i <= 15
      invariant row == Markers(val, i + 1)
      decreases i
    {
      row := row + [Marker(Bit(val, i))] + Separator(i);
      i := i - 1;
    }
    out := [Pad(indent)] + row + NibbleLine(val, indent);
  }

  /** The glyph row of bits 15 down to `from` has two tokens per bit, less the
      missing separator after bit 0. */
  lemma {:induction false} MarkersLength(val: bv16, from: nat)
    requires from <= 16
    ensures |Markers(val, from)| == 2 * (16 - from) - (if from == 0 then 1 else 0)
    decreases 16 - from
  {
    if from < 16 {
      MarkersLength(val, from + 1);
    }
  }

  /** The glyph of bit i sits at position 2 * (15 - i) of the row. */
  lemma {:induction false} MarkerAt(val: bv16, from: nat, i: nat)
    requires from <= i < 16
    ensures 2 * (15 - i) < |Markers(val, from)|
    ensures Markers(val, from)[2 * (15 - i)] == Marker(Bit(val, i))
    decreases 16 - from
  {
    var prev := Markers(val, from + 1);
    MarkersLength(val, from + 1);
    assert Markers(val, from) == prev + [Marker(Bit(val, from))] + Separator(from);
    if i > from {
      MarkerAt(val, from + 1, i);
    }
  }

  /** The separator of bit i (there is none after bit 0) follows its glyph. */
  lemma {:induction false} SeparatorAt(val: bv16, from: nat, i: nat)
    requires from <= i < 16 && i != 0
    ensures 2 * (15 - i) + 1 < |Markers(val, from)|
    ensures [Markers(val, from)[2 * (15 - i) + 1]] == Separator(i)
    decreases 16 - from
  {
    var prev := Markers(val, from + 1);
    MarkersLength(val, from + 1);
    assert Markers(val, from) == prev + [Marker(Bit(val, from))] + Separator(from);
    if i > from {
      SeparatorAt(val, from + 1, i);
    }
  }

  /** Every bit of the value is shown, at a fixed place: reading the glyphs
      back gives the bits of `val`. */
  lemma BitArrayShowsEveryBit(val: bv16, indent: nat, i: nat)
    requires i < 16
    ensures |BitArray(val, indent)| == 43
    ensures BitArray(val, indent)[1 + 2 * (15 - i)] == Marker(Bit(val, i))
  {
    var row := Markers(val, 0);
    MarkersLength(val, 0);
    MarkerAt(val, 0, i);
    var line := NibbleLine(val, indent);
    assert |line| == 11;
    InMiddle(Pad(indent), row, line, 2 * (15 - i));
  }

  /** Indexing into a sequence put between one token and a tail. */
  lemma InMiddle(head: Token, row: seq<Token>, tail: seq<Token>, k: nat)
    requires k < |row|
    ensures |[head] + row + tail| == 1 + |row| + |tail|
    ensures ([head] + row + tail)[1 + k] == row[k]
  {
  }

  /** Bit-level part: the four nibbles put back together are the value. */
  lemma NibblesRebuild(val: bv16)
    ensures (((val & 0xf000) >> 12) << 12) | (((val & 0x0f00) >> 8) << 8) | (((val & 0x00f0) >> 4) << 4) | (val & 0x000f) == val
    ensures (val & 0xf000) >> 12 < 16 && (val & 0x0f00) >> 8 < 16 && (val & 0x00f0) >> 4 < 16 && val & 0x000f < 16
  {
  }

  /** Two 16-bit values that read as the same number are equal. */
  lemma AsNatInjective(x: bv16, y: bv16)
    requires x as nat == y as nat
    ensures x == y
  {
    assert x == (x as nat) as bv16;
    assert y == (y as nat) as bv16;
  }

  /** Nothing is lost: the nibble line alone determines the value. */
  lemma NibbleLineDeterminesValue(a: bv16, b: bv16, indent: nat)
    requires NibbleLine(a, indent) == NibbleLine(b, indent)
    ensures a == b
  {
    NibblesRebuild(a);
    NibblesRebuild(b);
    var la, lb := NibbleLine(a, indent), NibbleLine(b, indent);
    assert la[3] == lb[3] && la[5] == lb[5] && la[7] == lb[7] && la[9] == lb[9];
    AsNatInjective((a & 0xf000) >> 12, (b & 0xf000) >> 12);
    AsNatInjective((a & 0x0f00) >> 8, (b & 0x0f00) >> 8);
    AsNatInjective((a & 0x00f0) >> 4, (b & 0x00f0) >> 4);
    AsNatInjective(a & 0x000f, b & 0x000f);
  }

  /** One named bit of a register, shown with print_bool. */
  datatype FlagSpec = FlagSpec(name: string, mask: bv16)

  /** What follows a flag: ' ' between flags, '\n' after the last one. */
  function FlagEnd(last: bool): Token
  {
    if last then Text("\n") else Text(" ")
  }

  /** A row of print_bool calls separated by ' ' and ended by '\n'. */
  function FlagLine(flags: seq<FlagSpec>, val: bv16): (line: seq<Token>)
    ensures |line| == 2 * |flags|
  {
    if flags == [] then []
    else [Flag(flags[0].name, IsSet(val, flags[0].mask)),
          FlagEnd(|flags| == 1)] + FlagLine(flags[1..], val)
  }

  /** Flag `k` of the table is shown at position 2k, highlighted exactly when
      its bit is set in `val`; only the last one ends the line. */
  lemma {:induction false} FlagLineShows(flags: seq<FlagSpec>, val: bv16, k: nat)
    requires k < |flags|
    ensures FlagLine(flags, val)[2 * k] == Flag(flags[k].name, IsSet(val, flags[k].mask))
    ensures FlagLine(flags, val)[2 * k + 1] == FlagEnd(k == |flags| - 1)
  {
    var rest := FlagLine(flags[1..], val);
    assert FlagLine(flags, val) == [Flag(flags[0].name, IsSet(val, flags[0].mask)),
                                    FlagEnd(|flags| == 1)] + rest;
    if k > 0 {
      FlagLineShows(flags[1..], val, k - 1);
      assert flags[1..][k - 1] == flags[k];
    }
  }
}
