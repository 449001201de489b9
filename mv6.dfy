/** The printer for Marvell 88E6xxx switches (print_mv6.c): a heading naming
    the switch model and the addressed device, then either the generic PHY
    printer or the switch's own port registers. */
module Mv6 {
  import opened Wrappers
  import opened Mdio
  import opened Transport
  import opened Output
  import opened Ieee

  /** The product number of the switch, from its identifier with the
      revision nibble masked off; None for an unknown one. */
  function ModelName(id: bv16): (name: Option<string>)
    ensures name.Some? <==> id & 0xfff0 in {0x0480, 0x0950, 0x0990, 0x1a70, 0x3520}
  {
    var product := id & 0xfff0;
    if product == 0x0480 then Some("mv88e6046")
    else if product == 0x0950 then Some("mv88e6095")
    else if product == 0x0990 then Some("mv88e6097")
    else if product == 0x1a70 then Some("mv88e6185")
    else if product == 0x3520 then Some("mv88e6352")
    else None
  }

  /** mv6_model_str: the model name, or UNKNOWN with the whole identifier. */
  function ModelStr(id: bv16): seq<Token>
  {
    match ModelName(id)
    case Some(name) => [Text(name)]
    case None => [Text("UNKNOWN("), Hex(id as nat, 4), Text(")")]
  }

  /** Bit-level part: the revision nibble does not reach the product bits. */
  lemma ProductBits(id: bv16, rev: bv16)
    requires rev < 16
    ensures ((id & 0xfff0) | rev) & 0xfff0 == id & 0xfff0
  {
  }

  /** The revision in the low nibble never changes the model. */
  lemma ModelIgnoresRevision(id: bv16, rev: bv16)
    requires rev < 16
    ensures ModelName((id & 0xfff0) | rev) == ModelName(id)
  {
    ProductBits(id, rev);
  }

  /** mv6_dev_str, as written: because its third test is `dev != 0`, every
      device above 0xf is shown as "port:" followed by dev - 0x10, and the
      global and reserved names below it are never reached. */
  function DevStr(dev: bv16): seq<Token>
  {
    if dev < 0xf then [Text("phy:"), Dec(dev as int)]
    else if dev == 0xf then [Text("serdes")]
    else if dev != 0 then [Text("port:"), Dec(dev as int - 0x10)]
    else if dev == 0x1b then [Text("global:1")]
    else if dev == 0x1c then [Text("global:2")]
    else if dev == 0x1d then [Text("global:3")]
    else [Text("port:RESERVED("), Hex(dev as int, 2), Text(")")]
  }

  /** Devices 0..14 are PHYs, 15 the SERDES, and every other one, the global
      register blocks 0x1b..0x1d included, is named as a port. */
  lemma DevStrNames(dev: bv16)
    ensures dev < 0xf <==> DevStr(dev) == [Text("phy:"), Dec(dev as int)]
    ensures dev == 0xf <==> DevStr(dev) == [Text("serdes")]
    ensures dev > 0xf <==> DevStr(dev) == [Text("port:"), Dec(dev as int - 0x10)]
    ensures DevStr(dev) != [Text("global:1")] && DevStr(dev) != [Text("global:2")] &&
            DevStr(dev) != [Text("global:3")] && DevStr(dev)[0] != Text("port:RESERVED(")
  {
    assert [Text("phy:"), Dec(dev as int)][0] != Text("serdes");
    assert [Text("port:"), Dec(dev as int - 0x10)][0] != Text("phy:");
  }

  /** The device of the switch's global registers, read for the identifier. */
  const SwitchIdDev: nat := 0x10
  /** The switch identifier register. */
  const SwitchIdReg: bv16 := 3

  /** Where print_mv6_heading reads the switch identifier: register 3 of
      device 0x10 on the addressed port. */
  function SwitchIdLoc(loc: Loc): Loc
  {
    loc.(phyId := PhyIdC45(C45Port(loc), SwitchIdDev), reg := SwitchIdReg)
  }

  /** That location is a clause-45 address of the same port, device 0x10. */
  lemma SwitchIdLocDecodes(loc: Loc)
    ensures var l := SwitchIdLoc(loc);
      IsC45(l) && C45Port(l) == C45Port(loc) && C45Dev(l) == SwitchIdDev &&
      l.reg == SwitchIdReg && l.ifnam == loc.ifnam
  {
    C45RoundTrip(loc.ifnam, SwitchIdReg, C45Port(loc), SwitchIdDev);
  }

  /** print_mv6_heading. The number after "dev:" is the port, not the device,
      as the source itself marks; a failed read shows as an identifier. */
  function Heading(loc: Loc, indent: nat, read: Reader): seq<Token>
  {
    var id := AsU16(read(SwitchIdLoc(loc)));
    [Pad(indent), Text("mv6: model:")] + ModelStr(id) +
    [Text(" dev:"), Dec(C45Port(loc)), Text(" ")] + DevStr(Trunc16(C45Dev(loc))) + [Text("\n")]
  }

  /** The heading depends on that one read only, and shows the port. */
  lemma HeadingShows(loc: Loc, indent: nat, a: Reader, b: Reader)
    requires a(SwitchIdLoc(loc)) == b(SwitchIdLoc(loc))
    ensures Heading(loc, indent, a) == Heading(loc, indent, b)
    ensures var h := Heading(loc, indent, a);
      var k := 2 + |ModelStr(AsU16(a(SwitchIdLoc(loc))))|;
      h[k] == Text(" dev:") && h[k + 1] == Dec(C45Port(loc))
  {
  }

  /** 10 to the power n. */
  function Pow10(n: nat): (p: nat)
    ensures p >= 1
  {
    if n == 0 then 1 else 10 * Pow10(n - 1)
  }

  /** The speed field of the port status and control registers, bits 9..8. */
  function SpeedField(val: bv16): (f: nat)
    ensures f < 4
  {
    ((val & 0x0300) >> 8) as nat
  }

  /** The speed in Mb/s: ten times ten to the speed field. */
  function PortSpeed(val: bv16): nat
  {
    10 * Pow10(SpeedField(val))
  }

  /** The four speeds the field selects. */
  lemma PortSpeedValues(val: bv16)
    ensures SpeedField(val) == 0 ==> PortSpeed(val) == 10
    ensures SpeedField(val) == 1 ==> PortSpeed(val) == 100
    ensures SpeedField(val) == 2 ==> PortSpeed(val) == 1000
    ensures SpeedField(val) == 3 ==> PortSpeed(val) == 10000
  {
  }

  /** The speed loop of mv6_port_ps and mv6_port_pc, as written. */
  method ComputeSpeed(val: bv16) returns (speed: int)
    ensures speed == PortSpeed(val)
  {
    speed := 10;
    var mult := SpeedField(val);
    while mult != 0
      invariant 0 <= mult <= SpeedField(val)
      invariant speed * Pow10(mult) == PortSpeed(val)
    {
      speed := speed * 10;
      mult := mult - 1;
    }
  }

  /** The flags of the port status register. */
  const PsFlags: seq<FlagSpec> := [
    FlagSpec("pause-en", 0x8000), FlagSpec("my-pause", 0x4000),
    FlagSpec("phy-detect", 0x1000), FlagSpec("link", 0x0800),
    FlagSpec("eee", 0x0040), FlagSpec("tx-paused", 0x0020),
    FlagSpec("flow-ctrl", 0x0010)]

  /** The flags of the port control register. */
  const PcFlags: seq<FlagSpec> := [
    FlagSpec("router-header", 0x0800), FlagSpec("igmp-snoop", 0x0400),
    FlagSpec("vlan-tunnel", 0x0080), FlagSpec("tag-if-both", 0x0040)]

  /** mv6_port_ps: header, flags, speed and duplex, and the mode nibble. */
  function PortPs(val: bv16, indent: nat): seq<Token>
  {
    [Pad(indent), Text("mv6: reg:PS(0x00) val:"), Hex(val as nat, 4), Text("\n"),
     AttrName("flags", indent + Indent)] + FlagLine(PsFlags, val) +
    [AttrName("speed", indent + Indent), Dec(PortSpeed(val)), Text("-"),
     Text(DuplexName(IsSet(val, 0x0400))), Text("\n"),
     AttrName("mode", indent + Indent), Hex((val & 0xf) as nat, 1), Text("\n")]
  }

  /** The port status decoding shows each flag as its bit says, the speed
      the speed field selects, the duplex bit and the low nibble. */
  lemma PortPsShows(val: bv16, indent: nat)
    ensures var out := PortPs(val, indent);
      |out| == 27 &&
      (forall k :: 0 <= k < 7 ==> out[5 + 2 * k] == Flag(PsFlags[k].name, IsSet(val, PsFlags[k].mask))) &&
      out[20] == Dec(PortSpeed(val)) &&
      out[22] == Text(if IsSet(val, 0x0400) then "full" else "half") &&
      out[25] == Hex((val & 0xf) as nat, 1) && (val & 0xf) as nat < 16
  {
    var out := PortPs(val, indent);
    forall k | 0 <= k < 7
      ensures out[5 + 2 * k] == Flag(PsFlags[k].name, IsSet(val, PsFlags[k].mask))
    {
      FlagLineShows(PsFlags, val, k);
    }
  }

  // The labels of the two-bit fields of the port control register.
  const EgressModes: seq<string> := ["00, unmodified", "01, untagged", "10, tagged", "11, reserved"]
  const FrameModes: seq<string> := ["00, normal", "01, DSA", "10, provider", "11, ether type DSA"]
  const InitialPris: seq<string> := ["00, port defaults", "01, tag prio", "10, IP prio", "11, tag & IP prio"]
  const EgressFloods: seq<string> := ["00, deny UC & MC", "01, allow UC", "10, allow MC", "11, allow UC & MC"]
  const PortStates: seq<string> := ["00, disabled", "01, blocking", "10, learning", "11, forwarding"]

  /** A two-bit field of a register, `mask` covering bits shift + 1 .. shift. */
  function Field2(val: bv16, mask: bv16, shift: nat): (f: nat)
    requires shift < 15 && mask == 3 << shift
    ensures f < 4
  {
    ((val & mask) >> shift) as nat
  }

  /** One labelled line: the attribute name and the label of the field value,
      ended by puts' newline. */
  function Labelled(attr: string, labels: seq<string>, f: nat, indent: nat): seq<Token>
    requires f < |labels|
  {
    [AttrName(attr, indent), Text(labels[f]), Text("\n")]
  }

  /** mv6_port_pc: header, flags and the five labelled fields. */
  function PortPc(val: bv16, indent: nat): seq<Token>
  {
    [Pad(indent), Text("mv6: reg:PC(0x04) val:"), Hex(val as nat, 4), Text("\n"),
     AttrName("flags", indent + Indent)] + FlagLine(PcFlags, val) +
    Labelled("egress-mode", EgressModes, Field2(val, 0x3000, 12), indent + Indent) +
    Labelled("frame-mode", FrameModes, Field2(val, 0x0300, 8), indent + Indent) +
    Labelled("initial-pri", InitialPris, Field2(val, 0x0030, 4), indent + Indent) +
    Labelled("egress-floods", EgressFloods, Field2(val, 0x000c, 2), indent + Indent) +
    Labelled("port-state", PortStates, Field2(val, 0x0003, 0), indent + Indent)
  }

  /** The two binary digits a label starts with. */
  function Binary2(f: nat): string
    requires f < 4
  {
    [if f >= 2 then '1' else '0', if f % 2 == 1 then '1' else '0']
  }

  /** Every label names its own field value in binary before the comma. */
  lemma LabelsNumbered(f: nat)
    requires f < 4
    ensures EgressModes[f][..2] == Binary2(f) && FrameModes[f][..2] == Binary2(f) &&
            InitialPris[f][..2] == Binary2(f) && EgressFloods[f][..2] == Binary2(f) &&
            PortStates[f][..2] == Binary2(f)
  {
  }

  /** The port control decoding shows each flag as its bit says and, for each
      two-bit field, the label whose number is the field value. */
  lemma PortPcShows(val: bv16, indent: nat)
    ensures var out := PortPc(val, indent);
      |out| == 28 &&
      (forall k :: 0 <= k < 4 ==> out[5 + 2 * k] == Flag(PcFlags[k].name, IsSet(val, PcFlags[k].mask))) &&
      out[14] == Text(EgressModes[Field2(val, 0x3000, 12)]) &&
      out[17] == Text(FrameModes[Field2(val, 0x0300, 8)]) &&
      out[20] == Text(InitialPris[Field2(val, 0x0030, 4)]) &&
      out[23] == Text(EgressFloods[Field2(val, 0x000c, 2)]) &&
      out[26] == Text(PortStates[Field2(val, 0x0003, 0)])
  {
    var out := PortPc(val, indent);
    forall k | 0 <= k < 4
      ensures out[5 + 2 * k] == Flag(PcFlags[k].name, IsSet(val, PcFlags[k].mask))
    {
      FlagLineShows(PcFlags, val, k);
    }
  }

  /** The register decoders of the switch port printer. */
  datatype PortDecoder = DecodePs | DecodePc

  function DecodePort(d: PortDecoder, val: bv16, indent: nat): seq<Token>
  {
    match d
    case DecodePs => PortPs(val, indent)
    case DecodePc => PortPc(val, indent)
  }

  /** The register blocks of the switch (struct mv6_port_desc instances). */
  datatype PortClass = PortRegs | SerdesRegs | Global1Regs | Global2Regs | Global3Regs

  /** `n` zeros, as in the unset tail of a C int array. */
  function Zeros(n: nat): (z: seq<int>)
    ensures |z| == n && forall i :: 0 <= i < n ==> z[i] == 0
  {
    if n == 0 then [] else [0] + Zeros(n - 1)
  }

  /** The summary list of a block: registers to show, ended by -1. */
  function Summary(pc: PortClass): (s: seq<int>)
    ensures |s| == 32
  {
    if pc == PortRegs then [0, 4, -1] + Zeros(29) else [-1] + Zeros(31)
  }

  /** The printer slots of a block, one per register. */
  function Printers(pc: PortClass): (slots: seq<Option<PortDecoder>>)
    ensures |slots| == 32
  {
    if pc == PortRegs then [Some(DecodePs), None, None, None, Some(DecodePc)] + Nones(27)
    else Nones(32)
  }

  /** Where the -1 ending the summary list stands. */
  function SummaryEnd(pc: PortClass): (n: nat)
    ensures n < 32 && Summary(pc)[n] < 0
    ensures forall i :: 0 <= i < n ==> Summary(pc)[i] >= 0
  {
    if pc == PortRegs then 2 else 0
  }

  /** Only the port block has decoders: PS for register 0, PC for register 4. */
  lemma PrintersDecode(pc: PortClass, i: nat)
    requires i < 32
    ensures Printers(pc)[i] == Some(DecodePs) <==> pc == PortRegs && i == 0
    ensures Printers(pc)[i] == Some(DecodePc) <==> pc == PortRegs && i == 4
  {
  }

  /** mv6_port_one: a failed read returns its error and prints nothing;
      otherwise the block's decoder for the register, or the raw value. */
  function PortOne(loc: Loc, indent: nat, pd: Option<PortClass>, read: Reader): (p: Printed)
    ensures p.Printed? && (p.rc < 0 <==> read(loc).Fail?)
  {
    match read(loc)
    case Fail(e) => Printed([], e)
    case Val(v) =>
      match PortDecoderFor(pd, loc.reg)
      case None =>
        Printed([Pad(indent), Text("mv6: reg:"), Hex(loc.reg as nat, 2),
                 Text(" val:"), Hex(v as nat, 4), Text("\n")], 0)
      case Some(d) => Printed(DecodePort(d, v, indent), 0)
  }

  /** The decoder mv6_port_one uses: none above register 0x1f, without a
      block, or for an empty slot. */
  function PortDecoderFor(pd: Option<PortClass>, reg: bv16): Option<PortDecoder>
  {
    if reg > 0x1f || pd.None? then None else Printers(pd.value)[reg as nat]
  }

  /** Only register 0 (PS) and register 4 (PC) of a port are decoded. */
  lemma PortDecoderForRegisters(pd: Option<PortClass>, reg: bv16)
    ensures PortDecoderFor(pd, reg) == Some(DecodePs) <==> pd == Some(PortRegs) && reg == 0
    ensures PortDecoderFor(pd, reg) == Some(DecodePc) <==> pd == Some(PortRegs) && reg == 4
    ensures PortDecoderFor(pd, reg).None? <==> !(pd == Some(PortRegs) && (reg == 0 || reg == 4))
  {
    if pd.Some? && reg <= 0x1f {
      PrintersDecode(pd.value, reg as nat);
      assert (reg as nat == 0 <==> reg == 0) && (reg as nat == 4 <==> reg == 4);
    }
  }

  /** What mv6_port_one prints: a failed read's error with no output;
      otherwise PS for register 0 and PC for register 4 of a port, and the
      raw value for every other register or block, all returning 0. */
  lemma PortOneOutcome(loc: Loc, indent: nat, pd: Option<PortClass>, read: Reader)
    ensures read(loc).Fail? ==> PortOne(loc, indent, pd, read) == Printed([], read(loc).err)
    ensures read(loc).Val? && pd == Some(PortRegs) && loc.reg == 0 ==>
      PortOne(loc, indent, pd, read) == Printed(PortPs(read(loc).v, indent), 0)
    ensures read(loc).Val? && pd == Some(PortRegs) && loc.reg == 4 ==>
      PortOne(loc, indent, pd, read) == Printed(PortPc(read(loc).v, indent), 0)
    ensures read(loc).Val? && !(pd == Some(PortRegs) && (loc.reg == 0 || loc.reg == 4)) ==>
      PortOne(loc, indent, pd, read) ==
        Printed([Pad(indent), Text("mv6: reg:"), Hex(loc.reg as nat, 2),
                 Text(" val:"), Hex(read(loc).v as nat, 4), Text("\n")], 0)
  {
    PortDecoderForRegisters(pd, loc.reg);
  }

  /** The first n entries of the summary of a block, each followed by an
      empty line. */
  function SummaryOut(loc: Loc, indent: nat, pc: PortClass, read: Reader, n: nat): seq<Token>
    requires n <= SummaryEnd(pc)
  {
    if n == 0 then []
    else SummaryOut(loc, indent, pc, read, n - 1) +
         PortOne(loc.(reg := Trunc16(Summary(pc)[n - 1])), indent, Some(pc), read).out + [Text("\n")]
  }

  /** print_mv6_port: one register, or the whole summary list; the summary
      always returns 0, and with no block it dereferences NULL. */
  function Mv6Port(loc: Loc, indent: nat, pd: Option<PortClass>, read: Reader): Printed
  {
    if loc.reg != RegSummary then PortOne(loc, indent, pd, read)
    else if pd.None? then Fault([])
    else Printed(SummaryOut(loc, indent, pd.value, read, SummaryEnd(pd.value)), 0)
  }

  /** print_mv6_port, the summary loop as written. */
  method PrintMv6Port(loc: Loc, indent: nat, pd: Option<PortClass>, read: Reader) returns (p: Printed)
    ensures p == Mv6Port(loc, indent, pd, read)
  {
    if loc.reg != RegSummary {
      return PortOne(loc, indent, pd, read);
    }
    if pd.None? {
      return Fault([]);
    }
    var summary := Summary(pd.value);
    var out := [];
    var i := 0;
    while summary[i] >= 0
      invariant 0 <= i <= SummaryEnd(pd.value)
      invariant out == SummaryOut(loc, indent, pd.value, read, i)
      decreases SummaryEnd(pd.value) - i
    {
      var one := PortOne(loc.(reg := Trunc16(summary[i])), indent, pd, read);
      out := out + one.out + [Text("\n")];
      i := i + 1;
    }
    return Printed(out, 0);
  }

  /** The summary of a port shows its status register and its control
      register, in that order. */
  lemma PortSummary(loc: Loc, indent: nat, read: Reader)
    requires loc.reg == RegSummary
    ensures Mv6Port(loc, indent, Some(PortRegs), read) ==
      Printed(PortOne(loc.(reg := 0), indent, Some(PortRegs), read).out + [Text("\n")] +
              PortOne(loc.(reg := 4), indent, Some(PortRegs), read).out + [Text("\n")], 0)
  {
    PortSummaryEntries();
    SummaryOutStep(loc, indent, PortRegs, read, 1, 0);
    SummaryOutStep(loc, indent, PortRegs, read, 2, 4);
    var first := PortOne(loc.(reg := 0), indent, Some(PortRegs), read).out + [Text("\n")];
    assert SummaryOut(loc, indent, PortRegs, read, 1) == [] + first;
    assert [] + first == first;
  }

  /** One more entry of the summary list, at the register it names. */
  lemma SummaryOutStep(loc: Loc, indent: nat, pc: PortClass, read: Reader, n: nat, reg: bv16)
    requires 0 < n <= SummaryEnd(pc) && Trunc16(Summary(pc)[n - 1]) == reg
    ensures SummaryOut(loc, indent, pc, read, n) ==
      SummaryOut(loc, indent, pc, read, n - 1) + PortOne(loc.(reg := reg), indent, Some(pc), read).out + [Text("\n")]
  {
  }

  /** The registers listed in the summary of a port: 0, then 4. */
  lemma PortSummaryEntries()
    ensures SummaryEnd(PortRegs) == 2
    ensures Trunc16(Summary(PortRegs)[0]) == 0 && Trunc16(Summary(PortRegs)[1]) == 4
  {
  }

  /** The SERDES and global blocks have an empty summary. */
  lemma OtherSummariesEmpty(loc: Loc, indent: nat, pc: PortClass, read: Reader)
    requires loc.reg == RegSummary && pc != PortRegs
    ensures Mv6Port(loc, indent, Some(pc), read) == Printed([], 0)
  {
  }

  /** The block print_mv6tool selects for a device: None for 0x1e and 0x1f,
      and for the PHYs below 0xf, which it hands to print_phytool instead. */
  function ClassOf(dev: nat): Option<PortClass>
  {
    if dev < 0xf then None
    else if dev == 0xf then Some(SerdesRegs)
    else if dev < 0x1b then Some(PortRegs)
    else if dev == 0x1b then Some(Global1Regs)
    else if dev == 0x1c then Some(Global2Regs)
    else if dev == 0x1d then Some(Global3Regs)
    else None
  }

  /** print_mv6tool: clause-45 addresses only; the heading, then the PHY
      printer for devices below 0xf or the switch block one level deeper. */
  function Mv6tool(loc: Loc, indent: nat, read: Reader): Printed
  {
    if !IsC45(loc) then Printed([], 1)
    else if C45Dev(loc) < 0xf then
      Prefixed(Heading(loc, indent, read), Phytool(PhyPrinters, loc, indent + Indent, read))
    else
      Prefixed(Heading(loc, indent, read), Mv6Port(loc, indent + Indent, ClassOf(C45Dev(loc)), read))
  }

  /** print_mv6tool, calling the two printers that loop. */
  method PrintMv6tool(loc: Loc, indent: nat, read: Reader) returns (p: Printed)
    ensures p == Mv6tool(loc, indent, read)
  {
    if !IsC45(loc) {
      return Printed([], 1);
    }
    var head := Heading(loc, indent, read);
    var dev := C45Dev(loc);
    var rest;
    if dev < 0xf {
      rest := PrintPhytool(PhyPrinters, loc, indent + Indent, read);
    } else {
      rest := PrintMv6Port(loc, indent + Indent, ClassOf(dev), read);
    }
    return Prefixed(head, rest);
  }

  /** A clause-22 address is refused with 1 and no output. */
  lemma Mv6toolNeedsC45(loc: Loc, indent: nat, read: Reader)
    requires !IsC45(loc)
    ensures Mv6tool(loc, indent, read) == Printed([], 1)
  {
  }

  /** Every clause-45 address gets the heading first. */
  lemma Mv6toolHeading(loc: Loc, indent: nat, read: Reader)
    requires IsC45(loc)
    ensures var h := Heading(loc, indent, read);
      |Mv6tool(loc, indent, read).out| >= |h| && Mv6tool(loc, indent, read).out[..|h|] == h
  {
  }

  /** print_mv6_port dereferences NULL only for the summary of a missing
      block; a single register is always printed. */
  lemma Mv6PortFaults(loc: Loc, indent: nat, pd: Option<PortClass>, read: Reader)
    ensures Mv6Port(loc, indent, pd, read).Fault? <==> loc.reg == RegSummary && pd.None?
  {
  }

  /** The devices without a block: the PHYs and the two reserved addresses. */
  lemma ClassOfNone(dev: nat)
    ensures ClassOf(dev).None? <==> dev < 0xf || dev >= 0x1e
  {
  }

  /** The only undefined behaviour: the summary of devices 0x1e and 0x1f,
      which have no block. */
  lemma Mv6toolFaults(loc: Loc, indent: nat, read: Reader)
    ensures Mv6tool(loc, indent, read).Fault? <==>
      IsC45(loc) && C45Dev(loc) >= 0x1e && loc.reg == RegSummary
  {
    if IsC45(loc) {
      var head := Heading(loc, indent, read);
      var dev := C45Dev(loc);
      if dev < 0xf {
        PhytoolNeverFaults(loc, indent + Indent, read);
      } else {
        ClassOfNone(dev);
        Mv6PortFaults(loc, indent + Indent, ClassOf(dev), read);
      }
    }
  }

  /** Devices 0x10..0x1a are switch ports, 0x1b..0x1d the global blocks, 0xf
      the SERDES. */
  lemma ClassOfDevices(dev: nat)
    ensures ClassOf(dev) == Some(PortRegs) <==> 0x10 <= dev <= 0x1a
    ensures ClassOf(dev) == Some(SerdesRegs) <==> dev == 0xf
    ensures ClassOf(dev).Some? && ClassOf(dev).value in {Global1Regs, Global2Regs, Global3Regs} <==>
      0x1b <= dev <= 0x1d
  {
  }
}
