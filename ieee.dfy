/** The generic clause-22 printer (print_phy.c): BMCR and BMSR decoded flag
    by flag, any other register as a plain value, and the table that picks a
    printer by PHY identifier. */
module Ieee {
  import opened Wrappers
  import opened Mdio
  import opened Transport
  import opened Output

  // Bits of the basic mode control register, register 0 (linux/mii.h).
  const BmcrReset: bv16 := 0x8000
  const BmcrLoopback: bv16 := 0x4000
  const BmcrSpeed100: bv16 := 0x2000
  const BmcrAnEnable: bv16 := 0x1000
  const BmcrPowerDown: bv16 := 0x0800
  const BmcrIsolate: bv16 := 0x0400
  const BmcrAnRestart: bv16 := 0x0200
  const BmcrFullDuplex: bv16 := 0x0100
  const BmcrCollisionTest: bv16 := 0x0080
  const BmcrSpeed1000: bv16 := 0x0040

  // Bits of the basic mode status register, register 1 (linux/mii.h).
  const Bmsr100Base4: bv16 := 0x8000
  const Bmsr100Full: bv16 := 0x4000
  const Bmsr100Half: bv16 := 0x2000
  const Bmsr10Full: bv16 := 0x1000
  const Bmsr10Half: bv16 := 0x0800
  const Bmsr100Full2: bv16 := 0x0400
  const Bmsr100Half2: bv16 := 0x0200
  const BmsrExtStatus: bv16 := 0x0100
  const BmsrAnComplete: bv16 := 0x0020
  const BmsrRemoteFault: bv16 := 0x0010
  const BmsrAnCapable: bv16 := 0x0008
  const BmsrLink: bv16 := 0x0004
  const BmsrJabber: bv16 := 0x0002
  const BmsrExtRegister: bv16 := 0x0001

  /** The flags shown for BMCR, in the order printed. */
  const BmcrFlags: seq<FlagSpec> := [
    FlagSpec("reset", BmcrReset), FlagSpec("loopback", BmcrLoopback),
    FlagSpec("aneg-enable", BmcrAnEnable), FlagSpec("power-down", BmcrPowerDown),
    FlagSpec("isolate", BmcrIsolate), FlagSpec("aneg-restart", BmcrAnRestart),
    FlagSpec("collision-test", BmcrCollisionTest)]

  /** The link capabilities shown for BMSR. */
  const BmsrCapabilities: seq<FlagSpec> := [
    FlagSpec("100-b4", Bmsr100Base4), FlagSpec("100-f", Bmsr100Full),
    FlagSpec("100-h", Bmsr100Half), FlagSpec("10-f", Bmsr10Full),
    FlagSpec("10-h", Bmsr10Half), FlagSpec("100-t2-f", Bmsr100Full2),
    FlagSpec("100-t2-h", Bmsr100Half2)]

  /** The other flags shown for BMSR. */
  const BmsrFlags: seq<FlagSpec> := [
    FlagSpec("ext-status", BmsrExtStatus), FlagSpec("aneg-complete", BmsrAnComplete),
    FlagSpec("remote-fault", BmsrRemoteFault), FlagSpec("aneg-capable", BmsrAnCapable),
    FlagSpec("link", BmsrLink), FlagSpec("jabber", BmsrJabber),
    FlagSpec("ext-register", BmsrExtRegister)]

  /** The speed BMCR selects: 10 by default, 100 when SPEED100 is set, but
      1000 whenever SPEED1000 is set, which takes precedence. */
  function BmcrSpeed(val: bv16): (speed: nat)
    ensures speed == 1000 <==> IsSet(val, BmcrSpeed1000)
    ensures speed == 100 <==> IsSet(val, BmcrSpeed100) && !IsSet(val, BmcrSpeed1000)
    ensures speed == 10 <==> !IsSet(val, BmcrSpeed100) && !IsSet(val, BmcrSpeed1000)
  {
    var speed := if IsSet(val, BmcrSpeed100) then 100 else 10;
    if IsSet(val, BmcrSpeed1000) then 1000 else speed
  }

  function DuplexName(full: bool): string
  {
    if full then "full" else "half"
  }

  /** ieee_bmcr: the header line, the flag line and the speed line. */
  function Bmcr(val: bv16, indent: nat): seq<Token>
  {
    [Pad(indent), Text("ieee-phy: reg:BMCR(0x00) val:"), Hex(val as nat, 4), Text("\n"),
     Pad(indent + Indent), Text("flags: ")] + FlagLine(BmcrFlags, val) +
    [Pad(indent + Indent), Text("speed: "), Dec(BmcrSpeed(val)), Text("-"),
     Text(DuplexName(IsSet(val, BmcrFullDuplex))), Text("\n")]
  }

  /** ieee_bmsr: the header line, the capability line and the flag line. */
  function Bmsr(val: bv16, indent: nat): seq<Token>
  {
    [Pad(indent), Text("ieee-phy: reg:BMSR(0x01) val:"), Hex(val as nat, 4), Text("\n"),
     Pad(indent + Indent), Text("link capabilities: ")] + FlagLine(BmsrCapabilities, val) +
    [Pad(indent + Indent), Text("flags: ")] + FlagLine(BmsrFlags, val)
  }

  /** The BMCR decoding shows each flag of the table highlighted exactly when
      its bit is set, then the selected speed and the duplex bit. */
  lemma BmcrShows(val: bv16, indent: nat)
    ensures var out := Bmcr(val, indent);
      |out| == 26 &&
      (forall k :: 0 <= k < 7 ==> out[6 + 2 * k] == Flag(BmcrFlags[k].name, IsSet(val, BmcrFlags[k].mask))) &&
      out[22] == Dec(BmcrSpeed(val)) &&
      out[24] == Text(if IsSet(val, BmcrFullDuplex) then "full" else "half")
  {
    var out := Bmcr(val, indent);
    forall k | 0 <= k < 7
      ensures out[6 + 2 * k] == Flag(BmcrFlags[k].name, IsSet(val, BmcrFlags[k].mask))
    {
      FlagLineShows(BmcrFlags, val, k);
    }
  }

  /** The BMSR decoding shows the seven capabilities, then the seven flags,
      each highlighted exactly when its bit is set. */
  lemma BmsrShows(val: bv16, indent: nat)
    ensures var out := Bmsr(val, indent);
      |out| == 36 &&
      (forall k :: 0 <= k < 7 ==> out[6 + 2 * k] == Flag(BmsrCapabilities[k].name, IsSet(val, BmsrCapabilities[k].mask))) &&
      (forall k :: 0 <= k < 7 ==> out[22 + 2 * k] == Flag(BmsrFlags[k].name, IsSet(val, BmsrFlags[k].mask)))
  {
    var out := Bmsr(val, indent);
    forall k | 0 <= k < 7
      ensures out[6 + 2 * k] == Flag(BmsrCapabilities[k].name, IsSet(val, BmsrCapabilities[k].mask))
      ensures out[22 + 2 * k] == Flag(BmsrFlags[k].name, IsSet(val, BmsrFlags[k].mask))
    {
      FlagLineShows(BmsrCapabilities, val, k);
      FlagLineShows(BmsrFlags, val, k);
    }
  }

  /** The register decoders of the IEEE printer. */
  datatype Decoder = DecodeBmcr | DecodeBmsr

  /** ieee_reg_printers: 32 slots, only the first two filled. */
  const RegPrinters: seq<Option<Decoder>> := [Some(DecodeBmcr), Some(DecodeBmsr)] + Nones(30)

  /** The decoder ieee_one uses for a register, guarding the table bound. */
  function DecoderFor(reg: bv16): Option<Decoder>
  {
    if reg > 0x1f then None else RegPrinters[reg as nat]
  }

  /** Only BMCR and BMSR are decoded. */
  lemma DecoderForRegisters(reg: bv16)
    ensures DecoderFor(reg) == Some(DecodeBmcr) <==> reg == 0
    ensures DecoderFor(reg) == Some(DecodeBmsr) <==> reg == 1
    ensures DecoderFor(reg) == None <==> reg > 1
  {
    if reg <= 0x1f {
      assert (reg as nat == 0 <==> reg == 0) && (reg as nat == 1 <==> reg == 1);
    }
  }

  function Decode(d: Decoder, val: bv16, indent: nat): seq<Token>
  {
    match d
    case DecodeBmcr => Bmcr(val, indent)
    case DecodeBmsr => Bmsr(val, indent)
  }

  /** ieee_one: a failed read returns its error and prints nothing; otherwise
      the register is decoded (or shown raw) and its bit array printed. */
  function IeeeOne(loc: Loc, indent: nat, read: Reader): (p: Printed)
    ensures p.Printed? && (p.rc < 0 <==> read(loc).Fail?)
  {
    match read(loc)
    case Fail(e) => Printed([], e)
    case Val(v) =>
      var head := match DecoderFor(loc.reg)
        case None => [Pad(indent), Text("ieee-phy: reg:"), Hex(loc.reg as nat, 2),
                      Text(" val:"), Hex(v as nat, 4), Text("\n")]
        case Some(d) => Decode(d, v, indent);
      Printed(head + BitArray(v, indent + Indent), 0)
  }

  /** The outcome of ieee_one follows the read: its error, or 0 with the bit
      array of the value read closing the output, after BMCR for register 0,
      BMSR for register 1 and the raw dump line for every other register. */
  lemma IeeeOneOutcome(loc: Loc, indent: nat, read: Reader)
    ensures read(loc).Fail? ==> IeeeOne(loc, indent, read) == Printed([], read(loc).err)
    ensures read(loc).Val? ==>
      var p := IeeeOne(loc, indent, read);
      p.rc == 0 && |p.out| >= 43 && p.out[|p.out| - 43..] == BitArray(read(loc).v, indent + Indent)
    ensures read(loc).Val? && loc.reg == 0 ==>
      IeeeOne(loc, indent, read).out == Bmcr(read(loc).v, indent) + BitArray(read(loc).v, indent + Indent)
    ensures read(loc).Val? && loc.reg == 1 ==>
      IeeeOne(loc, indent, read).out == Bmsr(read(loc).v, indent) + BitArray(read(loc).v, indent + Indent)
    ensures read(loc).Val? && loc.reg > 1 ==>
      IeeeOne(loc, indent, read).out ==
        [Pad(indent), Text("ieee-phy: reg:"), Hex(loc.reg as nat, 2),
         Text(" val:"), Hex(read(loc).v as nat, 4), Text("\n")] + BitArray(read(loc).v, indent + Indent)
  {
    DecoderForRegisters(loc.reg);
    if read(loc).Val? {
      BitArrayShowsEveryBit(read(loc).v, indent + Indent, 0);
    }
  }

  /** print_phy_ieee: one register, or for the summary the identifier followed
      by BMCR and BMSR one level deeper; the summary always succeeds. */
  function PhyIeee(loc: Loc, indent: nat, read: Reader): Printed
  {
    if loc.reg != RegSummary then IeeeOne(loc, indent, read)
    else
      Printed([Pad(indent), Text("ieee-phy: id:"), Hex(PhyId(loc, read) as nat, 8), Text("\n\n")] +
              IeeeOne(loc.(reg := 0), indent + Indent, read).out + [Text("\n")] +
              IeeeOne(loc.(reg := 1), indent + Indent, read).out, 0)
  }

  /** A single register is shown from that one read alone. */
  lemma PhyIeeeReadsOneRegister(loc: Loc, indent: nat, a: Reader, b: Reader)
    requires loc.reg != RegSummary && a(loc) == b(loc)
    ensures PhyIeee(loc, indent, a) == PhyIeee(loc, indent, b)
  {
  }

  /** The summary reads registers 0 to 3 of the device and nothing else, and
      returns 0 even when those reads fail. */
  lemma PhyIeeeSummaryReads(loc: Loc, indent: nat, a: Reader, b: Reader)
    requires loc.reg == RegSummary
    requires forall r: bv16 :: r < 4 ==> a(loc.(reg := r)) == b(loc.(reg := r))
    ensures PhyIeee(loc, indent, a) == PhyIeee(loc, indent, b)
    ensures PhyIeee(loc, indent, a).rc == 0
  {
    assert a(loc.(reg := 0)) == b(loc.(reg := 0)) && a(loc.(reg := 1)) == b(loc.(reg := 1));
    PhyIdReadsOnlyIdRegisters(loc, a, b);
  }

  /** The printers an entry of the table can name; this build has only the
      generic IEEE one. */
  datatype PhyPrint = PrintPhyIeee

  /** Calling the printer an entry names. */
  function RunPrinter(printer: PhyPrint, loc: Loc, indent: nat, read: Reader): Printed
  {
    match printer
    case PrintPhyIeee => PhyIeee(loc, indent, read)
  }

  /** An entry of the phytool printer table: its printer applies to the PHYs
      whose identifier, masked, equals `id`. */
  datatype PhyPrinter = PhyPrinter(id: bv32, mask: bv32, printer: PhyPrint)

  predicate Applies(p: PhyPrinter, phyId: bv32)
  {
    phyId & p.mask == p.id
  }

  /** The table: only the catch-all IEEE printer (mask 0, id 0). */
  const PhyPrinters: seq<PhyPrinter> := [PhyPrinter(0, 0, PrintPhyIeee)]

  /** The first entry of `table` that applies, if any. */
  function FirstMatch(table: seq<PhyPrinter>, phyId: bv32): (k: Option<nat>)
    ensures k.Some? ==> k.value < |table| && Applies(table[k.value], phyId)
    ensures k.Some? ==> forall j :: 0 <= j < k.value ==> !Applies(table[j], phyId)
    ensures k.None? ==> forall j :: 0 <= j < |table| ==> !Applies(table[j], phyId)
  {
    if table == [] then None
    else if Applies(table[0], phyId) then Some(0)
    else match FirstMatch(table[1..], phyId)
      case None => None
      case Some(k) => Some(k + 1)
  }

  /** print_phytool over a printer table: the printer of the first entry that
      applies, or -1 with no output when none does. */
  function Phytool(table: seq<PhyPrinter>, loc: Loc, indent: nat, read: Reader): Printed
  {
    match FirstMatch(table, PhyId(loc, read))
    case None => Printed([], -1)
    case Some(k) => RunPrinter(table[k].printer, loc, indent, read)
  }

  /** print_phytool, the scan of the printer table as written. */
  method PrintPhytool(table: seq<PhyPrinter>, loc: Loc, indent: nat, read: Reader) returns (p: Printed)
    ensures p == Phytool(table, loc, indent, read)
  {
    var id := PhyId(loc, read);
    var i := 0;
    while i < |table|
      invariant 0 <= i <= |table|
      invariant forall j :: 0 <= j < i ==> !Applies(table[j], id)
    {
      if Applies(table[i], id) {
        assert FirstMatch(table, id) == Some(i);
        return RunPrinter(table[i].printer, loc, indent, read);
      }
      i := i + 1;
    }
    return Printed([], -1);
  }

  /** The catch-all entry applies to every identifier, so print_phytool never
      returns -1: it is the IEEE printer. */
  lemma PhytoolIsIeee(loc: Loc, indent: nat, read: Reader)
    ensures Phytool(PhyPrinters, loc, indent, read) == PhyIeee(loc, indent, read)
  {
    assert Applies(PhyPrinters[0], PhyId(loc, read));
  }

  /** print_phytool with the table of this build always reaches a printer,
      so it never takes the NULL path. */
  lemma PhytoolNeverFaults(loc: Loc, indent: nat, read: Reader)
    ensures Phytool(PhyPrinters, loc, indent, read).Printed?
  {
    PhytoolIsIeee(loc, indent, read);
  }
}
