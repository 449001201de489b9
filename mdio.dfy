/** The location of one register and the composite 16-bit PHY address
    (phytool.h), with the clause-45 layout constants of linux/mdio.h. */
module Mdio {

  /** Bit 15 flags a clause-45 address (MDIO_PHY_ID_C45). */
  const PhyIdC45Flag: bv16 := 0x8000
  /** The port field, bits 9..5 (MDIO_PHY_ID_PRTAD). */
  const PhyIdPrtad: bv16 := 0x03e0
  /** The device field, bits 4..0 (MDIO_PHY_ID_DEVAD). */
  const PhyIdDevad: bv16 := 0x001f

  /** Extra indentation of nested output (INDENT). */
  const Indent: nat := 3
  /** The register value meaning "print the summary" (REG_SUMMARY). */
  const RegSummary: bv16 := 0xffff
  /** Capacity of the interface-name buffer (IFNAMSIZ). */
  const IfNameSize: nat := 16

  /** struct loc: one register on one device behind one interface. */
  datatype Loc = Loc(ifnam: string, phyId: bv16, reg: bv16)

  /** Conversion of an unsigned C integer to uint16_t: keep the low 16 bits. */
  function Trunc16(n: nat): (r: bv16)
    ensures n < 0x1_0000 ==> r == n as bv16
  {
    (n % 0x1_0000) as bv16
  }

  /** loc_is_c45: the flag bit of the composite address. */
  function IsC45(loc: Loc): (c45: bool)
    ensures c45 <==> loc.phyId as nat >= 0x8000
    ensures loc.phyId < 32 ==> !c45
  {
    loc.phyId & PhyIdC45Flag != 0
  }

  /** loc_c45_dev: the device field, bits 4..0. */
  function C45Dev(loc: Loc): (dev: nat)
    ensures dev < 32
  {
    (loc.phyId & PhyIdDevad) as nat
  }

  /** loc_c45_port: the port field, bits 9..5. */
  function C45Port(loc: Loc): (port: nat)
    ensures port < 32
  {
    ((loc.phyId & PhyIdPrtad) >> 5) as nat
  }

  /** mdio_phy_id_c45(prtad, devad) of linux/mdio.h, truncated to its __u16
      result: the flag, the port shifted into bits 5 and up, the device in the
      low bits. Nothing is masked, so out-of-range numbers spill over. */
  function PhyIdC45(prtad: nat, devad: nat): (id: bv16)
    ensures id & PhyIdC45Flag != 0
  {
    PhyIdC45Flag | (Trunc16(prtad) << 5) | Trunc16(devad)
  }

  /** Bit-level part of the round trip: the two fields of an encoded value. */
  lemma EncodedFields(p: bv16, d: bv16)
    requires p < 32 && d < 32
    ensures (PhyIdC45Flag | (p << 5) | d) & PhyIdDevad == d
    ensures ((PhyIdC45Flag | (p << 5) | d) & PhyIdPrtad) >> 5 == p
  {
  }

  /** A number in 0..31 survives the conversion to bv16 and back. */
  lemma SmallConversion(n: nat)
    requires n < 32
    ensures n as bv16 < 32 && (n as bv16) as nat == n
  {
  }

  /** Encoding a port and a device in 0..31 and decoding the result gives them
      back, with the clause-45 flag set. */
  lemma C45RoundTrip(ifnam: string, reg: bv16, port: nat, dev: nat)
    requires port < 32 && dev < 32
    ensures var loc := Loc(ifnam, PhyIdC45(port, dev), reg);
      IsC45(loc) && C45Port(loc) == port && C45Dev(loc) == dev
  {
    SmallConversion(port);
    SmallConversion(dev);
    EncodedFields(port as bv16, dev as bv16);
  }

  /** A bv16 field value below 32 read as a number and truncated back is itself. */
  lemma FieldConversion(x: bv16)
    requires x < 32
    ensures (x as nat) < 32 && Trunc16(x as nat) == x
  {
    assert (x as nat) as bv16 == x;
  }

  /** Bit-level part of the converse: bits 14..10 clear and bit 15 set leave
      nothing but the flag and the two fields. */
  lemma FieldsRebuild(id: bv16)
    requires id & PhyIdC45Flag != 0 && id & 0x7c00 == 0
    ensures PhyIdC45Flag | (((id & PhyIdPrtad) >> 5) << 5) | (id & PhyIdDevad) == id
  {
  }

  /** Each field, read as a number and truncated back, is the field itself. */
  lemma FieldsTruncate(loc: Loc)
    ensures Trunc16(C45Port(loc)) == (loc.phyId & PhyIdPrtad) >> 5
    ensures Trunc16(C45Dev(loc)) == loc.phyId & PhyIdDevad
  {
    FieldConversion((loc.phyId & PhyIdPrtad) >> 5);
    FieldConversion(loc.phyId & PhyIdDevad);
  }

  /** The converse direction: a clause-45 value whose bits 14..10 are clear is
      exactly the encoding of its own port and device fields. */
  lemma C45Canonical(loc: Loc)
    requires IsC45(loc) && loc.phyId & 0x7c00 == 0
    ensures PhyIdC45(C45Port(loc), C45Dev(loc)) == loc.phyId
  {
    FieldsTruncate(loc);
    FieldsRebuild(loc.phyId);
  }

  /** The port field ignores the flag, bits 14..10 and the device field. */
  lemma C45PortIgnoresOtherBits(loc: Loc, other: bv16)
    ensures C45Port(loc.(phyId := (loc.phyId & 0x03e0) | (other & 0xfc1f))) == C45Port(loc)
  {
    var id := loc.phyId;
    assert ((((id & 0x03e0) | (other & 0xfc1f)) & 0x03e0) >> 5) == (id & 0x03e0) >> 5;
  }

  /** Bit-level part: the two fields of an encoding of any 16-bit numbers. */
  lemma EncodedFieldsOfAny(p: bv16, d: bv16)
    ensures (PhyIdC45Flag | (p << 5) | d) & PhyIdDevad == d & PhyIdDevad
    ensures ((PhyIdC45Flag | (p << 5) | d) & PhyIdPrtad) >> 5 == (p | (d >> 5)) & 0x1f
  {
  }

  /** Nothing is masked, for any numbers: the device field keeps the low five
      bits of the device, and the port field is the low five bits of the port
      OR-ed with bits 9..5 of the device, so a device of 32..1023 spills into
      the port field and higher device bits land outside both fields. */
  lemma C45FieldsOfAnyEncoding(ifnam: string, reg: bv16, port: nat, dev: nat)
    ensures var loc := Loc(ifnam, PhyIdC45(port, dev), reg);
      IsC45(loc) &&
      C45Dev(loc) == (Trunc16(dev) & PhyIdDevad) as nat &&
      C45Port(loc) == ((Trunc16(port) | (Trunc16(dev) >> 5)) & 0x1f) as nat
  {
    EncodedFieldsOfAny(Trunc16(port), Trunc16(dev));
  }

  /** The accessors read only the composite address, never the interface name
      or the register. */
  lemma AccessorsReadOnlyPhyId(a: Loc, b: Loc)
    requires a.phyId == b.phyId
    ensures IsC45(a) == IsC45(b) && C45Dev(a) == C45Dev(b) && C45Port(a) == C45Port(b)
  {
  }
}
