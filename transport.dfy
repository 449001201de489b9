/** Register access through the MDIO ioctls (phytool.c): the kernel side is
    not modelled, so every read and write is answered by an oracle that the
    caller passes in. */
module Transport {
  import opened Mdio

  /** A failed access reports a negative number: the negated errno of the
      ioctl, or the result of a failed socket() call. */
  type Errno = e: int | e < 0 witness -1

  /** What phy_read returns: the 16-bit register value, or the error. */
  datatype ReadResult = Val(v: bv16) | Fail(err: Errno)

  /** The device side of phy_read: what reading a location gives. */
  type Reader = Loc -> ReadResult

  /** The device side of phy_write: 0 on success, an error number otherwise. */
  type Writer = (Loc, bv16) -> int

  /** The registers holding the two halves of the PHY identifier
      (MII_PHYSID1 and MII_PHYSID2). */
  const PhysId1: bv16 := 2
  const PhysId2: bv16 := 3

  /** Storing the int phy_read returns into a uint16_t: a value is kept, an
      error keeps its low 16 bits (two's complement wrap-around). */
  function AsU16(r: ReadResult): (v: bv16)
    ensures r.Val? ==> v == r.v
  {
    match r
    case Val(v) => v
    case Fail(e) => (e % 0x1_0000) as bv16
  }

  /** phy_id: the two identifier registers of the same device, high half from
      MII_PHYSID1, low half from MII_PHYSID2, whatever the register of `loc`. */
  function PhyId(loc: Loc, read: Reader): bv32
  {
    ((AsU16(read(loc.(reg := PhysId1))) as bv32) << 16) | (AsU16(read(loc.(reg := PhysId2))) as bv32)
  }

  /** Bit-level part: a 32-bit value built from two halves gives them back. */
  lemma Halves(hi: bv16, lo: bv16)
    ensures (((hi as bv32) << 16) | (lo as bv32)) >> 16 == hi as bv32
    ensures (((hi as bv32) << 16) | (lo as bv32)) & 0xffff == lo as bv32
  {
  }

  /** The identifier splits into the two register reads it was built from. */
  lemma PhyIdSplits(loc: Loc, read: Reader)
    ensures PhyId(loc, read) >> 16 == AsU16(read(loc.(reg := PhysId1))) as bv32
    ensures PhyId(loc, read) & 0xffff == AsU16(read(loc.(reg := PhysId2))) as bv32
  {
    Halves(AsU16(read(loc.(reg := PhysId1))), AsU16(read(loc.(reg := PhysId2))));
  }

  /** Only the interface and the address matter, never the register asked for. */
  lemma PhyIdIgnoresRegister(loc: Loc, reg: bv16, read: Reader)
    ensures PhyId(loc.(reg := reg), read) == PhyId(loc, read)
  {
    assert loc.(reg := reg).(reg := PhysId1) == loc.(reg := PhysId1);
    assert loc.(reg := reg).(reg := PhysId2) == loc.(reg := PhysId2);
  }

  /** Two devices that answer the identifier registers alike have the same
      identifier, whatever else they answer. */
  lemma PhyIdReadsOnlyIdRegisters(loc: Loc, a: Reader, b: Reader)
    requires a(loc.(reg := PhysId1)) == b(loc.(reg := PhysId1))
    requires a(loc.(reg := PhysId2)) == b(loc.(reg := PhysId2))
    ensures PhyId(loc, a) == PhyId(loc, b)
  {
  }

  /** A failing read is not detected: an EIO (-5) on MII_PHYSID1 shows up as
      0xfffb in the high half of the identifier. */
  lemma PhyIdFailureIsWrapped(loc: Loc, read: Reader)
    requires read(loc.(reg := PhysId1)) == Fail(-5)
    ensures PhyId(loc, read) >> 16 == 0xfffb
  {
    assert -5 % 0x1_0000 == 0xfffb;
    assert AsU16(Fail(-5)) == 0xfffb;
    PhyIdSplits(loc, read);
  }
}
