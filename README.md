# phytool in Dafny

A model of phytool, the command-line tool that reads, writes and prints the
registers of Ethernet PHYs and Marvell 88E6xxx switches over MDIO. The model
covers everything the tool does apart from its I/O:

- the 16-bit composite PHY address: a clause-22 number, or a clause-45 flag
  with a 5-bit port field and a 5-bit device field (`phytool.h`, and
  `mdio_phy_id_c45` of linux/mdio.h);
- the location parser for `IF/ADDR[/REG]`, with `ADDR` a number or `A:B`
  (`parse_loc` and `parse_phy_id`), on top of a model of the base-0
  `strtoul` and the `strtok` cursor it uses;
- the 32-bit PHY identifier built from registers 2 and 3 (`phy_id`);
- the IEEE 802.3 clause 22 printer: the BMCR and BMSR decoders
  (sections 22.2.4.1 and 22.2.4.2 of IEEE 802.3), the generic hex dump, the
  bit array, the summary and the printer table (`print_phy.c`);
- the Marvell switch printer: the model and device names, the heading, the
  port status and port control decoders, the per-block register tables,
  the summary walk and the device-field routing (`print_mv6.c`);
- `main`: the personality chosen by the program name, and the verbs `read`,
  `write` and `print` with their operand checks.

Register reads and writes go to the kernel through an ioctl; here they are
answered by oracles passed in as parameters: a `Reader` maps a location to a
16-bit value or a negative error, a `Writer` maps a location and a value to
0 or an error. Standard output is a sequence of `Token`s, one per printf
conversion (text, padding, a number in hex or decimal, a bit glyph, a flag
name highlighted or not). A printer returns `Printed(out, rc)`, or
`Fault(out)` where the C code dereferences a NULL pointer; a run of the
program returns `Run(out, written, rc)`, where `written` is the one register
write it issued, or `Crash(out)`.

Where the C code loops, the model has a method with the same loop, proved
equal to a function that states the result: `Strtok` and `ParseLoc`,
`PrintBitArray`, `PrintPhytool`, `ComputeSpeed`, `PrintMv6Port`,
`FindPersonality`, and `PrintMv6tool` and `RunMain` which call them.
Straight-line C code is a function. The properties are lemmas about those
functions.

Modules, one per concern: `Wrappers` (Option, Result), `Mdio` (the address
layout), `Strtoul` (the number reader), `Location` (the parser),
`Transport` (the oracles and `phy_id`), `Output` (tokens, the bit array,
flag lines), `Ieee` (`print_phy.c`), `Mv6` (`print_mv6.c`), `Tool` (`main`).

Behaviour of the code that a user of the tool might not expect, all of it
modelled as written:

- In `A:B` the first number is stored in the device field and the second in
  the port field (`phytool.c:91-107`), so `eth0/0:4/0x1000` addresses
  device 0 of port 4, not port 0, device 4 (`Location.ParsedLocClause45`).
- The register token is read with no check of what follows its digits
  (`phytool.c:129-130`): `eth0/1:4/0xg` is accepted, with register 0 read
  from the `0` before the `x` (`Location.ParsedLocRegisterPrefix`).
- No address is range-checked: a bare number is truncated to 16 bits and
  may set the clause-45 flag. In `A:B` the device A is OR-ed in unmasked, so
  a device of 32..1023 sets bits of the port field (device 33 with port 4
  decodes as port 5, device 1); bits 10..15 of a device land outside both
  fields, so device 1025 decodes as device 1, and bits 16 and up are cut
  off by the 16-bit truncation (`Location.ParsePhyIdBare`,
  `Mdio.C45FieldsOfAnyEncoding`).
- A number starting with `0` is read in octal (`phytool.c:91`), so
  `eth0/010` is address 8 (`Strtoul.ReadOctal`).
- `mv6_dev_str` tests `dev != 0` before the global and reserved cases, so
  every device above 0xf is named as a port and those names are never
  printed (`Mv6.DevStrNames`).
- There is no switch-id or interface-name lookup: the switch printer takes
  the same location syntax as the PHY printer.

## Model

| member | source | states |
|---|---|---|
| Mdio.Trunc16 | phytool.c:94 | storing an unsigned long into a uint16_t keeps every number below 0x10000 unchanged; the same store happens at phytool.c:136 and phytool.c:176 |
| Mdio.IsC45 | phytool.h:14-17 | a location is clause-45 exactly when bit 15 of its address is set; no address below 32 is |
| Mdio.C45Dev | phytool.h:19-22 | the device field is always in 0..31 |
| Mdio.C45Port | phytool.h:24-27 | the port field is always in 0..31 |
| Mdio.PhyIdC45 | phytool.c:107 | every encoded address has the clause-45 flag set |
| Mdio.C45RoundTrip | phytool.h:14-27 | encoding a port and a device in 0..31 and decoding gives them back, flag set |
| Mdio.C45Canonical | phytool.h:14-27 | a clause-45 address with bits 14..10 clear is the encoding of its own port and device |
| Mdio.C45PortIgnoresOtherBits | phytool.h:24-27 | the port field does not depend on the flag, bits 14..10 or the device field |
| Mdio.C45FieldsOfAnyEncoding | phytool.c:107 | for any port and device the encoding is clause-45, decodes to the device's low five bits, and to a port field that is the port OR-ed with the device's bits 5..9, both truncated to five bits |
| Mdio.AccessorsReadOnlyPhyId | phytool.h:8-27 | the three accessors depend on the address only, not on the interface or register |
| Strtoul.ReadULong | phytool.c:91 | the rest is a suffix of the input; reading nothing gives 0; the rest never starts with a digit of the base the prefix chose |
| Strtoul.Render | phytool.c:91 | a number written out is a non-empty digit string without leading zero |
| Strtoul.ValueOfRender | phytool.c:91 | the value of the digits of a written number is that number |
| Strtoul.ReadDecimal | phytool.c:91 | a decimal number is read back, with a rest that cannot continue it left unread |
| Strtoul.ReadHex | phytool.c:130 | `0x` and hex digits are read back, the rest left unread |
| Strtoul.ReadOctal | phytool.c:91 | `0` followed by octal digits is read in base 8, the rest left unread |
| Strtoul.ReadZero | phytool.c:130 | a lone `0` not followed by an octal digit or a hex digit after `x` reads as 0 |
| Location.Tokens | phytool.c:113-128 | every token strtok hands out is non-empty and free of `/` |
| Location.TokensAfterToken | phytool.c:113-121 | a token followed by `/` is the first token, and the rest are tokenised after it |
| Location.TokensSkipSlash | phytool.c:113-128 | leading and repeated slashes produce no token |
| Location.Strtok | phytool.c:113 | one strtok call returns the next token and moves the cursor past it, or none when only slashes remain |
| Location.IfName | phytool.c:119 | the interface name is the token cut to at most IFNAMSIZ characters |
| Location.ParsedLoc | phytool.c:111-141 | fewer than two tokens is a format error; a strict parse succeeds only with a register token; the name fits IFNAMSIZ |
| Location.ParseLoc | phytool.c:111-141 | the three strtok calls and their checks compute the location ParsedLoc states |
| Location.ParsedLocThreeTokens | phytool.c:121-136 | IF/ADDR/REG gives the name, the parsed address and the register truncated to 16 bits, or an error if the address does not parse |
| Location.ParsedLocIgnoresExtraTokens | phytool.c:128-136 | tokens after the third change nothing |
| Location.ParsedLocTwoTokens | phytool.c:128-134 | IF/ADDR gives the summary register when not strict and a format error when strict |
| Location.ParsedLocSkipsEmptyTokens | phytool.c:113-128 | a leading slash and a doubled slash change nothing |
| Location.ParsedLocNeedsTwoTokens | phytool.c:113-123 | `IF`, `IF/` and `/IF/` are format errors |
| Location.ParsePhyId | phytool.c:86-109 | a number that uses up the text is always accepted; any other accepted text has `:` right after the first number and a second number that uses up the rest, and has the clause-45 flag set; what it yields is stated by `Location.ParsePhyIdBare`, `Location.ParsePhyIdPair` and the lemmas after them |
| Location.ParsePhyIdBare | phytool.c:91-96 | a bare number is the address truncated to 16 bits, with no range check and no flag added |
| Location.ParsePhyIdPair | phytool.c:91-107 | `A:B` is the clause-45 address with B as port and A as device |
| Location.ParsePhyIdOfReads | phytool.c:98-107 | a first number stopped by `:` and a second one that uses up the text make that clause-45 address |
| Location.ParsePhyIdPairDecodes | phytool.c:103-107 | with A and B in 0..31 the address decodes to device A and port B |
| Location.ParsePhyIdEmptyDevice | phytool.c:91-107 | `:B` is accepted, with device 0 |
| Location.ParsePhyIdEmptyPort | phytool.c:103-107 | `A:` is accepted, with port 0 |
| Location.ParsePhyIdRejectsTrailing | phytool.c:98-101 | a number followed by anything but `:` is rejected |
| Location.ParsePhyIdRejectsTrailingAfterPair | phytool.c:103-105 | anything after the second number is rejected |
| Location.ParsedLocClause22 | phytool.c:111-137 | IF/N/0xR parses to address N and register R, both truncated to 16 bits, strict or not |
| Location.ParsedLocClause45 | phytool.c:111-137 | IF/A:B/0xR parses to the clause-45 address of port B, device A, and register R |
| Location.ParsedLocSummary | phytool.c:128-134 | IF/0xN is the summary of address N when not strict and a format error when strict |
| Location.ParsedLocRegisterPrefix | phytool.c:129-136 | a register token with trailing non-digits is accepted, read as its numeric prefix |
| Transport.AsU16 | phytool.c:78 | a successful read is stored unchanged in the 16-bit slot |
| Transport.PhyId | phytool.c:72-84 | no contract of its own; stated by `Transport.PhyIdSplits`, `Transport.PhyIdIgnoresRegister`, `Transport.PhyIdReadsOnlyIdRegisters` and `Transport.PhyIdFailureIsWrapped` |
| Transport.PhyIdSplits | phytool.c:72-84 | the identifier's high half is the read of register 2, its low half the read of register 3 |
| Transport.PhyIdIgnoresRegister | phytool.c:74-81 | the identifier does not depend on the register of the caller's location |
| Transport.PhyIdReadsOnlyIdRegisters | phytool.c:72-84 | devices that answer registers 2 and 3 alike have the same identifier |
| Transport.PhyIdFailureIsWrapped | phytool.c:78-83 | a failed read is not detected: error -5 shows as 0xfffb in the identifier |
| Output.Separator | print_phy.c:21-22 | no separator after bit 0, the text of two spaces after bits 12, 8 and 4, of one space after the others |
| Output.PrintBitArray | print_phy.c:12-28 | the loop from bit 15 down to bit 0 prints the padding, the glyph row and the nibble line |
| Output.MarkersLength | print_phy.c:18-23 | the glyph row has one glyph per bit and a separator after each but bit 0 |
| Output.MarkerAt | print_phy.c:18-19 | the glyph of bit i stands at position 2 * (15 - i), on exactly when bit i is set |
| Output.SeparatorAt | print_phy.c:21-22 | the separator of bit i follows its glyph |
| Output.BitArray | print_phy.c:12-28 | no contract of its own; stated by `Output.BitArrayShowsEveryBit` and `Output.NibbleLineDeterminesValue` |
| Output.BitArrayShowsEveryBit | print_phy.c:12-28 | the bit array has 43 tokens and shows bit i at a fixed place, on exactly when set |
| Output.NibbleLineDeterminesValue | print_phy.c:25-27 | the four nibbles printed determine the value |
| Output.FlagLineShows | print_phy.c:30-39 | flag k of a row is shown at position 2k, highlighted exactly when its bit is set; only the last one ends the line |
| Ieee.Bmcr | print_phy.c:41-76 | no contract of its own; stated by `Ieee.BmcrShows` and `Ieee.BmcrSpeed` |
| Ieee.Bmsr | print_phy.c:78-125 | no contract of its own; stated by `Ieee.BmsrShows` |
| Ieee.BmcrSpeed | print_phy.c:43-48 | the speed is 1000 when SPEED1000 is set, else 100 when SPEED100 is set, else 10 |
| Ieee.BmcrShows | print_phy.c:41-76 | BMCR shows its seven flags as their bits say, then the speed and the duplex bit |
| Ieee.BmsrShows | print_phy.c:78-125 | BMSR shows its seven capabilities and seven flags as their bits say |
| Ieee.DecoderForRegisters | print_phy.c:127-139 | only register 0 (BMCR) and register 1 (BMSR) are decoded; every other register, above 0x1f included, is dumped |
| Ieee.IeeeOne | print_phy.c:132-147 | it never faults, and returns a negative code exactly when the read fails; what it prints is `Ieee.IeeeOneOutcome` |
| Ieee.IeeeOneOutcome | print_phy.c:132-147 | a failed read returns its error and prints nothing; otherwise it returns 0 and prints BMCR for register 0, BMSR for register 1 and the raw `reg:`/`val:` dump line for every other register (above 0x1f included), each followed by the bit array of the value |
| Ieee.PhyIeee | print_phy.c:149-166 | no contract of its own; stated by `Ieee.PhyIeeeReadsOneRegister` and `Ieee.PhyIeeeSummaryReads` |
| Ieee.PhyIeeeReadsOneRegister | print_phy.c:153-154 | a single register is printed from that one read |
| Ieee.PhyIeeeSummaryReads | print_phy.c:149-166 | the summary reads registers 0 to 3 only and returns 0 even when reads fail |
| Ieee.Phytool | print_phy.c:182-192 | no contract of its own; it runs the printer of the first entry whose masked identifier matches; stated by `Ieee.PrintPhytool`, `Ieee.PhytoolIsIeee` and `Ieee.PhytoolNeverFaults` |
| Ieee.RunPrinter | print_phy.c:189 | no contract of its own; the one printer of this build is print_phy_ieee (`Ieee.PhytoolIsIeee`) |
| Ieee.FirstMatch | print_phy.c:187-189 | the entry chosen is the first whose masked identifier matches |
| Ieee.PrintPhytool | print_phy.c:182-192 | the table scan runs the printer of the first matching entry, or returns -1 |
| Ieee.PhytoolIsIeee | print_phy.c:175-180 | the catch-all entry matches every identifier, so print_phytool is print_phy_ieee |
| Ieee.PhytoolNeverFaults | print_phy.c:175-191 | print_phytool always reaches a printer |
| Mv6.ModelStr | print_mv6.c:25-44 | no contract of its own; stated by `Mv6.ModelName` and `Mv6.ModelIgnoresRevision` |
| Mv6.ModelName | print_mv6.c:29-40 | a model name is given exactly for the five known product numbers |
| Mv6.ModelIgnoresRevision | print_mv6.c:29 | the revision nibble never changes the model |
| Mv6.DevStr | print_mv6.c:46-66 | no contract of its own; stated by `Mv6.DevStrNames` |
| Mv6.DevStrNames | print_mv6.c:46-66 | devices below 0xf are PHYs, 0xf is the SERDES, every other device is named as a port; global and reserved names never appear |
| Mv6.SwitchIdLocDecodes | print_mv6.c:70-75 | the identifier is read from register 3 of device 0x10 on the same port and interface |
| Mv6.Heading | print_mv6.c:68-80 | no contract of its own; stated by `Mv6.SwitchIdLocDecodes` and `Mv6.HeadingShows` |
| Mv6.HeadingShows | print_mv6.c:68-80 | the heading depends on that one read, and shows the port after "dev:" |
| Mv6.PortSpeedValues | print_mv6.c:84-90 | the speed field selects 10, 100, 1000 or 10000 |
| Mv6.ComputeSpeed | print_mv6.c:84-90 | the multiplying loop computes ten times ten to the speed field |
| Mv6.PortPs | print_mv6.c:82-120 | no contract of its own; stated by `Mv6.PortPsShows` and `Mv6.PortSpeedValues` |
| Mv6.PortPsShows | print_mv6.c:82-120 | the port status shows its flags as their bits say, the speed, the duplex bit and the mode nibble |
| Mv6.Field2 | print_mv6.c:183-195 | every two-bit field indexes its four-entry label table in bounds |
| Mv6.LabelsNumbered | print_mv6.c:122-155 | every label starts with its own index in binary |
| Mv6.PortPc | print_mv6.c:157-196 | no contract of its own; stated by `Mv6.PortPcShows`, `Mv6.Field2` and `Mv6.LabelsNumbered` |
| Mv6.PortPcShows | print_mv6.c:157-196 | the port control shows its flags as their bits say and, per field, the label of the field's value |
| Mv6.SummaryEnd | print_mv6.c:203-236 | the -1 ending each summary list is preceded by non-negative entries only |
| Mv6.PrintersDecode | print_mv6.c:203-236 | only the port block has decoders: PS at register 0 and PC at register 4 |
| Mv6.PortOne | print_mv6.c:238-252 | mv6_port_one never faults, and returns a negative code exactly when the read fails |
| Mv6.PortDecoderForRegisters | print_mv6.c:245-249 | a register is decoded as PS exactly when it is register 0 of a port block, as PC exactly when it is register 4 of a port block, and dumped otherwise, above 0x1f and without a block included |
| Mv6.PortOneOutcome | print_mv6.c:238-252 | a failed read returns its error and prints nothing; register 0 and 4 of a port print PS and PC; every other register prints the hex dump line; each returns 0 |
| Mv6.Mv6Port | print_mv6.c:254-270 | no contract of its own; stated by `Mv6.PrintMv6Port`, `Mv6.PortSummary`, `Mv6.OtherSummariesEmpty` and `Mv6.Mv6PortFaults` |
| Mv6.PrintMv6Port | print_mv6.c:254-270 | the summary loop stops at the first negative entry and prints each register followed by a newline |
| Mv6.PortSummary | print_mv6.c:259-269 | the summary of a port prints register 0, a newline, register 4, a newline, and returns 0 |
| Mv6.OtherSummariesEmpty | print_mv6.c:214-236 | the SERDES and global blocks print nothing in summary mode and return 0 |
| Mv6.Mv6PortFaults | print_mv6.c:254-270 | print_mv6_port dereferences NULL exactly for the summary without a block |
| Mv6.ClassOf | print_mv6.c:284-297 | no contract of its own; stated by `Mv6.ClassOfNone` and `Mv6.ClassOfDevices` |
| Mv6.ClassOfNone | print_mv6.c:284-297 | no block is chosen for PHYs below 0xf and for devices 0x1e and up |
| Mv6.ClassOfDevices | print_mv6.c:284-295 | 0x10..0x1a are ports, 0xf the SERDES, 0x1b..0x1d the global blocks |
| Mv6.Mv6tool | print_mv6.c:272-298 | no contract of its own; stated by `Mv6.PrintMv6tool`, `Mv6.Mv6toolNeedsC45`, `Mv6.Mv6toolHeading` and `Mv6.Mv6toolFaults` |
| Mv6.PrintMv6tool | print_mv6.c:272-298 | print_mv6tool refuses clause-22, prints the heading and routes on the device field at indent + INDENT |
| Mv6.Mv6toolNeedsC45 | print_mv6.c:277-280 | a clause-22 address returns 1 with no output |
| Mv6.Mv6toolHeading | print_mv6.c:282 | every clause-45 address gets the heading first |
| Mv6.Mv6toolFaults | print_mv6.c:272-298 | the only NULL dereference is the summary of devices 0x1e and 0x1f |
| Tool.Named | phytool.c:222-224 | the entry found is the first with that name; none when no entry has it |
| Tool.FindPersonality | phytool.c:222-227 | the scan picks the named printer, or the first one for an unknown name |
| Tool.PersonalityFor | phytool.c:207-227 | no contract of its own; stated by `Tool.FindPersonality` and `Tool.PersonalityForNames` |
| Tool.PersonalityForNames | phytool.c:207-227 | the program is mv6tool exactly when it is called mv6tool |
| Tool.Main | phytool.c:214-238 | no contract of its own; stated by `Tool.MainExitStatus`, `Tool.MainDispatch`, `Tool.UnknownVerbFails` and `Tool.OnlySwitchSummaryCrashes` |
| Tool.RunMain | phytool.c:214-238 | main as written computes what Main states |
| Tool.MainExitStatus | phytool.c:143-238 | the exit status is 0 or 1, and 0 only with a known verb, its operand and a location that parses |
| Tool.MainDispatch | phytool.c:229-234 | each verb is given the arguments after it |
| Tool.ReadVerb | phytool.c:143-160 | no contract of its own; stated by `Tool.ReadShowsValue` and `Tool.ReadNeedsRegister` |
| Tool.ReadShowsValue | phytool.c:143-160 | read parses strictly and prints the value in hex; it fails on a bad location or a failed read |
| Tool.ReadNeedsRegister | phytool.c:151 | read refuses a location without a register |
| Tool.WriteVerb | phytool.c:162-181 | no contract of its own; stated by `Tool.WriteIssuesOneWrite`, `Tool.WriteNeedsValue` and `Tool.WritesOnlyOnWrite` |
| Tool.WriteIssuesOneWrite | phytool.c:162-181 | write issues one write of the value truncated to 16 bits, and fails when it is refused |
| Tool.WritesOnlyOnWrite | phytool.c:162-181 | no write is issued but by write with a value and a location that parses strictly |
| Tool.WriteNeedsValue | phytool.c:168-169 | write without a value fails before touching the device |
| Tool.PrintVerb | phytool.c:183-200 | no contract of its own; stated by `Tool.PrintRunsPrinter` |
| Tool.PrintRunsPrinter | phytool.c:183-200 | print parses non-strictly, runs the personality's printer at indent 0 and maps its code to 0 or 1 |
| Tool.OnlySwitchSummaryCrashes | phytool.c:233-234 | a crash happens only as mv6tool printing the summary of device 0x1e or 0x1f |
| Tool.UnknownVerbFails | phytool.c:219-237 | no verb, or an unknown one, returns 1 |

## Left out

- The socket and ioctl transport and its lazily opened socket (`__phy_op`): register reads and writes are oracles passed in.
- Messages written to standard error; the failure paths return their codes with no output modelled.
- The ANSI highlight escapes and the glyph bytes of the bit array: a flag is a name with an on/off mark, a glyph is on or off.
- The rendering of tokens to characters: printf padding, `%#.4x` and `%d` formatting are tokens, not text.
- `print_attr_name` is not part of this model; it is a token with its name and indent.
- `strtoul`: leading white space, signs and clamping to ULONG_MAX are not modelled; numbers are unbounded and truncated explicitly to 16 bits where the C code stores them.
- `strtok` writes NUL bytes into the argument; the model keeps the text unchanged and moves a cursor.
- `strncpy` of the interface name: the name is the first IFNAMSIZ characters, with no model of the terminator.
- `basename(argv[0])`: `Tool.Main` is given the base name.
- The commented-out mv1112 printer entry has no model.
- The speed `mv6_port_pc` computes and never prints is not modelled.
- Transport.AsU16: states only that a successful read is kept; for an error it states the wrap-around of one error value (`Transport.PhyIdFailureIsWrapped`) rather than the general two's-complement identity.
- The NULL dereference in the summary of devices 0x1e and 0x1f is undefined behaviour; the model marks it as a `Fault` carrying the output printed before it, and does not guess what happens next.
- Ieee.PrintPhytool: the table scan is proved for any printer table; the table of this build has one catch-all entry whose printer is print_phy_ieee (`Ieee.PhytoolIsIeee`), so `Ieee.PhyPrint` has that one printer.
