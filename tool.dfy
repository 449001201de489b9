/** The command line (phytool.c): the personality chosen by the program's
    name, and the verbs read, write and print. */
module Tool {
  import opened Wrappers
  import opened Mdio
  import opened Strtoul
  import opened Location
  import opened Transport
  import opened Output
  import opened Ieee
  import opened Mv6

  /** The printers the program can run as. */
  datatype Personality = PhytoolPrinter | Mv6toolPrinter

  /** An entry of main's printer table. */
  datatype Entry = Entry(name: string, personality: Personality)

  const Entries: seq<Entry> := [Entry("phytool", PhytoolPrinter), Entry("mv6tool", Mv6toolPrinter)]

  /** The first entry of `table` called `name`, if any. */
  function Named(table: seq<Entry>, name: string): (k: Option<nat>)
    ensures k.Some? ==> k.value < |table| && table[k.value].name == name
    ensures k.Some? ==> forall j :: 0 <= j < k.value ==> table[j].name != name
    ensures k.None? ==> forall j :: 0 <= j < |table| ==> table[j].name != name
  {
    if table == [] then None
    else if table[0].name == name then Some(0)
    else match Named(table[1..], name)
      case None => None
      case Some(k) => Some(k + 1)
  }

  /** The personality for the program name: the entry of that name, or the
      first entry when there is none. */
  function PersonalityFor(name: string): Personality
  {
    match Named(Entries, name)
    case Some(k) => Entries[k].personality
    case None => Entries[0].personality
  }

  /** main's scan of the printer table, as written. */
  method FindPersonality(name: string) returns (p: Personality)
    ensures p == PersonalityFor(name)
  {
    var i := 0;
    while i < |Entries|
      invariant 0 <= i <= |Entries|
      invariant forall j :: 0 <= j < i ==> Entries[j].name != name
    {
      if Entries[i].name == name {
        assert Named(Entries, name) == Some(i);
        return Entries[i].personality;
      }
      i := i + 1;
    }
    return Entries[0].personality;
  }

  /** Run as mv6tool, the program prints switches; under any other name it
      is phytool. */
  lemma PersonalityForNames(name: string)
    ensures PersonalityFor(name) == Mv6toolPrinter <==> name == "mv6tool"
  {
    assert "phytool"[0] != "mv6tool"[0];
  }

  /** The printer a personality calls. */
  function Print(p: Personality, loc: Loc, indent: nat, read: Reader): Printed
  {
    match p
    case PhytoolPrinter => Phytool(PhyPrinters, loc, indent, read)
    case Mv6toolPrinter => Mv6tool(loc, indent, read)
  }

  /** What one run of the program does: its output, the register write it
      issued if any, and its exit status; or the output before a crash. */
  datatype Run = Run(out: seq<Token>, written: Option<(Loc, bv16)>, rc: int) | Crash(out: seq<Token>)

  const Failed: Run := Run([], None, 1)

  /** phytool_read: a full location, one read, the value in hex. */
  function ReadVerb(args: seq<string>, read: Reader): Run
  {
    if |args| == 0 then Failed
    else match ParsedLoc(args[0], true)
      case FormatError => Failed
      case Ok(loc) =>
        match read(loc)
        case Fail(_) => Failed
        case Val(v) => Run([Hex(v as int, 4), Text("\n")], None, 0)
  }

  /** phytool_write: a full location and a value, truncated to 16 bits. */
  function WriteVerb(args: seq<string>, write: Writer): Run
  {
    if |args| < 2 then Failed
    else match ParsedLoc(args[0], true)
      case FormatError => Failed
      case Ok(loc) =>
        var val := Trunc16(ReadULong(args[1]).value);
        Run([], Some((loc, val)), if write(loc, val) != 0 then 1 else 0)
  }

  /** phytool_print: a location, the register optional, printed at indent 0. */
  function PrintVerb(p: Personality, args: seq<string>, read: Reader): Run
  {
    if |args| == 0 then Failed
    else match ParsedLoc(args[0], false)
      case FormatError => Failed
      case Ok(loc) =>
        match Print(p, loc, 0, read)
        case Fault(out) => Crash(out)
        case Printed(out, rc) => Run(out, None, if rc != 0 then 1 else 0)
  }

  /** main, given the base name of argv[0] and the rest of argv. */
  function Main(name: string, args: seq<string>, read: Reader, write: Writer): Run
  {
    if |args| < 1 then Failed
    else if args[0] == "read" then ReadVerb(args[1..], read)
    else if args[0] == "write" then WriteVerb(args[1..], write)
    else if args[0] == "print" then PrintVerb(PersonalityFor(name), args[1..], read)
    else Failed
  }

  /** main as written: the printer table scan, the location parser and the
      printers that loop. */
  method RunMain(name: string, args: seq<string>, read: Reader, write: Writer) returns (r: Run)
    ensures r == Main(name, args, read, write)
  {
    if |args| < 1 {
      return Failed;
    }
    var personality := FindPersonality(name);
    var verb, rest := args[0], args[1..];
    if verb == "read" {
      if |rest| == 0 {
        return Failed;
      }
      var parsed := ParseLoc(rest[0], true);
      if parsed.FormatError? {
        return Failed;
      }
      var v := read(parsed.value);
      if v.Fail? {
        return Failed;
      }
      return Run([Hex(v.v as int, 4), Text("\n")], None, 0);
    } else if verb == "write" {
      if |rest| < 2 {
        return Failed;
      }
      var parsed := ParseLoc(rest[0], true);
      if parsed.FormatError? {
        return Failed;
      }
      var val := Trunc16(ReadULong(rest[1]).value);
      var err := write(parsed.value, val);
      return Run([], Some((parsed.value, val)), if err != 0 then 1 else 0);
    } else if verb == "print" {
      if |rest| == 0 {
        return Failed;
      }
      var parsed := ParseLoc(rest[0], false);
      if parsed.FormatError? {
        return Failed;
      }
      var printed;
      if personality == Mv6toolPrinter {
        printed := PrintMv6tool(parsed.value, 0, read);
      } else {
        printed := PrintPhytool(PhyPrinters, parsed.value, 0, read);
      }
      if printed.Fault? {
        return Crash(printed.out);
      }
      return Run(printed.out, None, if printed.rc != 0 then 1 else 0);
    }
    return Failed;
  }

  /** The exit status is always 0 or 1, and 0 means the verb was given its
      operands and, for read and write, a complete location. */
  lemma MainExitStatus(name: string, args: seq<string>, read: Reader, write: Writer)
    ensures var r := Main(name, args, read, write);
      r.Run? ==> (r.rc == 0 || r.rc == 1)
    ensures var r := Main(name, args, read, write);
      r.Run? && r.rc == 0 ==>
        |args| >= 2 && args[0] in {"read", "write", "print"} &&
        (args[0] != "print" ==> ParsedLoc(args[1], true).Ok?) &&
        (args[0] == "print" ==> ParsedLoc(args[1], false).Ok?)
  {
  }

  /** Dispatch on the verb: each verb gets the arguments after it. */
  lemma MainDispatch(name: string, args: seq<string>, read: Reader, write: Writer)
    requires |args| >= 1
    ensures args[0] == "read" ==> Main(name, args, read, write) == ReadVerb(args[1..], read)
    ensures args[0] == "write" ==> Main(name, args, read, write) == WriteVerb(args[1..], write)
    ensures args[0] == "print" ==> Main(name, args, read, write) == PrintVerb(PersonalityFor(name), args[1..], read)
  {
    assert "write" != "read" && "print" != "read";
    assert "print"[0] != "write"[0];
  }

  /** read prints the register's value and succeeds exactly when the location
      is complete and the read works. */
  lemma ReadShowsValue(name: string, args: seq<string>, read: Reader, write: Writer)
    requires |args| >= 2 && args[0] == "read"
    ensures var r := Main(name, args, read, write);
      match ParsedLoc(args[1], true)
      case FormatError => r == Failed
      case Ok(loc) =>
        (read(loc).Val? ==> r == Run([Hex(read(loc).v as int, 4), Text("\n")], None, 0)) &&
        (read(loc).Fail? ==> r == Failed)
  {
    MainDispatch(name, args, read, write);
  }

  /** read refuses the summary form IF/ADDR, which print accepts. */
  lemma ReadNeedsRegister(name: string, args: seq<string>, ifn: string, n: nat, read: Reader, write: Writer)
    requires IsToken(ifn)
    requires |args| >= 2 && args[0] == "read" && args[1] == ifn + "/" + ("0x" + Render(n, 16))
    ensures Main(name, args, read, write) == Failed
  {
    ParsedLocSummary(ifn, n);
    MainDispatch(name, args, read, write);
  }

  /** write issues exactly one write, of the value truncated to 16 bits, at
      the location given, and fails when the device refuses it. */
  lemma WriteIssuesOneWrite(name: string, args: seq<string>, read: Reader, write: Writer)
    requires |args| >= 3 && args[0] == "write" && ParsedLoc(args[1], true).Ok?
    ensures var loc, val := ParsedLoc(args[1], true).value, Trunc16(ReadULong(args[2]).value);
      Main(name, args, read, write) == Run([], Some((loc, val)), if write(loc, val) == 0 then 0 else 1)
  {
    MainDispatch(name, args, read, write);
  }

  /** No write is issued unless the verb is write with a complete location
      and a value. */
  lemma WritesOnlyOnWrite(name: string, args: seq<string>, read: Reader, write: Writer)
    ensures var r := Main(name, args, read, write);
      r.Run? && r.written.Some? ==>
        |args| >= 3 && args[0] == "write" && ParsedLoc(args[1], true) == Ok(r.written.value.0)
  {
  }

  /** write without a value fails before touching the device. */
  lemma WriteNeedsValue(name: string, args: seq<string>, read: Reader, write: Writer)
    requires |args| == 2 && args[0] == "write"
    ensures Main(name, args, read, write) == Failed
  {
    MainDispatch(name, args, read, write);
  }

  /** print hands the location, with the register optional, to the printer of
      the personality at indent 0, and turns its return code into 0 or 1. */
  lemma PrintRunsPrinter(name: string, args: seq<string>, read: Reader, write: Writer)
    requires |args| >= 2 && args[0] == "print" && ParsedLoc(args[1], false).Ok?
    ensures var p := Print(PersonalityFor(name), ParsedLoc(args[1], false).value, 0, read);
      var r := Main(name, args, read, write);
      r.out == p.out && r.Crash? == p.Fault? &&
      (p.Printed? ==> r.rc == (if p.rc == 0 then 0 else 1))
  {
    MainDispatch(name, args, read, write);
  }

  /** Only mv6tool can crash, and only on the summary of devices 0x1e and 0x1f. */
  lemma OnlySwitchSummaryCrashes(name: string, args: seq<string>, read: Reader, write: Writer)
    requires Main(name, args, read, write).Crash?
    ensures PersonalityFor(name) == Mv6toolPrinter && |args| >= 2 && args[0] == "print"
    ensures var loc := ParsedLoc(args[1], false).value;
      IsC45(loc) && C45Dev(loc) >= 0x1e && loc.reg == RegSummary
  {
    MainDispatch(name, args, read, write);
    var loc := ParsedLoc(args[1], false).value;
    if PersonalityFor(name) == PhytoolPrinter {
      PhytoolNeverFaults(loc, 0, read);
    } else {
      Mv6toolFaults(loc, 0, read);
    }
  }

  /** Any verb other than read, write and print fails without output. */
  lemma UnknownVerbFails(name: string, args: seq<string>, read: Reader, write: Writer)
    requires |args| == 0 || args[0] !in {"read", "write", "print"}
    ensures Main(name, args, read, write) == Failed
  {
  }
}
