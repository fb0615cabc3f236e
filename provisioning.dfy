/**
 * Provisioning of a virtual machine: the normalisation of the operator's
 * answers, the yes/no flag, and `create_virtual_machine`, which parses the
 * numeric answers, constructs the machine, normalises its name and appends it
 * to the inventory file unless the name is taken.
 */
module Provisioning {
  import opened Outcomes
  import opened Text
  import opened NumberParsing
  import opened Machine

  // ---------------------------------------------------------------------
  // Answers typed at the prompts

  /** The five answers of `get_vm_details`, after normalisation. */
  datatype Details = Details(vmName: string, cpu: string, memory: string, disk: string, os: string)

  /** Every answer is stripped; the operating system is also lower-cased. */
  function GetVmDetails(nameAnswer: string, cpuAnswer: string, memoryAnswer: string, diskAnswer: string, osAnswer: string): (d: Details)
    ensures d.vmName == Strip(nameAnswer) && d.cpu == Strip(cpuAnswer)
    ensures d.memory == Strip(memoryAnswer) && d.disk == Strip(diskAnswer)
    ensures |d.os| == |Strip(osAnswer)|
    ensures forall i :: 0 <= i < |d.os| ==> d.os[i] == LowerChar(Strip(osAnswer)[i])
    ensures forall i :: 0 <= i < |d.os| ==> !('A' <= d.os[i] <= 'Z')
    ensures d.os != [] ==> !IsSpace(d.os[0]) && !IsSpace(d.os[|d.os| - 1])
  {
    var os := Lower(Strip(osAnswer));
    LowerKeepsEdges(Strip(osAnswer));
    Details(Strip(nameAnswer), Strip(cpuAnswer), Strip(memoryAnswer), Strip(diskAnswer), os)
  }

  lemma LowerKeepsEdges(s: string)
    requires s != [] ==> !IsSpace(s[0]) && !IsSpace(s[|s| - 1])
    ensures Lower(s) != [] ==> !IsSpace(Lower(s)[0]) && !IsSpace(Lower(s)[|Lower(s)| - 1])
  {
    if s != [] {
      assert Lower(s)[0] == LowerChar(s[0]);
      assert Lower(s)[|s| - 1] == LowerChar(s[|s| - 1]);
    }
  }

  /** `ask_user_for_flag` on the answer the operator typed. */
  function AskUserForFlag(answer: string): (flag: bool)
    ensures flag <==> IsYesAnswer(answer)
  {
    YesAnswerIff(answer);
    Lower(Strip(answer)) == "y"
  }

  predicate IsYesChar(c: char) {
    c == 'y' || c == 'Y'
  }

  /** The answer is one `y` or `Y` with nothing but whitespace around it. */
  predicate IsYesAnswer(answer: string) {
    exists i :: 0 <= i < |answer| && IsYesChar(answer[i]) &&
      (forall j :: 0 <= j < |answer| && j != i ==> IsSpace(answer[j]))
  }

  lemma RStripKeepsNonSpace(t: string)
    requires t != [] && !IsSpace(t[0]) && forall j :: 1 <= j < |t| ==> IsSpace(t[j])
    ensures RStrip(t) == [t[0]]
  {
  }

  lemma FlagMeansYes(answer: string)
    requires Lower(Strip(answer)) == "y"
    ensures IsYesAnswer(answer)
  {
    var r := Strip(answer);
    assert |r| == 1 && LowerChar(r[0]) == 'y';
    var a: nat :| StrippedAt(answer, r, a);
    assert answer[a] == r[0];
    assert forall j :: 0 <= j < |answer| && j != a ==> IsSpace(answer[j]);
  }

  lemma YesMeansFlag(answer: string, i: nat)
    requires i < |answer| && IsYesChar(answer[i])
    requires forall j :: 0 <= j < |answer| && j != i ==> IsSpace(answer[j])
    ensures Lower(Strip(answer)) == "y"
  {
    var left := LStrip(answer);
    var p := |answer| - |left|;
    assert !IsSpace(answer[i]);
    assert p <= i;
    assert left != [] && left[0] == answer[p];
    assert p == i;
    RStripKeepsNonSpace(left);
    var stripped := RStrip(left);
    assert stripped == [answer[i]];
    assert Lower(stripped) == [LowerChar(answer[i])];
  }

  /** The stripped, lower-cased answer is `y` exactly for a single `y` or `Y` padded only with whitespace. */
  lemma YesAnswerIff(answer: string)
    ensures Lower(Strip(answer)) == "y" <==> IsYesAnswer(answer)
  {
    if Lower(Strip(answer)) == "y" {
      FlagMeansYes(answer);
    }
    if IsYesAnswer(answer) {
      var i :| 0 <= i < |answer| && IsYesChar(answer[i]) &&
        (forall j :: 0 <= j < |answer| && j != i ==> IsSpace(answer[j]));
      YesMeansFlag(answer, i);
    }
  }

  // ---------------------------------------------------------------------
  // The steps of create_virtual_machine before the inventory is touched

  function CpuMessage(cpu: string): string {
    "CPU value '" + cpu + "' must be a valid number."
  }

  function MemoryMessage(memory: string): string {
    "Memory value '" + memory + "' must be a valid number."
  }

  function DiskMessage(disk: string): string {
    "Disk value '" + disk + "' must be a valid number."
  }

  const DuplicateMessage: string := "A machine with that name already exists!"

  /** Separator of the accumulated parse errors. */
  const ErrorSeparator: string := " | "

  /** Where a parse message belongs among the three: the cpu message first, then memory, then disk. */
  function MessageRank(m: string, cpu: string, memory: string): nat {
    if m == CpuMessage(cpu) then 0 else if m == MemoryMessage(memory) then 1 else 2
  }

  /** The three message texts differ from each other, whatever the answers: they open with different words. */
  lemma MessagesDiffer(cpu: string, memory: string, disk: string)
    ensures CpuMessage(cpu) != MemoryMessage(memory) && CpuMessage(cpu) != DiskMessage(disk)
    ensures MemoryMessage(memory) != DiskMessage(disk)
  {
    assert CpuMessage(cpu)[0] == 'C' && MemoryMessage(memory)[0] == 'M' && DiskMessage(disk)[0] == 'D';
  }

  /**
   * The parse errors for the three numeric answers: one message for each
   * answer that is not a number, in the order cpu, memory, disk.
   */
  function ParseMessages(cpu: string, memory: string, disk: string): (ms: seq<string>)
    ensures CpuMessage(cpu) in ms <==> ParseNumber(cpu).None?
    ensures MemoryMessage(memory) in ms <==> ParseNumber(memory).None?
    ensures DiskMessage(disk) in ms <==> ParseNumber(disk).None?
    ensures forall m :: m in ms ==> m == CpuMessage(cpu) || m == MemoryMessage(memory) || m == DiskMessage(disk)
    ensures ParseNumber(cpu).None? ==> ms[0] == CpuMessage(cpu)
    ensures ParseNumber(disk).None? ==> ms[|ms| - 1] == DiskMessage(disk)
    ensures |ms| <= 3
    ensures forall i, j :: 0 <= i < j < |ms| ==> MessageRank(ms[i], cpu, memory) < MessageRank(ms[j], cpu, memory)
  {
    MessagesDiffer(cpu, memory, disk);
    assert MessageRank(CpuMessage(cpu), cpu, memory) == 0 && MessageRank(MemoryMessage(memory), cpu, memory) == 1;
    assert MessageRank(DiskMessage(disk), cpu, memory) == 2;
    (if ParseNumber(cpu).None? then [CpuMessage(cpu)] else [])
    + (if ParseNumber(memory).None? then [MemoryMessage(memory)] else [])
    + (if ParseNumber(disk).None? then [DiskMessage(disk)] else [])
  }

  /** The errors `create_virtual_machine` raises. */
  datatype Error =
    | ValueError(message: string)             // parse errors, or a name already in use
    | ValidationError(errors: seq<FieldError>) // the schema rejected the machine

  /**
   * The construction as the source writes it: the memory value is passed
   * under the keyword `ram`, which the schema does not declare and ignores,
   * so the `memory` field is never supplied.
   */
  function ConstructAsWritten(name: string, ram: real, cpu: real, storage: real, os: string): (r: Result<Record, seq<FieldError>>)
    ensures r.Failure? && FieldError(Memory, MissingField) in r.error
  {
    var f := Fields(Some(name), None, Some(cpu), Some(storage), Some(os));
    MissingFieldRejected(f, Memory);
    Validate(f)
  }

  /** The construction with the memory value passed as `memory`, as evidently intended. */
  function Construct(name: string, memory: real, cpu: real, storage: real, os: string): (r: Result<Record, seq<FieldError>>)
    ensures r.Success? <==> memory > 0.0 && cpu > 0.0 && storage > 0.0 && OsMatches(os)
    ensures r.Success? ==> r.value == Record(name, memory, cpu, storage, os)
  {
    var f := Fields(Some(name), Some(memory), Some(cpu), Some(storage), Some(os));
    assert ErrorFor(f, Memory).None? <==> memory > 0.0;
    assert ErrorFor(f, Cpu).None? <==> cpu > 0.0;
    assert ErrorFor(f, Storage).None? <==> storage > 0.0;
    assert ErrorFor(f, Os).None? <==> OsMatches(os);
    Validate(f)
  }

  /** As written, a machine that the intended construction accepts is rejected. */
  lemma AsWrittenRejectsValidMachine(name: string, memory: real, cpu: real, storage: real, os: string)
    requires memory > 0.0 && cpu > 0.0 && storage > 0.0 && OsMatches(os)
    ensures Construct(name, memory, cpu, storage, os) == Success(Record(name, memory, cpu, storage, os))
    ensures ConstructAsWritten(name, memory, cpu, storage, os) != Construct(name, memory, cpu, storage, os)
  {
  }

  /** The name's spaces replaced by hyphens; every other character is kept in place. */
  function NormaliseName(name: string): (n: string)
    ensures |n| == |name| && ' ' !in n
    ensures forall i :: 0 <= i < |name| && name[i] != ' ' ==> n[i] == name[i]
    ensures forall i :: 0 <= i < |name| && name[i] == ' ' ==> n[i] == '-'
  {
    Replace(name, ' ', '-')
  }

  /** Normalising twice is normalising once, and a name without spaces is left as it is. */
  lemma NormaliseNameProperties(name: string)
    ensures NormaliseName(NormaliseName(name)) == NormaliseName(name)
    ensures ' ' !in name ==> NormaliseName(name) == name
  {
  }

  /** A numeric answer that parses to a value greater than zero. */
  predicate PositiveNumber(answer: string) {
    match ParseNumber(answer)
    case Some(v) => v > 0.0
    case None => false
  }

  /**
   * The outcome of the steps before the inventory is read: the parse errors,
   * the schema's errors, or the constructed machine with its name normalised.
   */
  function Prepared(vmName: string, cpu: string, memory: string, disk: string, os: string): (r: Result<Record, Error>)
    ensures ParseMessages(cpu, memory, disk) != [] ==>
      r == Failure(ValueError(Join(ParseMessages(cpu, memory, disk), ErrorSeparator)))
    ensures r.Success? <==> PositiveNumber(cpu) && PositiveNumber(memory) && PositiveNumber(disk) && OsMatches(os)
    ensures r.Success? ==>
      && ParseNumber(cpu) == Some(r.value.cpu) && ParseNumber(memory) == Some(r.value.memory)
      && ParseNumber(disk) == Some(r.value.storage) && r.value.os == os
      && r.value.name == NormaliseName(vmName)
  {
    var messages := ParseMessages(cpu, memory, disk);
    if messages != [] then Failure(ValueError(Join(messages, ErrorSeparator)))
    else
      match Construct(vmName, ParseNumber(memory).value, ParseNumber(cpu).value, ParseNumber(disk).value, os)
      case Failure(errors) => Failure(ValidationError(errors))
      case Success(vm) =>
        NormaliseNameProperties(vm.name);
        Success(if ' ' in vm.name then vm.(name := NormaliseName(vm.name)) else vm)
  }

  /** Every answer that is not a number is reported, in the order cpu, memory, disk. */
  lemma ParseErrorsAllReported(vmName: string, cpu: string, memory: string, disk: string, os: string)
    requires ParseNumber(cpu).None? && ParseNumber(memory).None? && ParseNumber(disk).None?
    ensures Prepared(vmName, cpu, memory, disk, os) ==
      Failure(ValueError(CpuMessage(cpu) + " | " + MemoryMessage(memory) + " | " + DiskMessage(disk)))
  {
    assert ParseMessages(cpu, memory, disk) == [CpuMessage(cpu), MemoryMessage(memory), DiskMessage(disk)];
    JoinThree(CpuMessage(cpu), MemoryMessage(memory), DiskMessage(disk), ErrorSeparator);
  }

  lemma WebServerNormalised(s: string)
    requires s == "web server"
    ensures NormaliseName(s) == "web-server"
  {
    var t := NormaliseName(s);
    assert forall i :: 0 <= i < |s| ==> t[i] == (if s[i] == ' ' then '-' else s[i]);
    assert forall i :: 0 <= i < |s| ==> t[i] == "web-server"[i];
  }

  lemma SmallNumbersParse()
    ensures ParseNumber("0") == Some(0.0) && ParseNumber("2") == Some(2.0) && ParseNumber("4") == Some(4.0)
    ensures ParseNumber("10") == Some(10.0) && ParseNumber("50") == Some(50.0)
  {
    ParseNatRoundTrip(0);
    ParseNatRoundTrip(2);
    ParseNatRoundTrip(4);
    ParseNatRoundTrip(10);
    ParseNatRoundTrip(50);
    assert NatToString(10) == "10" && NatToString(50) == "50";
  }

  /** A valid machine whose name has a space is accepted under the hyphenated name; `w` is kept as typed. */
  lemma WebServerScenario()
    ensures Prepared("web server", "2", "4", "50", "w") == Success(Record("web-server", 4.0, 2.0, 50.0, "w"))
  {
    SmallNumbersParse();
    OsAcceptedIff("w");
    WebServerNormalised("web server");
  }

  /** A non-numeric cpu alone is raised by itself, before the schema sees the other answers. */
  lemma OnlyCpuUnparsable(vmName: string, cpu: string, memory: string, disk: string, os: string)
    requires ParseNumber(cpu).None? && ParseNumber(memory).Some? && ParseNumber(disk).Some?
    ensures Prepared(vmName, cpu, memory, disk, os) == Failure(ValueError(CpuMessage(cpu)))
  {
    var ms := ParseMessages(cpu, memory, disk);
    assert ms == [CpuMessage(cpu)];
  }

  /** The empty name and the bad `os` are not reported: the unparsable cpu is raised first. */
  lemma NonNumericCpuScenario()
    ensures Prepared("", "abc", "0", "10", "solaris") == Failure(ValueError(CpuMessage("abc")))
  {
    AbcZeroTenParse();
    OnlyCpuUnparsable("", "abc", "0", "10", "solaris");
  }

  lemma AbcZeroTenParse()
    ensures ParseNumber("abc") == None && ParseNumber("0").Some? && ParseNumber("10").Some?
  {
    NonNumericRejected("abc", 0);
    SmallNumbersParse();
  }

  /** Once the three answers parse, any error is the schema's, one per failing field. */
  lemma ParsedAnswersMeetSchema(vmName: string, cpu: string, memory: string, disk: string, os: string)
    requires ParseNumber(cpu).Some? && ParseNumber(memory).Some? && ParseNumber(disk).Some?
    ensures var result := Validate(Fields(Some(vmName), ParseNumber(memory), ParseNumber(cpu), ParseNumber(disk), Some(os)));
      Prepared(vmName, cpu, memory, disk, os).Failure? ==>
        result.Failure? && Prepared(vmName, cpu, memory, disk, os) == Failure(ValidationError(result.error))
  {
    assert ParseMessages(cpu, memory, disk) == [];
  }

  lemma DbFieldsErrors(f: Fields)
    requires f == Fields(Some("db"), Some(0.0), Some(2.0), Some(10.0), Some("solaris"))
    ensures Validate(f) == Failure([FieldError(Memory, NotGreaterThanZero), FieldError(Os, PatternMismatch)])
  {
    OsAcceptedIff("solaris");
    assert ErrorsOf(f, Declared) == [FieldError(Memory, NotGreaterThanZero), FieldError(Os, PatternMismatch)];
  }

  /** Numbers that parse but are not positive, and an unknown system, are the schema's errors. */
  lemma SchemaRejectionScenario()
    ensures Prepared("db", "2", "0", "10", "solaris") ==
      Failure(ValidationError([FieldError(Memory, NotGreaterThanZero), FieldError(Os, PatternMismatch)]))
  {
    SmallNumbersParse();
    DbFieldsErrors(Fields(Some("db"), Some(0.0), Some(2.0), Some(10.0), Some("solaris")));
    OsAcceptedIff("solaris");
    ParsedAnswersMeetSchema("db", "2", "0", "10", "solaris");
  }

  /** Typing the name with hyphens for its spaces makes no difference. */
  lemma PreparedUnderNormalisedName(vmName: string, cpu: string, memory: string, disk: string, os: string)
    ensures Prepared(NormaliseName(vmName), cpu, memory, disk, os) == Prepared(vmName, cpu, memory, disk, os)
  {
    NormaliseNameProperties(vmName);
    var ms := ParseMessages(cpu, memory, disk);
    if ms == [] {
      var fields := Fields(Some(vmName), ParseNumber(memory), ParseNumber(cpu), ParseNumber(disk), Some(os));
      NameUnconstrained(fields, NormaliseName(vmName));
    }
  }

  // ---------------------------------------------------------------------
  // The inventory file

  /**
   * What reading the inventory file finds: no file at all, text that is not
   * valid JSON (the decoder's JSONDecodeError, which creation treats as an
   * empty inventory), or a list of machine records.
   */
  datatype FileState = Missing | Corrupt | Loaded(records: seq<Record>)

  /** An access to the inventory file, in the order made. */
  datatype FileAccess = Read | Write(contents: seq<Record>)

  predicate HasName(records: seq<Record>, name: string) {
    exists i :: 0 <= i < |records| && records[i].name == name
  }

  predicate DistinctNames(records: seq<Record>) {
    forall i, j :: 0 <= i < j < |records| ==> records[i].name != records[j].name
  }

  /** Whether some stored machine already carries the name, scanning the records in order. */
  method NameInUse(records: seq<Record>, name: string) returns (found: bool)
    ensures found <==> HasName(records, name)
  {
    found := false;
    var i := 0;
    while i < |records| && !found
      invariant 0 <= i <= |records|
      invariant found <==> exists j :: 0 <= j < i && records[j].name == name
    {
      found := records[i].name == name;
      i := i + 1;
    }
  }

  /** Appending a machine whose name is not in use keeps the names distinct. */
  lemma AppendFreshKeepsDistinct(records: seq<Record>, vm: Record)
    requires DistinctNames(records) && !HasName(records, vm.name)
    ensures DistinctNames(records + [vm])
  {
    var after := records + [vm];
    forall i, j | 0 <= i < j < |after| ensures after[i].name != after[j].name {
      if j == |records| {
        assert after[i] == records[i];
      }
    }
  }

  /**
   * The steps of `create_virtual_machine` before the inventory file is read:
   * the parse errors are collected one answer at a time and raised together,
   * then the machine is constructed and its name normalised.
   */
  method PrepareMachine(vmName: string, cpu: string, memory: string, disk: string, os: string)
    returns (r: Result<Record, Error>)
    ensures r == Prepared(vmName, cpu, memory, disk, os)
  {
    var errors: seq<string> := [];
    var cpuValue := ParseNumber(cpu);
    if cpuValue.None? {
      errors := errors + [CpuMessage(cpu)];
    }
    var memoryValue := ParseNumber(memory);
    if memoryValue.None? {
      errors := errors + [MemoryMessage(memory)];
    }
    var diskValue := ParseNumber(disk);
    if diskValue.None? {
      errors := errors + [DiskMessage(disk)];
    }
    assert errors == ParseMessages(cpu, memory, disk);
    if errors != [] {
      return Failure(ValueError(Join(errors, ErrorSeparator)));
    }

    // The source passes `ram=memory_float`; the memory value is passed as `memory` here.
    var constructed := Construct(vmName, memoryValue.value, cpuValue.value, diskValue.value, os);
    if constructed.Failure? {
      return Failure(ValidationError(constructed.error));
    }
    var vm := constructed.value;
    if ' ' in vm.name {
      vm := vm.(name := NormaliseName(vm.name));
    }
    return Success(vm);
  }

  /** The records kept from the file before an append: none when it was missing or corrupt. */
  function Kept(file: FileState): seq<Record> {
    if file.Loaded? then file.records else []
  }

  /** The inventory file, read and written whole. */
  class Store {
    var file: FileState
    ghost var accesses: seq<FileAccess>

    constructor (initial: FileState)
      ensures file == initial && accesses == []
    {
      file := initial;
      accesses := [];
    }

    /** The names in a readable file are pairwise distinct. */
    predicate NamesUnique()
      reads this
    {
      file.Loaded? ==> DistinctNames(file.records)
    }

    /** `json.load` of the file: its records, or why none could be read. */
    method ReadFile() returns (contents: FileState)
      modifies this
      ensures contents == file == old(file)
      ensures accesses == old(accesses) + [Read]
    {
      contents := file;
      accesses := accesses + [Read];
    }

    /** `json.dump` of a list over the whole file. */
    method WriteFile(records: seq<Record>)
      modifies this
      ensures file == Loaded(records)
      ensures accesses == old(accesses) + [Write(records)]
    {
      file := Loaded(records);
      accesses := accesses + [Write(records)];
    }

    /**
     * `create_virtual_machine`.  The parse and schema errors are raised before
     * the file is touched; a name already in the file is raised after reading
     * it, with nothing written; a missing or corrupt file is first reset to
     * `[]`; then the file holds the earlier records followed by the new one.
     */
    method CreateVirtualMachine(vmName: string, cpu: string, memory: string, disk: string, os: string)
      returns (r: Result<Record, Error>)
      modifies this
      ensures Prepared(vmName, cpu, memory, disk, os).Failure? ==>
        r == Prepared(vmName, cpu, memory, disk, os) && file == old(file) && accesses == old(accesses)
      ensures Prepared(vmName, cpu, memory, disk, os).Success? ==>
        var vm := Prepared(vmName, cpu, memory, disk, os).value;
        if old(file).Loaded? && HasName(old(file).records, vm.name) then
          r == Failure(ValueError(DuplicateMessage)) && file == old(file) && accesses == old(accesses) + [Read]
        else
          && r == Success(vm)
          && file == Loaded(Kept(old(file)) + [vm])
          && accesses == old(accesses) + [Read] + (if old(file).Loaded? then [] else [Write([])]) + [Write(Kept(old(file)) + [vm])]
      ensures old(NamesUnique()) ==> NamesUnique()
    {
      var prepared := PrepareMachine(vmName, cpu, memory, disk, os);
      if prepared.Failure? {
        return prepared;
      }
      var vm := prepared.value;
      ghost var before := accesses;

      var data := ReadFile();
      var records: seq<Record>;
      if data.Loaded? {
        var taken := NameInUse(data.records, vm.name);
        if taken {
          return Failure(ValueError(DuplicateMessage));
        }
        records := data.records;
      } else {
        WriteFile([]);
        records := [];
      }
      assert records == Kept(old(file));
      assert accesses == before + [Read] + (if data.Loaded? then [] else [Write([])]);
      if data.Loaded? && DistinctNames(records) {
        AppendFreshKeepsDistinct(records, vm);
      }
      var vms := records + [vm];
      WriteFile(vms);
      return Success(vm);
    }
  }

  /**
   * Two requests for the same machine against a corrupt file: the first
   * repairs the file and is stored, the second, even typed with hyphens, is
   * refused and leaves the file as it was.
   */
  method ProvisionSameNameTwice(vmName: string, cpu: string, memory: string, disk: string, os: string)
    returns (first: Result<Record, Error>, second: Result<Record, Error>, stored: FileState)
    requires Prepared(vmName, cpu, memory, disk, os).Success?
    ensures first == Prepared(vmName, cpu, memory, disk, os)
    ensures second == Failure(ValueError(DuplicateMessage))
    ensures stored == Loaded([first.value])
  {
    var store := new Store(Corrupt);
    first := store.CreateVirtualMachine(vmName, cpu, memory, disk, os);
    var vm := first.value;
    assert store.file == Loaded([vm]);
    PreparedUnderNormalisedName(vmName, cpu, memory, disk, os);
    assert HasName([vm], vm.name) by { assert [vm][0].name == vm.name; }
    second := store.CreateVirtualMachine(NormaliseName(vmName), cpu, memory, disk, os);
    stored := store.file;
  }
}
