/**
 * The virtual-machine schema: five required fields, `memory`, `cpu` and
 * `storage` strictly greater than zero, and `os` matching the anchored,
 * case-sensitive pattern `^(w|win|windows|lin|l|linux)$`.  `name` carries no
 * constraint.  Each field is checked on its own and every failing field is
 * reported, in declaration order.
 */
module Machine {
  import opened Outcomes
  import Pattern

  /** A constructed machine; the fields in declaration order. */
  datatype Record = Record(name: string, memory: real, cpu: real, storage: real, os: string)

  /** The values handed to the schema; `None` is a field that was not supplied. */
  datatype Fields = Fields(
    name: Option<string>,
    memory: Option<real>,
    cpu: Option<real>,
    storage: Option<real>,
    os: Option<string>)

  datatype Field = Name | Memory | Cpu | Storage | Os

  datatype ErrorKind = MissingField | NotGreaterThanZero | PatternMismatch

  datatype FieldError = FieldError(field: Field, kind: ErrorKind)

  /** The alternatives of the `os` pattern, in the order the pattern lists them. */
  const OsAlternatives: seq<string> := ["w", "win", "windows", "lin", "l", "linux"]

  predicate OsMatches(os: string) {
    Pattern.FullMatch(OsAlternatives, os)
  }

  /** The position of a field in the schema's declaration. */
  function Position(field: Field): nat {
    match field
    case Name => 0
    case Memory => 1
    case Cpu => 2
    case Storage => 3
    case Os => 4
  }

  /** The check `gt=0` on a numeric field. */
  function PositiveCheck(value: Option<real>): Option<ErrorKind> {
    match value
    case None => Some(MissingField)
    case Some(x) => if x > 0.0 then None else Some(NotGreaterThanZero)
  }

  /** The check of one field alone: the kind of error it raises, if any. */
  function ErrorFor(f: Fields, field: Field): Option<ErrorKind> {
    match field
    case Name => if f.name.Some? then None else Some(MissingField)
    case Memory => PositiveCheck(f.memory)
    case Cpu => PositiveCheck(f.cpu)
    case Storage => PositiveCheck(f.storage)
    case Os =>
      match f.os
      case None => Some(MissingField)
      case Some(s) => if OsMatches(s) then None else Some(PatternMismatch)
  }

  function Check(f: Fields, field: Field): seq<FieldError> {
    match ErrorFor(f, field)
    case None => []
    case Some(kind) => [FieldError(field, kind)]
  }

  /** The fields in declaration order. */
  const Declared: seq<Field> := [Name, Memory, Cpu, Storage, Os]

  /** The errors of the listed fields, each field checked on its own, in list order. */
  function ErrorsOf(f: Fields, fields: seq<Field>): seq<FieldError> {
    if fields == [] then [] else Check(f, fields[0]) + ErrorsOf(f, fields[1..])
  }

  lemma {:induction false} ErrorsOfMembers(f: Fields, fields: seq<Field>)
    ensures forall e :: e in ErrorsOf(f, fields) <==> e.field in fields && ErrorFor(f, e.field) == Some(e.kind)
    ensures ErrorsOf(f, fields) == [] <==> forall field :: field in fields ==> ErrorFor(f, field).None?
  {
    if fields != [] {
      ErrorsOfMembers(f, fields[1..]);
      assert fields == [fields[0]] + fields[1..];
    }
  }

  lemma {:induction false} ErrorsOfOrdered(f: Fields, fields: seq<Field>)
    requires forall i, j :: 0 <= i < j < |fields| ==> Position(fields[i]) < Position(fields[j])
    ensures forall i :: 0 <= i < |ErrorsOf(f, fields)| ==> ErrorsOf(f, fields)[i].field in fields
    ensures forall i, j :: 0 <= i < j < |ErrorsOf(f, fields)| ==>
      Position(ErrorsOf(f, fields)[i].field) < Position(ErrorsOf(f, fields)[j].field)
  {
    if fields != [] {
      var rest := ErrorsOf(f, fields[1..]);
      ErrorsOfOrdered(f, fields[1..]);
      forall i | 0 <= i < |rest| ensures Position(fields[0]) < Position(rest[i].field) {
        var k :| 1 <= k < |fields| && fields[k] == rest[i].field;
      }
    }
  }

  lemma AllDeclared()
    ensures forall field :: field in Declared
  {
    forall field ensures field in Declared {
      assert Declared[Position(field)] == field;
    }
  }

  lemma DeclaredInOrder()
    ensures forall i, j :: 0 <= i < j < |Declared| ==> Position(Declared[i]) < Position(Declared[j])
  {
    forall i, j | 0 <= i < j < |Declared| ensures Position(Declared[i]) < Position(Declared[j]) {
      assert Position(Declared[i]) == i && Position(Declared[j]) == j;
    }
  }

  /** The errors of all declared fields: exactly the failing checks, in declaration order. */
  lemma DeclaredErrors(f: Fields)
    ensures ErrorsOf(f, Declared) == [] <==> forall field :: ErrorFor(f, field).None?
    ensures forall e :: e in ErrorsOf(f, Declared) <==> ErrorFor(f, e.field) == Some(e.kind)
    ensures forall i, j :: 0 <= i < j < |ErrorsOf(f, Declared)| ==>
      Position(ErrorsOf(f, Declared)[i].field) < Position(ErrorsOf(f, Declared)[j].field)
  {
    AllDeclared();
    DeclaredInOrder();
    ErrorsOfMembers(f, Declared);
    ErrorsOfOrdered(f, Declared);
  }

  /**
   * Construction of a machine from its fields: the record holding exactly the
   * given values, or the list of every field error in declaration order.
   */
  function Validate(f: Fields): (r: Result<Record, seq<FieldError>>)
    ensures r.Success? <==> forall field :: ErrorFor(f, field).None?
    ensures r.Success? ==>
      && f.name == Some(r.value.name) && f.memory == Some(r.value.memory) && f.cpu == Some(r.value.cpu)
      && f.storage == Some(r.value.storage) && f.os == Some(r.value.os)
    ensures r.Failure? ==> r.error != []
    ensures r.Failure? ==> forall e :: e in r.error <==> ErrorFor(f, e.field) == Some(e.kind)
    ensures r.Failure? ==>
      forall i, j :: 0 <= i < j < |r.error| ==> Position(r.error[i].field) < Position(r.error[j].field)
  {
    var errors := ErrorsOf(f, Declared);
    DeclaredErrors(f);
    if errors == [] then
      assert ErrorFor(f, Name).None? && ErrorFor(f, Memory).None? && ErrorFor(f, Cpu).None?;
      assert ErrorFor(f, Storage).None? && ErrorFor(f, Os).None?;
      Success(Record(f.name.value, f.memory.value, f.cpu.value, f.storage.value, f.os.value))
    else
      Failure(errors)
  }

  /** The `os` pattern accepts exactly its six alternatives. */
  lemma OsAcceptedIff(os: string)
    ensures OsMatches(os) <==> os == "w" || os == "win" || os == "windows" || os == "lin" || os == "l" || os == "linux"
  {
    Pattern.FullMatchIff(OsAlternatives, os);
  }

  /** The pattern is case-sensitive and anchored at both ends. */
  lemma OsCaseSensitiveAndAnchored()
    ensures !OsMatches("Linux") && !OsMatches("WINDOWS") && !OsMatches("linuxx") && !OsMatches(" linux")
  {
    OsAcceptedIff("Linux");
    OsAcceptedIff("WINDOWS");
    OsAcceptedIff("linuxx");
    OsAcceptedIff(" linux");
  }

  /** The field was not supplied. */
  predicate Absent(f: Fields, field: Field) {
    match field
    case Name => f.name.None?
    case Memory => f.memory.None?
    case Cpu => f.cpu.None?
    case Storage => f.storage.None?
    case Os => f.os.None?
  }

  /** A machine with any field left out is not constructed; the missing field is reported. */
  lemma MissingFieldRejected(f: Fields, field: Field)
    requires Absent(f, field)
    ensures Validate(f).Failure?
    ensures FieldError(field, MissingField) in Validate(f).error
  {
    assert ErrorFor(f, field) == Some(MissingField);
  }

  /** A supplied numeric value passes its check exactly when it is strictly positive. */
  lemma PositiveIff(f: Fields, field: Field, x: real)
    requires field in {Memory, Cpu, Storage}
    requires field == Memory ==> f.memory == Some(x)
    requires field == Cpu ==> f.cpu == Some(x)
    requires field == Storage ==> f.storage == Some(x)
    ensures ErrorFor(f, field).None? <==> x > 0.0
    ensures x <= 0.0 ==> FieldError(field, NotGreaterThanZero) in Validate(f).error
  {
  }

  /** The name carries no constraint: any supplied string, the empty one included, passes. */
  lemma NameUnconstrained(f: Fields, name: string)
    requires f.name.Some?
    ensures Validate(f.(name := Some(name))).Success? == Validate(f).Success?
    ensures Validate(f).Success? ==> Validate(f.(name := Some(name))).value == Validate(f).value.(name := name)
    ensures Validate(f).Failure? ==> Validate(f.(name := Some(name))).error == Validate(f).error
  {
    var g := f.(name := Some(name));
    assert forall field :: ErrorFor(g, field) == ErrorFor(f, field);
    SameChecksSameErrors(f, g, Declared);
  }

  lemma {:induction false} SameChecksSameErrors(f: Fields, g: Fields, fields: seq<Field>)
    requires forall field :: ErrorFor(f, field) == ErrorFor(g, field)
    ensures ErrorsOf(f, fields) == ErrorsOf(g, fields)
  {
    if fields != [] {
      SameChecksSameErrors(f, g, fields[1..]);
      assert Check(f, fields[0]) == Check(g, fields[0]);
    }
  }

  /** A record whose fields all pass is constructed with the values as given. */
  lemma ValidRecordAccepted(r: Record)
    requires r.memory > 0.0 && r.cpu > 0.0 && r.storage > 0.0 && OsMatches(r.os)
    ensures Validate(Fields(Some(r.name), Some(r.memory), Some(r.cpu), Some(r.storage), Some(r.os))) == Success(r)
  {
  }
}
