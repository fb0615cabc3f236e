# Virtual-machine provisioning: validation and inventory persistence

This project models the core of a small command-line provisioning
simulator. An operator types a machine's name, cpu count, memory, disk
size and operating system. The program checks them against a schema and
appends the machine to a JSON inventory file, unless a machine with the
same name is already recorded.

The model has six modules, one file each:

- `Machine` (`machine.dfy`) is the `VirtualMachine` schema. `Validate`
  takes five optional fields. It returns the record holding exactly the
  given values, or a list of every field error in declaration order. All
  five fields are required. `memory`, `cpu` and `storage` must be greater
  than zero. `os` must match `^(w|win|windows|lin|l|linux)$`, which is
  anchored and case-sensitive. `name` has no constraint.
- `Pattern` (`pattern.dfy`) matches an anchored alternation of literals
  the way a regex engine does: it tries each alternative in order and
  backtracks when the end anchor fails. `FullMatchIff` proves that such a
  pattern accepts exactly its alternatives.
- `NumberParsing` (`number_parsing.dfy`) gives `float(text)` as a decimal
  grammar over exact reals.
- `Text` (`text.dfy`) holds the string methods the code uses: `strip`,
  `lower`, single-character `replace` and `join`.
- `Provisioning` (`provisioning.dfy`) models `functions.py`:
  - the prompt normalisation `GetVmDetails` and `AskUserForFlag`;
  - the steps of `create_virtual_machine` before the file is touched: the
    method `PrepareMachine`, proved against the function `Prepared`;
  - the inventory file as the class `Store`. Its field `file` is
    `Missing | Corrupt | Loaded(records)`. A ghost field `accesses` logs
    every read and write in order, so the contracts can state when
    nothing is written.
- `Outcomes` (`outcomes.dfy`) holds `Option` and `Result`.

`Store.CreateVirtualMachine` does what the source does, in the same
order, except that the memory value is passed as `memory` (see Findings):

1. It parses cpu, memory and disk, collecting one message per unparsable
   answer. If any failed, it raises their `" | "`-joined text.
2. It constructs the machine from the parsed memory, cpu and disk values.
   Schema errors are raised here.
3. It replaces spaces in the name with `-` if the name has any.
4. It reads the file. A name already in a loaded file is raised, and
   nothing is written.
5. A missing or corrupt file is reset to `[]`.
6. It writes the earlier records followed by the new one, and returns the
   new one.

Behaviour of the code that the model keeps as it is:

- `os` aliases are not canonicalised: `w` stays `w`.
- The `os` check is case-sensitive. Only the interactive prompt
  lower-cases its answer.
- An empty name is accepted.
- Unparsable numbers are raised before the schema runs. So
  `("", "abc", "0", "10", "solaris")` reports only the cpu answer
  (`NonNumericCpuScenario`).
- Both the parse failure and the duplicate name are a plain `ValueError`.
  They differ only in their message.

## Model

| member | source | states |
|---|---|---|
| Machine.Validate | src/machine.py:4-13 | Accepts iff every field's own check passes. An accepted record holds exactly the given values. A rejection lists exactly the failing fields with their error kind, non-empty, in declaration order. |
| Machine.OsAcceptedIff | src/machine.py:9-13 | `os` is accepted iff it is one of `w`, `win`, `windows`, `lin`, `l`, `linux`. |
| Machine.OsCaseSensitiveAndAnchored | src/machine.py:12 | `Linux`, `WINDOWS`, `linuxx` and ` linux` are rejected. |
| Machine.MissingFieldRejected | src/machine.py:5-13 | A field that is not supplied makes construction fail with that field reported missing. |
| Machine.PositiveIff | src/machine.py:6-8 | A supplied memory, cpu or storage value passes iff it is strictly greater than 0. Zero and negatives are reported as not greater than zero. |
| Machine.NameUnconstrained | src/machine.py:5 | Replacing the name by any string, the empty one included, changes neither acceptance nor the errors. Only the stored name changes. |
| Machine.ValidRecordAccepted | src/machine.py:4-13 | A record with positive numbers and a matching `os` is constructed unchanged. |
| Machine.ErrorsOfMembers | src/machine.py:5-13 | The collected errors are exactly the failing checks of the listed fields. There are none iff every listed field passes. |
| Machine.ErrorsOfOrdered | src/machine.py:5-13 | Errors come out in the order in which the fields are declared. |
| Pattern.MatchLiteral | src/machine.py:12 | A literal consumes input iff it is a prefix of the input. What is left is the input after the literal. |
| Pattern.FullMatchIff | src/machine.py:12 | An anchored alternation of literals matches exactly its alternatives. |
| NumberParsing.ParseNumber | src/functions.py:22-38 | A successful parse is of a non-empty string made only of digits, `.`, `+` and `-`. A negative value needs a leading `-`. |
| NumberParsing.ParseNumberIff | src/functions.py:22-38 | `float` succeeds exactly on the decimal grammar `IsDecimal`, stated without the parser: an optional sign, then a non-empty digit run or two digit runs around one point that are not both empty. Every other string is rejected. |
| NumberParsing.MalformedRejected | src/functions.py:22-38 | `1.2.3`, `.`, `--1`, `1-2` and `+` do not parse, so each raises its answer's message. |
| NumberParsing.ParseDigits | src/functions.py:23 | A non-empty run of digits parses to its decimal value. |
| NumberParsing.ParseFraction | src/functions.py:23 | `w.f` with digit runs `w` and `f`, not both empty, parses to the value of `w` plus the value of `f` divided by ten to the length of `f`. |
| NumberParsing.ParseSigned | src/functions.py:23 | A leading `-` negates the value of an unsigned numeral or keeps it unparsable. A leading `+` changes nothing. |
| NumberParsing.NonNumericRejected | src/functions.py:22-26 | Text with a character outside the number grammar, such as `abc`, does not parse. |
| NumberParsing.ParseNatRoundTrip | src/functions.py:23 | Every whole number written in decimal parses back to its value. |
| Text.Strip | src/functions.py:6-10 | The result is a contiguous part of the input with only whitespace before and after it, and it neither starts nor ends with whitespace. |
| Text.Lower | src/functions.py:10 | `lower` keeps the length and maps each character through ASCII lower-casing. |
| Text.Replace | src/functions.py:48 | `replace` keeps the length and changes exactly the target characters. |
| Text.Join | src/functions.py:41 | Joining no parts gives the empty text, and joining one part gives that part. Otherwise the text starts with the first part. |
| Text.JoinAppend | src/functions.py:41 | Joining one more part appends the separator and that part to the join of the others. |
| Provisioning.GetVmDetails | src/functions.py:5-11 | Every answer is stripped. `os` is the stripped answer lower-cased character by character, so it keeps its length and has no capitals and no surrounding whitespace. |
| Provisioning.AskUserForFlag | src/functions.py:14-16 | The flag is true iff the answer is a single `y` or `Y` with only whitespace around it. |
| Provisioning.ParseMessages | src/functions.py:20-38 | Each answer's message is present iff that answer does not parse. Nothing else is present. The messages come in the order cpu, memory, disk, so each occurs at most once. |
| Provisioning.ParseErrorsAllReported | src/functions.py:20-41 | With all three answers unparsable, the raised text is the cpu, memory and disk messages joined by the space-bar-space separator `ErrorSeparator`. |
| Provisioning.OnlyCpuUnparsable | src/functions.py:22-41 | A lone unparsable cpu is raised as its own message. |
| Provisioning.ConstructAsWritten | src/functions.py:43-45 | As written (`ram=`), construction always fails with `memory` reported missing. |
| Provisioning.AsWrittenRejectsValidMachine | src/functions.py:43-45 | Values that the corrected construction turns into a machine are rejected as written. |
| Provisioning.Construct | src/functions.py:43-45 | Corrected construction succeeds iff memory, cpu and storage are positive and `os` matches. It then yields the record of the given values. |
| Provisioning.NormaliseName | src/functions.py:47-48 | Name normalisation keeps the length, leaves no space, turns each space into `-` and keeps every other character. |
| Provisioning.NormaliseNameProperties | src/functions.py:47-48 | Name normalisation is idempotent and leaves a name without spaces as it is. |
| Provisioning.Prepared | src/functions.py:19-48 | Parse errors are raised joined. It succeeds iff all three answers parse to positive numbers and `os` matches. The machine holds the parsed values, the `os` as given and the normalised name. |
| Provisioning.PrepareMachine | src/functions.py:20-48 | Collecting the parse errors one answer at a time, then constructing and renaming, gives exactly the outcome `Prepared` specifies. |
| Provisioning.ParsedAnswersMeetSchema | src/functions.py:40-45 | Once the numbers parse, a failure is the schema's error list. |
| Provisioning.PreparedUnderNormalisedName | src/functions.py:47-48 | Typing the hyphenated name gives the same outcome as typing the spaced one. |
| Provisioning.WebServerScenario | src/functions.py:43-48 | `("web server", "2", "4", "50", "w")` yields the machine `web-server` with memory 4, cpu 2, storage 50 and `os` still `w`. |
| Provisioning.NonNumericCpuScenario | src/functions.py:20-41 | `("", "abc", "0", "10", "solaris")` raises only the cpu message. |
| Provisioning.SchemaRejectionScenario | src/functions.py:43-45 | A memory of 0 and the `os` `solaris` give exactly those two schema errors, in field order. |
| Provisioning.NameInUse | src/functions.py:52 | The scan of the stored names finds the name iff some stored record has it. |
| Provisioning.AppendFreshKeepsDistinct | src/functions.py:52-60 | Appending a machine whose name is unused keeps the stored names pairwise distinct. |
| Provisioning.Store.ReadFile | src/functions.py:50-51 | Returns the file's state, changes nothing and logs one read. |
| Provisioning.Store.WriteFile | src/functions.py:61-62 | The file afterwards holds exactly the given list. One write is logged. |
| Provisioning.Store.CreateVirtualMachine | src/functions.py:19-63 | Parse or schema errors: that error, with the file untouched and unread. Name in use: the duplicate error after one read, with nothing written. Missing or corrupt file: a read, a write of `[]`, then the file holds exactly the new machine. Loaded file: a read, then one write of the old records followed by the new one. The new one is returned. Distinct names stay distinct. |
| Provisioning.ProvisionSameNameTwice | src/functions.py:50-63 | Against a corrupt file, the first request is stored alone. A second request under the same (hyphenated) name is refused, and the file keeps only the first machine. |

## Left out

- `src/infra_simulator.py` is not part of this model. It is a top-level script that sets up logging, creates paths, prompts, and rewrites validation messages. Its store logic also differs: it writes only the new machine. It passes the memory as `ram` too (src/infra_simulator.py:43).
- Terminal input: the prompts' answers are parameters of `GetVmDetails`, `AskUserForFlag` and `CreateVirtualMachine`. The prompt text is not modelled.
- JSON text: the file is the abstract `Missing | Corrupt | Loaded(records)`. A well-formed file that is not a list of objects with a `name` makes the source raise before anything is written. Most such files raise `KeyError` or `TypeError` in the name scan at src/functions.py:52. An empty object `{}` or an empty string `""` passes that scan, because there is nothing to iterate over, and then raises `AttributeError` at src/functions.py:59-60. That case is not modelled.
- A file that is not valid text makes `json.load` raise `UnicodeDecodeError`. The handler at src/functions.py:54 does not catch it, so the source neither resets nor writes the file. The model's `Corrupt` is only the `JSONDecodeError` case, and this escape is not modelled.
- Real I/O failures (permissions, full disk) and concurrent writers are not modelled. The code assumes one sequential writer.
- `ReadFile` logs a read even when the file is missing: it stands for the attempted `open`.
- NumberParsing.ParseNumber: covers only the decimal grammar: sign, digits, optional fraction. Exponents, `inf`/`nan`, underscores and surrounding whitespace are not modelled. Values are exact reals, so IEEE rounding is not modelled: a numeral too small for a double, such as `0.` followed by 400 zeros and a `1`, becomes `0.0` in the source and fails the greater-than-zero check, while the model takes it as positive. Only ASCII digits are digits here, while `float` also accepts other Unicode decimal digits such as `４` or `٣`; the model rejects those answers with the parse message.
- Text.Lower: maps only the ASCII capitals, while Python's `str.lower` is full Unicode. No non-ASCII character lowers to `y`, so the flag is unaffected.
- The schema's other behaviour is not modelled: lax coercion of strings to numbers, the text of its messages, `nan`, and the validation that assignment to `vm.name` bypasses. The name has no constraint, so the bypass cannot matter. The unknown keyword `ram` is ignored, so `memory` is modelled as not supplied in `ConstructAsWritten`.
- The pattern's `$` is read as end of input. That is how the schema library's default regex engine treats it.

## Findings

| source | as written | input that shows it | evidently intended | confidence | as-written member | corrected member |
|---|---|---|---|---|---|---|
| src/functions.py:44 | The machine is built with `ram=memory_float`, but the schema's field is `memory` (src/machine.py:6). The keyword is ignored and `memory` is missing, so every call whose numbers parse raises a validation error and nothing is ever stored. | `create_virtual_machine("vm", "2", "4", "50", "linux", path)` | `memory=memory_float` | not executed; high | Provisioning.ConstructAsWritten | Provisioning.Construct |
