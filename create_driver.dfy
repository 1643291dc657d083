/**
 * The `POST /` handler that creates a driver (server/routes/cruds/createDriver.js).
 *
 * Inside one transaction it collects every validation and duplicate error it
 * finds, answers 400 with all of them if there are any, and otherwise inserts
 * the driver and one link per drivable vehicle and commits. Every error thrown
 * on the way rolls the transaction back and is mapped to 400 (a unique
 * violation) or 500; the client goes back to the pool on every path.
 */
module CreateDriver {
  import opened Wrappers
  import opened Text
  import opened Schema
  import opened Placeholders
  import opened Store
  import opened Responses

  /**
   * The request body. `age` is `None` when absent or not a number;
   * `contactNumber` is `None` when absent; `drivableVehicles` is `None` when absent.
   */
  datatype DriverRequest = DriverRequest(
    name: string,
    age: Option<int>,
    gender: string,
    contactNumber: Option<string>,
    licenseNumber: string,
    drivableVehicles: Option<seq<int>>)

  // The longer messages are written as concatenations of short literals so
  // that the verifier can look at their characters; the text is unchanged.
  const AgeMessage := "Driver must be at least " + "18 years old."
  const DigitsMessage := "Contact number must " + "contain numbers only."
  const LengthMessage := "Contact number must " + "be exactly 11 digits."
  const LicenseMessage := "License ID already exists."
  const NameMessage := "Driver name already exists." + " Please add an additional" + " identifier (e.g. Jr., Sr.," + " Middle Initial)."
  const ConstraintMessage := "Duplicate value detected (database constraint)."
  const FailureMessage := "Failed to create driver."

  /** The five rules, in the order the handler checks them. */
  datatype Rule = AgeRule | DigitsRule | LengthRule | LicenseRule | NameRule

  /** The message a failed rule pushes onto `errors`. */
  function Message(r: Rule): string {
    match r
    case AgeRule => AgeMessage
    case DigitsRule => DigitsMessage
    case LengthRule => LengthMessage
    case LicenseRule => LicenseMessage
    case NameRule => NameMessage
  }

  /** The place of a rule in the check order. */
  function Position(r: Rule): nat {
    match r
    case AgeRule => 0
    case DigitsRule => 1
    case LengthRule => 2
    case LicenseRule => 3
    case NameRule => 4
  }

  /** The queries and statements the handler sends, each of which may fail. */
  datatype Step = Begin | LicenseCheck | NameCheck | ValidationRollback | InsertDriver | InsertVehicles | Commit

  /** For each step that fails, the SQLSTATE code of the error it throws. */
  type Faults = map<Step, string>

  // ---- Validation and duplicate rules ----

  /** `!age || isNaN(age) || Number(age) < 18`. */
  predicate AgeRejected(age: Option<int>) {
    age.None? || age.value < 18
  }

  /** Some enabled driver already has exactly this license number. */
  predicate LicenseTaken(drivers: seq<Driver>, license: string) {
    exists i :: 0 <= i < |drivers| && drivers[i].enabled && drivers[i].licenseNumber == license
  }

  /** Some enabled driver already has this name, ignoring case. */
  predicate NameTaken(drivers: seq<Driver>, name: string) {
    exists i :: 0 <= i < |drivers| && drivers[i].enabled && Lower(drivers[i].name) == Lower(name)
  }

  /** `SELECT id FROM "Drivers" WHERE liscence_id_number = $1 AND enabled = true`. */
  function LicenseQuery(drivers: seq<Driver>, license: string): seq<int> {
    DriverIds(Where(drivers, (d: Driver) => d.enabled && d.licenseNumber == license))
  }

  /** `SELECT id FROM "Drivers" WHERE LOWER(name) = LOWER($1) AND enabled = true`. */
  function NameQuery(drivers: seq<Driver>, name: string): seq<int> {
    DriverIds(Where(drivers, (d: Driver) => d.enabled && Lower(d.name) == Lower(name)))
  }

  lemma LicenseQueryFinds(drivers: seq<Driver>, license: string)
    ensures |LicenseQuery(drivers, license)| > 0 <==> LicenseTaken(drivers, license)
  {
    WhereFindsMatch(drivers, (d: Driver) => d.enabled && d.licenseNumber == license);
  }

  lemma NameQueryFinds(drivers: seq<Driver>, name: string)
    ensures |NameQuery(drivers, name)| > 0 <==> NameTaken(drivers, name)
  {
    WhereFindsMatch(drivers, (d: Driver) => d.enabled && Lower(d.name) == Lower(name));
  }

  /** Whether a rule fails for a request against the drivers table. */
  predicate Fails(r: Rule, age: Option<int>, contactNumber: string, license: string, name: string, drivers: seq<Driver>) {
    match r
    case AgeRule => AgeRejected(age)
    case DigitsRule => !AllDigits(contactNumber)
    case LengthRule => |contactNumber| != 11
    case LicenseRule => LicenseTaken(drivers, license)
    case NameRule => NameTaken(drivers, name)
  }

  /** The failing rules among those on the input alone (lines 26-40), in check order. */
  function InputRules(age: Option<int>, contactNumber: string): seq<Rule> {
    (if AgeRejected(age) then [AgeRule] else [])
    + (if !AllDigits(contactNumber) then [DigitsRule] else [])
    + (if |contactNumber| != 11 then [LengthRule] else [])
  }

  /** The failing rules, in check order. */
  function FailedRules(age: Option<int>, contactNumber: string, license: string, name: string, drivers: seq<Driver>): seq<Rule> {
    InputRules(age, contactNumber)
    + (if LicenseTaken(drivers, license) then [LicenseRule] else [])
    + (if NameTaken(drivers, name) then [NameRule] else [])
  }

  /** The messages of a list of rules, in the same order. */
  function Messages(rules: seq<Rule>): seq<string> {
    seq(|rules|, i requires 0 <= i < |rules| => Message(rules[i]))
  }

  /** The messages `errors` holds after every rule has been checked. */
  function DriverErrors(age: Option<int>, contactNumber: string, license: string, name: string, drivers: seq<Driver>): seq<string> {
    Messages(FailedRules(age, contactNumber, license, name, drivers))
  }

  // ---- The outcome of a request ----

  /** `drivableVehicles`, with an absent list read as no vehicles (`drivableVehicles?.length`). */
  function Vehicles(req: DriverRequest): seq<int> {
    match req.drivableVehicles
    case None => []
    case Some(vs) => vs
  }

  /**
   * The part of the `try` block that checks the request (lines 26-63): either
   * an error is thrown, or the list of collected messages is complete.
   */
  datatype Checked = CheckThrew(code: Option<string>) | CheckDone(errors: seq<string>)

  /** What checking the request gives, against the drivers table as it is. */
  function CheckOutcome(req: DriverRequest, drivers: seq<Driver>, faults: Faults): Checked {
    // reading `.length` of an undefined contact number throws a TypeError, which has no code
    if req.contactNumber.None? then CheckThrew(None)
    else if LicenseCheck in faults then CheckThrew(Some(faults[LicenseCheck]))
    else if NameCheck in faults then CheckThrew(Some(faults[NameCheck]))
    else CheckDone(DriverErrors(req.age, req.contactNumber.value, req.licenseNumber, req.name, drivers))
  }

  /** How the inserts and the commit end (lines 75-104), once no error was collected. */
  function InsertOutcome(req: DriverRequest, faults: Faults): Flow {
    if InsertDriver in faults then Threw(Some(faults[InsertDriver]))
    else if Vehicles(req) != [] && InsertVehicles in faults then Threw(Some(faults[InsertVehicles]))
    else if Commit in faults then Threw(Some(faults[Commit]))
    else Returned(Response(200, true, None, None))
  }

  /** How the `try` block ends, given the drivers table at the start and the failing steps. */
  function TryOutcome(req: DriverRequest, drivers: seq<Driver>, faults: Faults): Flow {
    if Begin in faults then Threw(Some(faults[Begin]))
    else
      match CheckOutcome(req, drivers, faults)
      case CheckThrew(code) => Threw(code)
      case CheckDone(errors) =>
        if errors != [] then
          if ValidationRollback in faults then Threw(Some(faults[ValidationRollback]))
          else Returned(Response(400, false, Some(Join(errors, "\n")), None))
        else InsertOutcome(req, faults)
  }

  /** The `catch` block's answer to an error with code `code`. */
  function CatchResponse(code: Option<string>): Response {
    if code == Some(UniqueViolation) then Response(400, false, Some(ConstraintMessage), None)
    else Response(500, false, Some(FailureMessage), None)
  }

  /** The response the handler sends. */
  function DriverResponse(req: DriverRequest, drivers: seq<Driver>, faults: Faults): Response {
    match TryOutcome(req, drivers, faults)
    case Returned(r) => r
    case Threw(code) => CatchResponse(code)
  }

  /** The transaction commits: the `try` block runs to its end. */
  predicate Commits(req: DriverRequest, drivers: seq<Driver>, faults: Faults)
    ensures Commits(req, drivers, faults) ==> req.age.Some? && req.age.value >= 18 && req.contactNumber.Some?
  {
    TryOutcome(req, drivers, faults) == Returned(Response(200, true, None, None))
  }

  /** The row the handler inserts for a request. */
  function NewDriver(id: int, req: DriverRequest): Driver
    requires req.age.Some? && req.contactNumber.Some?
  {
    Driver(id, req.name, req.age.value, req.gender, req.contactNumber.value, req.licenseNumber, true)
  }

  /** The tables after a committed request: the new driver and its links appended. */
  function Committed(pre: Tables, req: DriverRequest): Tables
    requires req.age.Some? && req.contactNumber.Some?
  {
    var id := FreshId(DriverIds(pre.drivers));
    Tables(pre.drivers + [NewDriver(id, req)], pre.driverVehicles + Links(id, Vehicles(req)), pre.facilities)
  }

  // ---- Properties of the rules and of the outcome ----

  /** Different rules have different messages. */
  lemma MessageInjective(a: Rule, b: Rule)
    ensures a != b ==> Message(a) != Message(b)
  {
    assert AgeMessage[0] != DigitsMessage[0] && AgeMessage[0] != LengthMessage[0];
    assert AgeMessage[0] != LicenseMessage[0] && AgeMessage[7] != NameMessage[7];
    assert DigitsMessage[20] != LengthMessage[20];
    assert DigitsMessage[0] != LicenseMessage[0] && DigitsMessage[0] != NameMessage[0];
    assert LengthMessage[0] != LicenseMessage[0] && LengthMessage[0] != NameMessage[0];
    assert LicenseMessage[0] != NameMessage[0];
  }

  /** The message of the age rule is one line. */
  lemma AgeMessageSingleLine()
    ensures '\n' !in AgeMessage
  {
    assert '\n' !in "Driver must be at least ";
  }

  /** The messages of the two contact number rules are one line each. */
  lemma ContactMessagesSingleLine()
    ensures '\n' !in DigitsMessage && '\n' !in LengthMessage
  {
    assert '\n' !in "Contact number must ";
    assert '\n' !in "contain numbers only.";
  }

  /** Two lines joined without a separator are still one line. */
  lemma SingleLineAppend(a: string, b: string)
    requires '\n' !in a && '\n' !in b
    ensures '\n' !in a + b
  {
  }

  /** The first two pieces of the name rule's message are one line. */
  lemma NameHeadSingleLine()
    ensures '\n' !in "Driver name already exists."
    ensures '\n' !in " Please add an additional"
  {
  }

  /** The last two pieces of the name rule's message are one line. */
  lemma NameTailSingleLine()
    ensures '\n' !in " identifier (e.g. Jr., Sr.,"
    ensures '\n' !in " Middle Initial)."
  {
  }

  /** The message of the name rule is one line. */
  lemma NameMessageSingleLine()
    ensures '\n' !in NameMessage
  {
    var p1, p2 := "Driver name already exists.", " Please add an additional";
    var p3, p4 := " identifier (e.g. Jr., Sr.,", " Middle Initial).";
    NameHeadSingleLine();
    NameTailSingleLine();
    SingleLineAppend(p1, p2);
    SingleLineAppend(p1 + p2, p3);
    SingleLineAppend(p1 + p2 + p3, p4);
  }

  /** No message contains a newline. */
  lemma MessageSingleLine(r: Rule)
    ensures '\n' !in Message(r)
  {
    match r
    case AgeRule => AgeMessageSingleLine();
    case DigitsRule => ContactMessagesSingleLine();
    case LengthRule => ContactMessagesSingleLine();
    case LicenseRule => assert '\n' !in LicenseMessage;
    case NameRule => NameMessageSingleLine();
  }

  /** Pushing a rule's message onto the messages of a list of rules. */
  lemma MessagesPush(rules: seq<Rule>, r: Rule)
    ensures Messages(rules + [r]) == Messages(rules) + [Message(r)]
  {
  }

  /** A rule is among the failing rules exactly when it fails. */
  lemma FailedRulesMatch(r: Rule, age: Option<int>, contactNumber: string, license: string, name: string, drivers: seq<Driver>)
    ensures r in FailedRules(age, contactNumber, license, name, drivers) <==> Fails(r, age, contactNumber, license, name, drivers)
  {
  }

  /**
   * Each message is reported exactly when its rule fails; the messages
   * reported are those of failing rules and nothing else.
   */
  lemma ErrorsMatchRules(r: Rule, age: Option<int>, contactNumber: string, license: string, name: string, drivers: seq<Driver>)
    ensures Message(r) in DriverErrors(age, contactNumber, license, name, drivers) <==> Fails(r, age, contactNumber, license, name, drivers)
  {
    var rules := FailedRules(age, contactNumber, license, name, drivers);
    FailedRulesMatch(r, age, contactNumber, license, name, drivers);
    if Message(r) in Messages(rules) {
      var i :| 0 <= i < |rules| && Messages(rules)[i] == Message(r);
      MessageInjective(rules[i], r);
    }
    if r in rules {
      var i :| 0 <= i < |rules| && rules[i] == r;
      assert Messages(rules)[i] == Message(r);
    }
  }

  /**
   * The messages come in the fixed order age, digits, length, license, name,
   * each at most once: the i-th message is that of the i-th failing rule, and
   * the failing rules are in strictly increasing check order.
   */
  lemma ErrorsInCheckOrder(age: Option<int>, contactNumber: string, license: string, name: string, drivers: seq<Driver>)
    ensures var rules := FailedRules(age, contactNumber, license, name, drivers);
      && DriverErrors(age, contactNumber, license, name, drivers) == Messages(rules)
      && (forall i, j :: 0 <= i < j < |rules| ==> Position(rules[i]) < Position(rules[j]))
  {
  }

  /** An age of 18 is accepted; one of 17, or a missing or non-numeric age, is not. */
  lemma AgeBoundary()
    ensures !AgeRejected(Some(18)) && AgeRejected(Some(17)) && AgeRejected(None)
  {
  }

  /**
   * The two contact rules are independent: the empty string and a string
   * that is neither all digits nor 11 long fail both, eleven digits pass both.
   */
  lemma ContactExamples(age: Option<int>, license: string, name: string, drivers: seq<Driver>)
    ensures var errors := DriverErrors(age, "", license, name, drivers);
      DigitsMessage in errors && LengthMessage in errors
    ensures var errors := DriverErrors(age, "0917-123", license, name, drivers);
      DigitsMessage in errors && LengthMessage in errors
    ensures var errors := DriverErrors(age, "12345678901", license, name, drivers);
      DigitsMessage !in errors && LengthMessage !in errors
  {
    assert !IsDigit("0917-123"[4]);
    assert AllDigits("12345678901");
    ErrorsMatchRules(DigitsRule, age, "", license, name, drivers);
    ErrorsMatchRules(LengthRule, age, "", license, name, drivers);
    ErrorsMatchRules(DigitsRule, age, "0917-123", license, name, drivers);
    ErrorsMatchRules(LengthRule, age, "0917-123", license, name, drivers);
    ErrorsMatchRules(DigitsRule, age, "12345678901", license, name, drivers);
    ErrorsMatchRules(LengthRule, age, "12345678901", license, name, drivers);
  }

  /** Disabled drivers never cause a license or name conflict. */
  lemma DisabledDriversIgnored(drivers: seq<Driver>, d: Driver, license: string, name: string)
    requires !d.enabled
    ensures LicenseTaken(drivers + [d], license) == LicenseTaken(drivers, license)
    ensures NameTaken(drivers + [d], name) == NameTaken(drivers, name)
  {
    var all := drivers + [d];
    if LicenseTaken(all, license) {
      var i :| 0 <= i < |all| && all[i].enabled && all[i].licenseNumber == license;
      assert drivers[i] == all[i];
    }
    if NameTaken(all, name) {
      var i :| 0 <= i < |all| && all[i].enabled && Lower(all[i].name) == Lower(name);
      assert drivers[i] == all[i];
    }
    if LicenseTaken(drivers, license) {
      var i :| 0 <= i < |drivers| && drivers[i].enabled && drivers[i].licenseNumber == license;
      assert all[i] == drivers[i];
    }
    if NameTaken(drivers, name) {
      var i :| 0 <= i < |drivers| && drivers[i].enabled && Lower(drivers[i].name) == Lower(name);
      assert all[i] == drivers[i];
    }
  }

  /**
   * The name check ignores case and the license check does not: against an
   * enabled "John Smith" with license "N01-23-456789", the name "JOHN SMITH"
   * conflicts and the license "n01-23-456789" does not.
   */
  lemma CaseExamples()
    ensures var drivers := [Driver(1, "John Smith", 30, "Male", "09171234567", "N01-23-456789", true)];
      NameTaken(drivers, "JOHN SMITH") && !LicenseTaken(drivers, "n01-23-456789")
        && LicenseTaken(drivers, "N01-23-456789")
  {
    var drivers := [Driver(1, "John Smith", 30, "Male", "09171234567", "N01-23-456789", true)];
    assert Lower(drivers[0].name) == Lower("JOHN SMITH");
    assert "N01-23-456789"[0] != "n01-23-456789"[0];
  }

  /** Whether a name is taken does not depend on the case the request spells it in. */
  lemma NameCaseIrrelevant(drivers: seq<Driver>, name: string)
    ensures NameTaken(drivers, Lower(name)) == NameTaken(drivers, name)
  {
    LowerIdempotent(name);
  }

  /** The 400 message splits back on newlines into exactly the collected messages. */
  lemma MessageSplitsBack(age: Option<int>, contactNumber: string, license: string, name: string, drivers: seq<Driver>)
    requires DriverErrors(age, contactNumber, license, name, drivers) != []
    ensures var errors := DriverErrors(age, contactNumber, license, name, drivers);
      Split(Join(errors, "\n"), '\n') == errors
  {
    var errors := DriverErrors(age, contactNumber, license, name, drivers);
    var rules := FailedRules(age, contactNumber, license, name, drivers);
    forall k | 0 <= k < |errors|
      ensures '\n' !in errors[k]
    {
      MessageSingleLine(rules[k]);
    }
    SplitJoin(errors, '\n');
  }

  /**
   * When the checks themselves run without an error and some rule fails, the
   * answer is 400 with every message joined by newlines, and nothing commits.
   */
  lemma InvalidRequestRejected(req: DriverRequest, drivers: seq<Driver>, faults: Faults)
    requires req.contactNumber.Some?
    requires Begin !in faults && LicenseCheck !in faults && NameCheck !in faults && ValidationRollback !in faults
    requires DriverErrors(req.age, req.contactNumber.value, req.licenseNumber, req.name, drivers) != []
    ensures DriverResponse(req, drivers, faults) ==
      Response(400, false, Some(Join(DriverErrors(req.age, req.contactNumber.value, req.licenseNumber, req.name, drivers), "\n")), None)
    ensures !Commits(req, drivers, faults)
  {
  }

  /** With no database error, a request with a contact number succeeds exactly when no rule fails. */
  lemma ValidRequestAccepted(req: DriverRequest, drivers: seq<Driver>)
    requires req.contactNumber.Some?
    ensures var errors := DriverErrors(req.age, req.contactNumber.value, req.licenseNumber, req.name, drivers);
      && (Commits(req, drivers, map[]) <==> errors == [])
      && (errors == [] ==> DriverResponse(req, drivers, map[]) == Response(200, true, None, None))
  {
  }

  /** A missing contact number always ends in 500: the TypeError has no code. */
  lemma MissingContactFails(req: DriverRequest, drivers: seq<Driver>, faults: Faults)
    requires req.contactNumber.None? && Begin !in faults
    ensures DriverResponse(req, drivers, faults) == Response(500, false, Some(FailureMessage), None)
    ensures !Commits(req, drivers, faults)
  {
  }

  /**
   * Only a commit gives 200; every answer is 200, 400 or 500, and `success`
   * is true exactly for 200.
   */
  lemma StatusReflectsCommit(req: DriverRequest, drivers: seq<Driver>, faults: Faults)
    ensures var r := DriverResponse(req, drivers, faults);
      && (r.status == 200 <==> Commits(req, drivers, faults))
      && (r.success <==> r.status == 200)
      && r.status in {200, 400, 500}
      && r.facility.None?
      && (r.status == 200 <==> r.message.None?)
  {
  }

  /**
   * An error thrown inside the `try` block (a race that trips the unique
   * constraint, or any other failure) never commits, and is answered by the
   * `catch` block according to its code.
   */
  lemma ThrownErrorMapped(req: DriverRequest, drivers: seq<Driver>, faults: Faults)
    requires TryOutcome(req, drivers, faults).Threw?
    ensures !Commits(req, drivers, faults)
    ensures DriverResponse(req, drivers, faults) == CatchResponse(TryOutcome(req, drivers, faults).code)
  {
  }

  /**
   * A valid request whose driver insert trips the unique constraint (another
   * request inserted the same name or license after the checks) gets 400.
   */
  lemma RaceOnInsertRejected(req: DriverRequest, drivers: seq<Driver>)
    requires req.contactNumber.Some?
    requires DriverErrors(req.age, req.contactNumber.value, req.licenseNumber, req.name, drivers) == []
    ensures var faults := map[InsertDriver := UniqueViolation];
      DriverResponse(req, drivers, faults) == Response(400, false, Some(ConstraintMessage), None)
        && !Commits(req, drivers, faults)
  {
  }

  /**
   * A commit adds exactly one enabled driver with the request's fields and a
   * fresh id, and exactly one enabled link per drivable vehicle, in order,
   * all naming that id; no link when the list is absent or empty.
   */
  lemma CommitAddsDriverAndLinks(pre: Tables, req: DriverRequest)
    requires req.age.Some? && req.contactNumber.Some?
    ensures var post := Committed(pre, req);
      var id := post.drivers[|pre.drivers|].id;
      && |post.drivers| == |pre.drivers| + 1
      && post.drivers[..|pre.drivers|] == pre.drivers
      && post.drivers[|pre.drivers|] == Driver(id, req.name, req.age.value, req.gender,
                                               req.contactNumber.value, req.licenseNumber, true)
      && (forall k :: 0 <= k < |pre.drivers| ==> pre.drivers[k].id != id)
      && |post.driverVehicles| == |pre.driverVehicles| + |Vehicles(req)|
      && post.driverVehicles[..|pre.driverVehicles|] == pre.driverVehicles
      && (forall k :: 0 <= k < |Vehicles(req)| ==>
            post.driverVehicles[|pre.driverVehicles| + k] == DriverVehicle(id, Vehicles(req)[k], true))
      && (req.drivableVehicles in {None, Some([])} ==> post.driverVehicles == pre.driverVehicles)
      && post.facilities == pre.facilities
  {
    var post := Committed(pre, req);
    var id := FreshId(DriverIds(pre.drivers));
    assert forall k :: 0 <= k < |pre.drivers| ==> DriverIds(pre.drivers)[k] == pre.drivers[k].id;
  }

  /** No two enabled drivers share a license number or a case-insensitive name. */
  ghost predicate DriversUnique(drivers: seq<Driver>) {
    forall i, j :: 0 <= i < |drivers| && 0 <= j < |drivers| && i != j && drivers[i].enabled && drivers[j].enabled ==>
      drivers[i].licenseNumber != drivers[j].licenseNumber && Lower(drivers[i].name) != Lower(drivers[j].name)
  }

  /** The handler keeps enabled drivers unique, whatever the request and the failures. */
  lemma CreateKeepsDriversUnique(pre: Tables, req: DriverRequest, faults: Faults)
    requires DriversUnique(pre.drivers)
    ensures Commits(req, pre.drivers, faults) ==> DriversUnique(Committed(pre, req).drivers)
  {
    if Commits(req, pre.drivers, faults) {
      var errors := DriverErrors(req.age, req.contactNumber.value, req.licenseNumber, req.name, pre.drivers);
      assert errors == [];
      var post := Committed(pre, req).drivers;
      var n := |pre.drivers|;
      forall i, j | 0 <= i < |post| && 0 <= j < |post| && i != j && post[i].enabled && post[j].enabled
        ensures post[i].licenseNumber != post[j].licenseNumber && Lower(post[i].name) != Lower(post[j].name)
      {
        if i == n {
          assert post[j] == pre.drivers[j];
        } else if j == n {
          assert post[i] == pre.drivers[i];
        } else {
          assert post[i] == pre.drivers[i] && post[j] == pre.drivers[j];
        }
      }
    }
  }

  // ---- The handler ----

  /**
   * Lines 26-40: the rules on the input alone. Reading the length of an
   * absent contact number throws, which leaves no list of messages.
   */
  method CheckInput(age: Option<int>, contactNumber: Option<string>) returns (errors: Option<seq<string>>)
    ensures contactNumber.None? <==> errors.None?
    ensures errors.Some? ==> errors.value == Messages(InputRules(age, contactNumber.value))
  {
    var collected: seq<string> := [];
    if AgeRejected(age) {
      collected := collected + [Message(AgeRule)];
    }
    ghost var failed: seq<Rule> := if AgeRejected(age) then [AgeRule] else [];
    assert collected == Messages(failed);
    if contactNumber.None? {
      return None;
    }
    var contact := contactNumber.value;
    if !AllDigits(contact) {
      MessagesPush(failed, DigitsRule);
      collected := collected + [Message(DigitsRule)];
    }
    failed := failed + (if !AllDigits(contact) then [DigitsRule] else []);
    assert collected == Messages(failed);
    if |contact| != 11 {
      MessagesPush(failed, LengthRule);
      collected := collected + [Message(LengthRule)];
    }
    failed := failed + (if |contact| != 11 then [LengthRule] else []);
    assert collected == Messages(failed);
    return Some(collected);
  }

  /**
   * Lines 26-63: the rules are checked in order and every failure is pushed
   * onto `errors`. Only queries run here, so no table changes.
   */
  method CheckRequest(db: Database, req: DriverRequest, faults: Faults) returns (checked: Checked)
    ensures checked == CheckOutcome(req, db.drivers, faults)
  {
    var input := CheckInput(req.age, req.contactNumber);
    if input.None? {
      return CheckThrew(None);
    }
    var errors := input.value;
    ghost var failed := InputRules(req.age, req.contactNumber.value);

    if LicenseCheck in faults {
      return CheckThrew(Some(faults[LicenseCheck]));
    }
    var licenseRows := LicenseQuery(db.drivers, req.licenseNumber);
    LicenseQueryFinds(db.drivers, req.licenseNumber);
    if |licenseRows| > 0 {
      MessagesPush(failed, LicenseRule);
      errors := errors + [Message(LicenseRule)];
    }
    failed := failed + (if LicenseTaken(db.drivers, req.licenseNumber) then [LicenseRule] else []);
    assert errors == Messages(failed);

    if NameCheck in faults {
      return CheckThrew(Some(faults[NameCheck]));
    }
    var nameRows := NameQuery(db.drivers, req.name);
    NameQueryFinds(db.drivers, req.name);
    if |nameRows| > 0 {
      MessagesPush(failed, NameRule);
      errors := errors + [Message(NameRule)];
    }
    failed := failed + (if NameTaken(db.drivers, req.name) then [NameRule] else []);
    assert errors == Messages(failed);
    return CheckDone(errors);
  }

  /** Lines 75-104: insert the driver, then its links when there are vehicles, then commit. */
  method InsertAndCommit(client: Connection, req: DriverRequest, faults: Faults) returns (flow: Flow)
    requires req.age.Some? && req.contactNumber.Some?
    requires client.transaction.Some?
    modifies client, client.db
    ensures flow == InsertOutcome(req, faults)
    ensures client.released == old(client.released)
    ensures flow.Returned? ==> client.transaction.None? && client.db.State() == Committed(old(client.db.State()), req)
    ensures flow.Threw? ==> client.transaction == old(client.transaction)
  {
    var db := client.db;
    if InsertDriver in faults {
      return Threw(Some(faults[InsertDriver]));
    }
    var driverId := db.InsertDriver(req.name, req.age.value, req.gender, req.contactNumber.value, req.licenseNumber);

    var vehicles := Vehicles(req);
    if |vehicles| > 0 {
      var values := ValuesList(vehicles);
      if InsertVehicles in faults {
        return Threw(Some(faults[InsertVehicles]));
      }
      BindsEveryVehicle(driverId, vehicles);
      db.InsertDriverVehicles(values, [driverId] + vehicles);
    }

    if Commit in faults {
      return Threw(Some(faults[Commit]));
    }
    client.Commit();
    return Returned(Response(200, true, None, None));
  }

  /** The `try` block (lines 23-104). */
  method TryBody(client: Connection, req: DriverRequest, faults: Faults) returns (flow: Flow)
    requires client.transaction.None? && !client.released
    modifies client, client.db
    ensures flow == TryOutcome(req, old(client.db.drivers), faults)
    ensures !client.released
    ensures flow.Returned? ==> client.transaction.None?
    ensures flow.Returned? ==> (client.db.State() ==
      if Commits(req, old(client.db.drivers), faults) then Committed(old(client.db.State()), req) else old(client.db.State()))
    ensures flow.Threw? ==>
      if client.transaction.Some? then client.transaction.value == old(client.db.State())
      else client.db.State() == old(client.db.State())
  {
    if Begin in faults {
      return Threw(Some(faults[Begin]));
    }
    client.Begin();
    var checked := CheckRequest(client.db, req, faults);
    match checked {
      case CheckThrew(code) =>
        return Threw(code);
      case CheckDone(errors) =>
        if |errors| > 0 {
          if ValidationRollback in faults {
            return Threw(Some(faults[ValidationRollback]));
          }
          client.Rollback();
          return Returned(Response(400, false, Some(Join(errors, "\n")), None));
        }
        flow := InsertAndCommit(client, req, faults);
    }
  }

  /**
   * The whole handler: check out a client, run the `try` block, on an error
   * roll back and map it to a response, and release the client in `finally`.
   */
  method HandleCreateDriver(db: Database, req: DriverRequest, faults: Faults) returns (resp: Response, client: Connection)
    modifies db
    ensures fresh(client) && client.db == db
    ensures client.released && client.transaction.None?
    ensures resp == DriverResponse(req, old(db.drivers), faults)
    ensures db.State() ==
      if Commits(req, old(db.drivers), faults) then Committed(old(db.State()), req) else old(db.State())
  {
    client := new Connection(db);
    var flow := TryBody(client, req, faults);
    match flow {
      case Returned(r) =>
        resp := r;
      case Threw(code) =>
        client.Rollback();
        resp := CatchResponse(code);
    }
    client.Release();
  }
}
