/** BookingSerializer: the field rules of class_id, client_name and
    client_email, validate(), and create(), which together allocate one slot of
    a fitness class to a client. `Allocate` is the whole request as a function
    of the store; `Book` performs it step by step on the database object. */
module Serializers {
  import opened Wrappers
  import opened Seqs
  import opened Models
  import opened Orm

  /** A text field of the request body: absent, JSON null, or a string. */
  datatype TextInput = Absent | NullText | Text(value: string)

  /** The class_id field of the request body: absent, JSON null, a value that
      is not an integer, an integer (a JSON integer, or a float whose str() is
      plain decimal), or a string together with what int() makes of it (None
      when it is not an integer's text). */
  datatype IntegerInput =
    | AbsentInteger
    | NullInteger
    | NotAnInteger
    | Integer(value: int)
    | IntegerText(text: string, parsed: Option<int>)

  /** The request fields, in the order of Meta.fields. */
  datatype Field = ClassIdField | ClientNameField | ClientEmailField

  /** A field's position in Meta.fields: errors are reported in this order. */
  function FieldOrder(f: Field): nat {
    match f
    case ClassIdField => 0
    case ClientNameField => 1
    case ClientEmailField => 2
  }

  datatype BookingRequest = BookingRequest(
    classId: IntegerInput,
    clientName: TextInput,
    clientEmail: TextInput)

  /** The fields after field-level validation (text fields are stripped). */
  datatype BookingData = BookingData(classId: int, clientName: string, clientEmail: string)

  datatype FieldError = FieldError(field: Field, message: string)

  datatype BookingError =
    | InvalidFields(errors: seq<FieldError>)  // field-level errors, in field order
    | ClassIdRequired                         // validate(): falsy class_id
    | ClassNotFound                           // validate(): no such FitnessClass
    | NoSlots                                 // validate(): available_slots <= 0

  const ClassIdRequiredMessage := "class_id is required."
  const ClassIdInvalidMessage := "class_id must be a valid integer."
  const RequiredMessage := "This field is required."
  const NullMessage := "This field may not be null."
  const NullCharactersMessage := "Null characters are not allowed."
  const TooLargeMessage := "String value too large."

  /** IntegerField refuses a string input longer than this before parsing it. */
  const MaxIntegerStringLength := 1000
  const NameBlankMessage := "client_name cannot be blank."
  const EmailBlankMessage := "client_email cannot be blank."
  const ClassNotFoundMessage := "Fitness class does not exist."
  const NoSlotsMessage := "No slots available."

  /** The messages the response carries for an error. */
  function Messages(e: BookingError): (r: seq<string>)
    ensures e.InvalidFields? ==> |r| == |e.errors| && forall i :: 0 <= i < |r| ==> r[i] == e.errors[i].message
    ensures e == ClassIdRequired ==> r == [ClassIdRequiredMessage]
    ensures e == ClassNotFound ==> r == [ClassNotFoundMessage]
    ensures e == NoSlots ==> r == [NoSlotsMessage]
  {
    match e
    case InvalidFields(errors) => FieldMessages(errors)
    case ClassIdRequired => [ClassIdRequiredMessage]
    case ClassNotFound => [ClassNotFoundMessage]
    case NoSlots => [NoSlotsMessage]
  }

  function FieldMessages(errors: seq<FieldError>): (r: seq<string>)
    ensures |r| == |errors| && forall i :: 0 <= i < |r| ==> r[i] == errors[i].message
  {
    if errors == [] then [] else [errors[0].message] + FieldMessages(errors[1..])
  }

  /** The characters Python's str.isspace accepts, which str.strip removes. */
  predicate IsSpace(c: char) {
    || c == ' ' || '\t' <= c <= '\r' || '\U{1c}' <= c <= '\U{1f}'
    || c == '\U{85}' || c == '\U{a0}' || c == '\U{1680}' || '\U{2000}' <= c <= '\U{200a}'
    || c == '\U{2028}' || c == '\U{2029}' || c == '\U{202f}' || c == '\U{205f}' || c == '\U{3000}'
  }

  function TrimStart(s: string): (r: string)
    ensures |r| <= |s| && r == s[|s| - |r|..]
    ensures forall k :: 0 <= k < |s| - |r| ==> IsSpace(s[k])
    ensures r == [] || !IsSpace(r[0])
  {
    if s != [] && IsSpace(s[0]) then TrimStart(s[1..]) else s
  }

  function TrimEnd(s: string): (r: string)
    ensures |r| <= |s| && r == s[..|r|]
    ensures forall k :: |r| <= k < |s| ==> IsSpace(s[k])
    ensures r == [] || !IsSpace(r[|r| - 1])
  {
    if s != [] && IsSpace(s[|s| - 1]) then TrimEnd(s[..|s| - 1]) else s
  }

  /** str.strip(): the text between the leading and the trailing white space. */
  function Trim(s: string): (r: string)
    ensures r == [] <==> forall k :: 0 <= k < |s| ==> IsSpace(s[k])
    ensures r != [] ==> !IsSpace(r[0]) && !IsSpace(r[|r| - 1])
  {
    var t := TrimStart(s);
    var r := TrimEnd(t);
    assert r == s[|s| - |t|..][..|r|];
    assert r == [] ==> forall k :: 0 <= k < |s| ==> IsSpace(s[k]) by {
      if r == [] {
        forall k | |s| - |t| <= k < |s| ensures IsSpace(s[k]) {
          assert s[k] == t[k - (|s| - |t|)];
        }
      }
    }
    r
  }

  /** The stripped text is a slice of the input with only white space before
      and after it. */
  lemma TrimIsSlice(s: string)
    ensures var r := Trim(s);
      exists i :: (0 <= i <= |s| - |r| && r == s[i..][..|r|] &&
        (forall k :: 0 <= k < i ==> IsSpace(s[k])) && (forall k :: i + |r| <= k < |s| ==> IsSpace(s[k])))
  {
    var t := TrimStart(s);
    var r := TrimEnd(t);
    assert Trim(s) == r;
    var i := |s| - |t|;
    assert r == s[i..][..|r|];
    assert forall k :: 0 <= k < i ==> IsSpace(s[k]);
    assert forall k :: i + |r| <= k < |s| ==> IsSpace(s[k]) by {
      forall k | i + |r| <= k < |s| ensures IsSpace(s[k]) {
        assert s[k] == t[k - i];
      }
    }
  }

  /** A NUL character is not white space, so stripping keeps every one. */
  lemma TrimKeepsNul(v: string)
    ensures '\0' in Trim(v) <==> '\0' in v
  {
    var t := TrimStart(v);
    var r := TrimEnd(t);
    assert Trim(v) == r;
    assert r == t[..|r|] && t == v[|v| - |t|..];
    if '\0' in v {
      var k :| 0 <= k < |v| && v[k] == '\0';
      assert !IsSpace(v[k]);
      assert t[k - (|v| - |t|)] == '\0';
      assert r[k - (|v| - |t|)] == '\0';
    }
  }

  /** A CharField with allow_blank=False, allow_null=False and
      trim_whitespace: absent is "required", null is "may not be null", blank
      (empty after stripping) is the field's blank message, a NUL character is
      refused by the validator every CharField carries, and anything else is
      accepted stripped. */
  function CheckText(field: Field, blankMessage: string, input: TextInput): (r: Result<string, FieldError>)
    ensures r.Failure? ==> r.error.field == field
    ensures input.Absent? ==> r == Failure(FieldError(field, RequiredMessage))
    ensures input.NullText? ==> r == Failure(FieldError(field, NullMessage))
    ensures input.Text? ==> (r.Success? <==> Trim(input.value) != [] && '\0' !in input.value)
    ensures input.Text? && Trim(input.value) == [] ==> r == Failure(FieldError(field, blankMessage))
    ensures input.Text? && Trim(input.value) != [] && '\0' in input.value ==>
      r == Failure(FieldError(field, NullCharactersMessage))
    ensures r.Success? ==> r.value == Trim(input.value) && r.value != [] && '\0' !in r.value
  {
    match input
    case Absent => Failure(FieldError(field, RequiredMessage))
    case NullText => Failure(FieldError(field, NullMessage))
    case Text(v) =>
      TrimKeepsNul(v);
      var t := Trim(v);
      if t == [] then Failure(FieldError(field, blankMessage))
      else if '\0' in t then Failure(FieldError(field, NullCharactersMessage))
      else Success(t)
  }

  /** The IntegerField class_id with its custom messages for "required" and
      "invalid": null and an over-long string keep DRF's own messages. */
  function CheckClassId(input: IntegerInput): (r: Result<int, FieldError>)
    ensures r.Failure? ==> r.error.field == ClassIdField
    ensures r.Success? <==>
      input.Integer? || (input.IntegerText? && |input.text| <= MaxIntegerStringLength && input.parsed.Some?)
    ensures input.Integer? ==> r == Success(input.value)
    ensures input.IntegerText? && r.Success? ==> r.value == input.parsed.value
    ensures input.AbsentInteger? ==> r.error.message == ClassIdRequiredMessage
    ensures input.NullInteger? ==> r.error.message == NullMessage
    ensures input.IntegerText? && |input.text| > MaxIntegerStringLength ==> r.error.message == TooLargeMessage
    ensures input.NotAnInteger? || (input.IntegerText? && |input.text| <= MaxIntegerStringLength && input.parsed.None?)
      ==> r.error.message == ClassIdInvalidMessage
  {
    match input
    case AbsentInteger => Failure(FieldError(ClassIdField, ClassIdRequiredMessage))
    case NullInteger => Failure(FieldError(ClassIdField, NullMessage))
    case NotAnInteger => Failure(FieldError(ClassIdField, ClassIdInvalidMessage))
    case Integer(v) => Success(v)
    case IntegerText(text, parsed) =>
      if |text| > MaxIntegerStringLength then Failure(FieldError(ClassIdField, TooLargeMessage))
      else if parsed.None? then Failure(FieldError(ClassIdField, ClassIdInvalidMessage))
      else Success(parsed.value)
  }

  function ErrorOf<T>(r: Result<T, FieldError>): seq<FieldError> {
    if r.Failure? then [r.error] else []
  }

  /** The errors of three field results, concatenated in field order: each
      failing field's error once, ordered by FieldOrder. */
  lemma ErrorsInFieldOrder<A, B, C>(x: Result<A, FieldError>, y: Result<B, FieldError>, z: Result<C, FieldError>)
    requires x.Failure? ==> x.error.field == ClassIdField
    requires y.Failure? ==> y.error.field == ClientNameField
    requires z.Failure? ==> z.error.field == ClientEmailField
    ensures var all := ErrorOf(x) + ErrorOf(y) + ErrorOf(z);
      && (forall e :: e in all <==>
           (x.Failure? && e == x.error) || (y.Failure? && e == y.error) || (z.Failure? && e == z.error))
      && (forall i, j :: 0 <= i < j < |all| ==> FieldOrder(all[i].field) < FieldOrder(all[j].field))
  {
    var a, b, c := ErrorOf(x), ErrorOf(y), ErrorOf(z);
    var all := a + b + c;
    forall i, j | 0 <= i < j < |all| ensures FieldOrder(all[i].field) < FieldOrder(all[j].field) {
      if i < |a| {
        assert all[i] == a[i];
      } else {
        assert all[i] == b[i - |a|];
      }
      if j < |a| + |b| {
        assert all[j] == b[j - |a|];
      } else {
        assert all[j] == c[j - |a| - |b|];
      }
    }
  }

  /** Field-level validation: every field is checked, and the request passes
      exactly when all three do, with the stripped texts; otherwise it is
      refused with the failing fields' errors (CheckFieldsReportsEach). */
  function CheckFields(req: BookingRequest): (r: Result<BookingData, seq<FieldError>>)
    ensures r.Success? <==>
      CheckClassId(req.classId).Success? &&
      CheckText(ClientNameField, NameBlankMessage, req.clientName).Success? &&
      CheckText(ClientEmailField, EmailBlankMessage, req.clientEmail).Success?
    ensures r.Success? ==> r.value == BookingData(
      CheckClassId(req.classId).value, Trim(req.clientName.value), Trim(req.clientEmail.value))
    ensures r.Failure? ==> r.error != []
  {
    var errors := FieldErrors(req);
    if errors == [] then
      Success(BookingData(CheckClassId(req.classId).value,
        CheckText(ClientNameField, NameBlankMessage, req.clientName).value,
        CheckText(ClientEmailField, EmailBlankMessage, req.clientEmail).value))
    else Failure(errors)
  }

  /** One error per failing field, in the order of Meta.fields. */
  function FieldErrors(req: BookingRequest): seq<FieldError> {
    ErrorOf(CheckClassId(req.classId)) +
    ErrorOf(CheckText(ClientNameField, NameBlankMessage, req.clientName)) +
    ErrorOf(CheckText(ClientEmailField, EmailBlankMessage, req.clientEmail))
  }

  /** A refused request carries exactly the errors of its failing fields,
      each once, in the order of Meta.fields. */
  lemma CheckFieldsReportsEach(req: BookingRequest)
    requires CheckFields(req).Failure?
    ensures var errors, id, name, email := CheckFields(req).error, CheckClassId(req.classId),
      CheckText(ClientNameField, NameBlankMessage, req.clientName),
      CheckText(ClientEmailField, EmailBlankMessage, req.clientEmail);
      forall e :: e in errors <==>
        (id.Failure? && e == id.error) || (name.Failure? && e == name.error) || (email.Failure? && e == email.error)
    ensures var errors := CheckFields(req).error;
      forall i, j :: 0 <= i < j < |errors| ==> FieldOrder(errors[i].field) < FieldOrder(errors[j].field)
  {
    var id, name, email := CheckClassId(req.classId),
      CheckText(ClientNameField, NameBlankMessage, req.clientName),
      CheckText(ClientEmailField, EmailBlankMessage, req.clientEmail);
    assert CheckFields(req).error == ErrorOf(id) + ErrorOf(name) + ErrorOf(email);
    ErrorsInFieldOrder(id, name, email);
  }

  /** BookingSerializer.validate: a falsy class_id, an unknown class and a
      class without slots are refused, in that order; nothing is written. */
  function Validate(s: Store, data: BookingData): (r: Result<BookingData, BookingError>)
    requires Valid(s)
    ensures r.Success? ==> r.value == data
    ensures r.Failure? ==> r.error.ClassIdRequired? || r.error.ClassNotFound? || r.error.NoSlots?
    ensures r == Failure(ClassIdRequired) <==> data.classId == 0
    ensures r == Failure(ClassNotFound) <==> data.classId != 0 && !HasClass(s.classes, data.classId)
    ensures r == Failure(NoSlots) <==>
      data.classId != 0 && exists c :: c in s.classes && c.id == data.classId && c.availableSlots <= 0
    ensures r.Success? <==>
      data.classId != 0 && exists c :: c in s.classes && c.id == data.classId && c.availableSlots > 0
  {
    if data.classId == 0 then Failure(ClassIdRequired)
    else match ClassIndex(s.classes, data.classId)
      case None => Failure(ClassNotFound)
      case Some(k) =>
        var c := s.classes[k];
        assert c in s.classes;
        assert forall c' :: c' in s.classes && c'.id == data.classId ==> c' == c by {
          forall c' | c' in s.classes && c'.id == data.classId ensures c' == c {
            ClassKeyUnique(s, c, c');
          }
        }
        if c.availableSlots <= 0 then Failure(NoSlots) else Success(data)
  }

  /** The class row that validated data names: in a valid store, the only
      one with that key, and it has a free slot. */
  lemma ValidatedClass(s: Store, data: BookingData)
    requires Valid(s) && Validate(s, data).Success?
    ensures ClassIndex(s.classes, data.classId).Some?
    ensures s.classes[ClassIndex(s.classes, data.classId).value].availableSlots > 0
  {
    var k := ClassIndex(s.classes, data.classId).value;
    var c :| c in s.classes && c.id == data.classId && c.availableSlots > 0;
    ClassKeyUnique(s, c, s.classes[k]);
  }

  /** BookingSerializer.create on validated data: fetch the class, get or
      create the client by email, take one slot from the class and save it,
      insert the booking. */
  function Create(s: Store, data: BookingData): (r: (Store, int))
    requires Valid(s) && Validate(s, data).Success?
    ensures r.1 == s.nextBookingId && r.0.nextBookingId == r.1 + 1
    ensures |r.0.classes| == |s.classes| && |r.0.bookings| == |s.bookings| + 1
  {
    ValidatedClass(s, data);
    var k := ClassIndex(s.classes, data.classId).value;
    var fitnessClass := s.classes[k];
    var (s1, clientId) := AfterGetOrCreateByEmail(s, data.clientEmail, data.clientName);
    var s2 := AfterSaveSlots(s1, k, fitnessClass.availableSlots - 1);
    assert s2.classes[k] in s2.classes;
    AfterCreateBooking(s2, fitnessClass.id, clientId)
  }

  lemma CreateKeepsValid(s: Store, data: BookingData)
    requires Valid(s) && Validate(s, data).Success?
    ensures Valid(Create(s, data).0)
  {
    ValidatedClass(s, data);
    var k := ClassIndex(s.classes, data.classId).value;
    var fitnessClass := s.classes[k];
    GetOrCreateByEmailKeepsValid(s, data.clientEmail, data.clientName);
    var (s1, clientId) := AfterGetOrCreateByEmail(s, data.clientEmail, data.clientName);
    SaveSlotsKeepsValid(s1, k, fitnessClass.availableSlots - 1);
    var s2 := AfterSaveSlots(s1, k, fitnessClass.availableSlots - 1);
    assert s2.classes[k] in s2.classes;
    CreateBookingKeepsValid(s2, fitnessClass.id, clientId);
  }

  /** The booking endpoint as a whole: field checks, validate(), create(). The
      result is the new booking's primary key or the error; on an error the
      store is returned unchanged. */
  function Allocate(s: Store, req: BookingRequest): (r: (Store, Result<int, BookingError>))
    requires Valid(s)
    ensures r.1.Failure? ==> r.0 == s
  {
    match CheckFields(req)
    case Failure(errors) => (s, Failure(InvalidFields(errors)))
    case Success(data) =>
      match Validate(s, data)
      case Failure(e) => (s, Failure(e))
      case Success(_) =>
        var (s', id) := Create(s, data);
        (s', Success(id))
  }

  /** Every request, accepted or refused, leaves the schema's constraints intact. */
  lemma AllocateKeepsValid(s: Store, req: BookingRequest)
    requires Valid(s)
    ensures Valid(Allocate(s, req).0)
  {
    if CheckFields(req).Success? && Validate(s, CheckFields(req).value).Success? {
      CreateKeepsValid(s, CheckFields(req).value);
    }
  }

  /** BookingSerializer.create, on the database in place. */
  method Save(db: Database, data: BookingData) returns (bookingId: int)
    requires Valid(db.State()) && Validate(db.State(), data).Success?
    modifies db
    ensures (db.State(), bookingId) == Create(old(db.State()), data)
  {
    ValidatedClass(db.State(), data);
    var k := ClassIndex(db.classes, data.classId).value;
    var fitnessClass := db.classes[k];
    var clientId, created := db.GetOrCreateClientByEmail(data.clientEmail, data.clientName);
    db.SaveClassSlots(k, fitnessClass.availableSlots - 1);
    assert db.classes[k] in db.classes;
    bookingId := db.CreateBooking(fitnessClass.id, clientId);
  }

  /** BookFitnessClass: the serializer's validate() followed by create(),
      run on the database as one sequential step. */
  method Book(db: Database, req: BookingRequest) returns (r: Result<int, BookingError>)
    requires Valid(db.State())
    modifies db
    ensures Valid(db.State())
    ensures (db.State(), r) == Allocate(old(db.State()), req)
  {
    AllocateKeepsValid(db.State(), req);
    var fields := CheckFields(req);
    if fields.Failure? {
      return Failure(InvalidFields(fields.error));
    }
    var data := fields.value;
    var checked := Validate(db.State(), data);
    if checked.Failure? {
      return Failure(checked.error);
    }
    var bookingId := Save(db, data);
    r := Success(bookingId);
  }

  /** A request is accepted exactly when its fields pass and validate() passes,
      and then Allocate is create() on the validated data. */
  lemma AllocateAccepted(s: Store, req: BookingRequest)
    requires Valid(s) && Allocate(s, req).1.Success?
    ensures CheckFields(req).Success? && Validate(s, CheckFields(req).value).Success?
    ensures Allocate(s, req) == (Create(s, CheckFields(req).value).0, Success(Create(s, CheckFields(req).value).1))
  {
  }

  /** The row of class `id` with one slot fewer; every other row as it is. */
  function SlotTaken(c: FitnessClass, id: int): FitnessClass {
    if c.id == id then c.(availableSlots := c.availableSlots - 1) else c
  }

  /** What create() writes: one class row loses a slot, the client is found
      or appended, one booking row is appended. */
  lemma CreateEffects(s: Store, data: BookingData)
    requires Valid(s) && Validate(s, data).Success?
    ensures var r := Create(s, data);
      && |r.0.classes| == |s.classes|
      && (forall i :: 0 <= i < |s.classes| ==> r.0.classes[i] == SlotTaken(s.classes[i], data.classId))
      && r.1 == s.nextBookingId && r.0.nextBookingId == s.nextBookingId + 1
      && r.0.nextClassId == s.nextClassId
      && (exists c :: c in r.0.clients && c.email == data.clientEmail &&
            r.0.bookings == s.bookings + [Booking(r.1, data.classId, c.id)])
      && ((exists c :: c in s.clients && c.email == data.clientEmail) ==>
            r.0.clients == s.clients && r.0.nextClientId == s.nextClientId)
      && ((forall c :: c in s.clients ==> c.email != data.clientEmail) ==>
            r.0.clients == s.clients + [Client(s.nextClientId, data.clientName, data.clientEmail)] &&
            r.0.nextClientId == s.nextClientId + 1)
  {
    ValidatedClass(s, data);
    var k := ClassIndex(s.classes, data.classId).value;
    forall i | 0 <= i < |s.classes| && s.classes[i].id == data.classId ensures i == k {
      ClassKeyUnique(s, s.classes[i], s.classes[k]);
      if i < k || k < i {
        assert false;
      }
    }
  }

  /** A missing class_id (field rule) and a class_id of 0 (validate()) are
      both refused with "class_id is required.", and nothing is written. */
  lemma AllocateRefusesMissingClassId(s: Store, req: BookingRequest)
    requires Valid(s)
    requires req.classId.AbsentInteger? || (CheckFields(req).Success? && CheckFields(req).value.classId == 0)
    ensures Allocate(s, req).0 == s && Allocate(s, req).1.Failure?
    ensures ClassIdRequiredMessage in Messages(Allocate(s, req).1.error)
  {
    if req.classId.AbsentInteger? {
      var errors := CheckFields(req).error;
      assert errors[0] == FieldError(ClassIdField, ClassIdRequiredMessage);
      assert Messages(InvalidFields(errors))[0] == ClassIdRequiredMessage;
    }
  }

  /** A well-formed request naming no stored class is refused with
      "Fitness class does not exist.", and nothing is written. */
  lemma AllocateRefusesUnknownClass(s: Store, req: BookingRequest)
    requires Valid(s) && CheckFields(req).Success?
    requires CheckFields(req).value.classId != 0 && !HasClass(s.classes, CheckFields(req).value.classId)
    ensures Allocate(s, req) == (s, Failure(ClassNotFound))
  {
    assert Validate(s, CheckFields(req).value) == Failure(ClassNotFound);
  }

  /** A class without a free slot is refused with "No slots available.";
      the store, its bookings and its slot counts included, is unchanged. */
  lemma AllocateRefusesFullClass(s: Store, req: BookingRequest, c: FitnessClass)
    requires Valid(s) && CheckFields(req).Success?
    requires c in s.classes && c.id == CheckFields(req).value.classId && c.availableSlots <= 0
    ensures Allocate(s, req) == (s, Failure(NoSlots))
  {
    assert Validate(s, CheckFields(req).value) == Failure(NoSlots);
  }

  /** A blank client_name or client_email is refused by the field rules, with
      that field's blank message, before any row is looked up: the refusal
      does not depend on the store. */
  lemma AllocateRefusesBlankField(s: Store, req: BookingRequest)
    requires Valid(s)
    requires || (req.clientName.Text? && forall k :: 0 <= k < |req.clientName.value| ==> IsSpace(req.clientName.value[k]))
             || (req.clientEmail.Text? && forall k :: 0 <= k < |req.clientEmail.value| ==> IsSpace(req.clientEmail.value[k]))
    ensures CheckFields(req).Failure?
    ensures Allocate(s, req) == (s, Failure(InvalidFields(CheckFields(req).error)))
    ensures req.clientName.Text? && Trim(req.clientName.value) == [] ==>
      FieldError(ClientNameField, NameBlankMessage) in CheckFields(req).error
    ensures req.clientEmail.Text? && Trim(req.clientEmail.value) == [] ==>
      FieldError(ClientEmailField, EmailBlankMessage) in CheckFields(req).error
  {
  }

  /** A request is accepted exactly when its fields pass, its class_id is not
      0, and the class it names has a free slot. */
  lemma AllocateAcceptsOpenClass(s: Store, req: BookingRequest)
    requires Valid(s)
    ensures Allocate(s, req).1.Success? <==>
      && CheckFields(req).Success?
      && CheckFields(req).value.classId != 0
      && exists c :: c in s.classes && c.id == CheckFields(req).value.classId && c.availableSlots > 0
  {
  }

  /** An accepted booking takes exactly one slot from the class it names and
      leaves every other class as it was. */
  lemma AllocateTakesOneSlot(s: Store, req: BookingRequest)
    requires Valid(s) && Allocate(s, req).1.Success?
    ensures CheckFields(req).Success?
    ensures |Allocate(s, req).0.classes| == |s.classes|
    ensures forall i :: 0 <= i < |s.classes| ==>
      Allocate(s, req).0.classes[i] == SlotTaken(s.classes[i], CheckFields(req).value.classId)
  {
    CreateEffects(s, CheckFields(req).value);
  }

  /** An accepted booking appends exactly one booking row, with the next
      booking key, for the class named and the client holding the email. */
  lemma AllocateAddsOneBooking(s: Store, req: BookingRequest)
    requires Valid(s) && Allocate(s, req).1.Success?
    ensures CheckFields(req).Success?
    ensures var r := Allocate(s, req);
      && r.1.value == s.nextBookingId
      && r.0.nextBookingId == s.nextBookingId + 1
      && exists c :: c in r.0.clients && c.email == CheckFields(req).value.clientEmail &&
           r.0.bookings == s.bookings + [Booking(r.1.value, CheckFields(req).value.classId, c.id)]
  {
    CreateEffects(s, CheckFields(req).value);
  }

  /** An accepted booking reuses the client holding the (stripped) email,
      whose stored name is kept, or appends exactly one client with the
      supplied name when none holds it. */
  lemma AllocateResolvesClient(s: Store, req: BookingRequest)
    requires Valid(s) && Allocate(s, req).1.Success?
    ensures CheckFields(req).Success?
    ensures var email, r := CheckFields(req).value.clientEmail, Allocate(s, req);
      (exists c :: c in s.clients && c.email == email) ==>
        r.0.clients == s.clients && r.0.nextClientId == s.nextClientId
    ensures var data, r := CheckFields(req).value, Allocate(s, req);
      (forall c :: c in s.clients ==> c.email != data.clientEmail) ==>
        r.0.clients == s.clients + [Client(s.nextClientId, data.clientName, data.clientEmail)] &&
        r.0.nextClientId == s.nextClientId + 1
  {
    CreateEffects(s, CheckFields(req).value);
  }

  /** Two accepted bookings with the same email are made for one client: the
      second writes no client row and links the same client key. */
  lemma RepeatedEmailReusesClient(s: Store, req1: BookingRequest, req2: BookingRequest)
    requires Valid(s) && Allocate(s, req1).1.Success?
    requires Valid(Allocate(s, req1).0) && Allocate(Allocate(s, req1).0, req2).1.Success?
    requires CheckFields(req1).Success? && CheckFields(req2).Success?
    requires CheckFields(req1).value.clientEmail == CheckFields(req2).value.clientEmail
    ensures var s1 := Allocate(s, req1).0;
      var s2 := Allocate(s1, req2).0;
      && s2.clients == s1.clients
      && s2.bookings[|s2.bookings| - 1].clientId == s1.bookings[|s1.bookings| - 1].clientId
  {
    var s1 := Allocate(s, req1).0;
    var s2 := Allocate(s1, req2).0;
    AllocateAddsOneBooking(s, req1);
    AllocateAddsOneBooking(s1, req2);
    var email := CheckFields(req1).value.clientEmail;
    var c1 :| c1 in s1.clients && c1.email == email &&
      s1.bookings == s.bookings + [Booking(Allocate(s, req1).1.value, CheckFields(req1).value.classId, c1.id)];
    AllocateResolvesClient(s1, req2);
    var c2 :| c2 in s2.clients && c2.email == email &&
      s2.bookings == s1.bookings + [Booking(Allocate(s1, req2).1.value, CheckFields(req2).value.classId, c2.id)];
    ClientKeysUnique(s1, c1, c2);
  }
}
