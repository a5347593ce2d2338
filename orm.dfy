/** The relational store behind the ORM. The functions give the effect of
    each ORM call the studio code makes (objects.create, objects.get_or_create,
    save()) on a store value, and the lemmas beside them show that each call
    keeps the schema's constraints; class Database holds the tables as fields
    and performs the same calls in place. */
module Orm {
  import opened Wrappers
  import opened Seqs
  import opened Models

  /** The store after a client row with the next primary key is appended. */
  function WithClient(s: Store, name: string, email: string): Store {
    s.(clients := s.clients + [Client(s.nextClientId, name, email)],
       nextClientId := s.nextClientId + 1)
  }

  /** Client.objects.create: a new row with the next primary key, or an
      integrity error (None, nothing written) when the email is taken. */
  function AfterCreateClient(s: Store, name: string, email: string): (r: (Store, Option<int>))
    ensures r.1.None? <==> exists c :: c in s.clients && c.email == email
    ensures r.1.None? ==> r.0 == s
    ensures r.1.Some? ==> r.1.value == s.nextClientId && r.0 == WithClient(s, name, email)
  {
    match ClientIndexByEmail(s.clients, email)
    case Some(i) =>
      assert s.clients[i] in s.clients;
      (s, None)
    case None => (WithClient(s, name, email), Some(s.nextClientId))
  }

  lemma CreateClientKeepsValid(s: Store, name: string, email: string)
    requires Valid(s)
    ensures Valid(AfterCreateClient(s, name, email).0)
  {
    if AfterCreateClient(s, name, email).1.Some? {
      var c := Client(s.nextClientId, name, email);
      IncreasingAppend(s.clients, c, ClientKey);
      DistinctAppend(s.clients, c, ClientEmail);
    }
  }

  /** Client.objects.get_or_create(email=email, defaults={"name": name}): the
      key of the client holding the email, whose row is left as it is, or of a
      new client created with `name`. */
  function AfterGetOrCreateByEmail(s: Store, email: string, name: string): (r: (Store, int))
    ensures r.0.classes == s.classes && r.0.bookings == s.bookings
    ensures r.0.nextClassId == s.nextClassId && r.0.nextBookingId == s.nextBookingId
    ensures exists c :: c in r.0.clients && c.id == r.1 && c.email == email
    ensures (exists c :: c in s.clients && c.email == email) ==>
      r.0 == s && exists c :: c in s.clients && c.email == email && c.id == r.1
    ensures (forall c :: c in s.clients ==> c.email != email) ==>
      r == (WithClient(s, name, email), s.nextClientId)
  {
    match ClientIndexByEmail(s.clients, email)
    case Some(i) =>
      assert s.clients[i] in s.clients;
      (s, s.clients[i].id)
    case None =>
      var s' := WithClient(s, name, email);
      assert s'.clients[|s.clients|] in s'.clients;
      (s', s.nextClientId)
  }

  lemma GetOrCreateByEmailKeepsValid(s: Store, email: string, name: string)
    requires Valid(s)
    ensures Valid(AfterGetOrCreateByEmail(s, email, name).0)
  {
    CreateClientKeepsValid(s, name, email);
  }

  /** Client.objects.get_or_create(name=name, email=email): both fields are
      the lookup. A client with both is reused; otherwise a row is inserted,
      which fails (None) when another client already holds the email. */
  function AfterGetOrCreate(s: Store, name: string, email: string): (r: (Store, Option<int>))
    requires Valid(s)
    ensures r.1.Some? ==> Client(r.1.value, name, email) in r.0.clients
    ensures r.1.None? <==> exists c :: c in s.clients && c.email == email && c.name != name
    ensures r.1.None? || Client(r.1.value, name, email) in s.clients ==> r.0 == s
    ensures r.1.Some? && Client(r.1.value, name, email) !in s.clients ==>
      r.1.value == s.nextClientId && r.0 == WithClient(s, name, email)
  {
    match IndexWhere(s.clients, (c: Client) => c.name == name && c.email == email)
    case Some(i) =>
      var c := s.clients[i];
      assert c in s.clients;
      forall c' | c' in s.clients && c'.email == email ensures c'.name == name {
        ClientKeysUnique(s, c, c');
      }
      (s, Some(c.id))
    case None =>
      assert Client(s.nextClientId, name, email) !in s.clients;
      var r := AfterCreateClient(s, name, email);
      assert r.1.Some? ==> r.0.clients[|s.clients|] in r.0.clients;
      r
  }

  lemma GetOrCreateKeepsValid(s: Store, name: string, email: string)
    requires Valid(s)
    ensures Valid(AfterGetOrCreate(s, name, email).0)
  {
    CreateClientKeepsValid(s, name, email);
  }

  /** FitnessClass.objects.create. PositiveIntegerField makes the database
      refuse a negative slot count. */
  function AfterCreateClass(s: Store, className: ClassType, instructor: string,
                            availableSlots: int, startTime: int): (r: (Store, int))
    requires availableSlots >= 0
    ensures r.1 == s.nextClassId && r.0.nextClassId == r.1 + 1
    ensures r.0.classes == s.classes + [FitnessClass(r.1, className, instructor, availableSlots, startTime)]
    ensures r.0.clients == s.clients && r.0.bookings == s.bookings
    ensures r.0.nextClientId == s.nextClientId && r.0.nextBookingId == s.nextBookingId
  {
    (s.(classes := s.classes + [FitnessClass(s.nextClassId, className, instructor, availableSlots, startTime)],
        nextClassId := s.nextClassId + 1),
     s.nextClassId)
  }

  lemma CreateClassKeepsValid(s: Store, className: ClassType, instructor: string,
                              availableSlots: int, startTime: int)
    requires Valid(s) && availableSlots >= 0
    ensures Valid(AfterCreateClass(s, className, instructor, availableSlots, startTime).0)
  {
    var c := FitnessClass(s.nextClassId, className, instructor, availableSlots, startTime);
    IncreasingAppend(s.classes, c, ClassKey);
  }

  /** fitness_class.save() after its available_slots was set: the one row at
      position k is rewritten, and it must stay non-negative. */
  function AfterSaveSlots(s: Store, k: nat, availableSlots: int): (r: Store)
    requires k < |s.classes| && availableSlots >= 0
    ensures |r.classes| == |s.classes| && r.classes[k].id == s.classes[k].id
  {
    s.(classes := s.classes[k := s.classes[k].(availableSlots := availableSlots)])
  }

  lemma SaveSlotsKeepsValid(s: Store, k: nat, availableSlots: int)
    requires Valid(s) && k < |s.classes| && availableSlots >= 0
    ensures Valid(AfterSaveSlots(s, k, availableSlots))
  {
    var c := s.classes[k].(availableSlots := availableSlots);
    var r := AfterSaveSlots(s, k, availableSlots);
    IncreasingUpdate(s.classes, k, c, ClassKey);
    forall b | b in r.bookings ensures HasClass(r.classes, b.classId) {
      var w :| w in s.classes && w.id == b.classId;
      var j :| 0 <= j < |s.classes| && s.classes[j] == w;
      assert r.classes[j] in r.classes && r.classes[j].id == w.id;
    }
  }

  /** Booking.objects.create: both foreign keys must name stored rows. */
  function AfterCreateBooking(s: Store, classId: int, clientId: int): (r: (Store, int))
    requires HasClass(s.classes, classId) && HasClient(s.clients, clientId)
    ensures r.1 == s.nextBookingId && r.0.nextBookingId == r.1 + 1
    ensures r.0.bookings == s.bookings + [Booking(r.1, classId, clientId)]
    ensures r.0.clients == s.clients && r.0.classes == s.classes
    ensures r.0.nextClientId == s.nextClientId && r.0.nextClassId == s.nextClassId
  {
    (s.(bookings := s.bookings + [Booking(s.nextBookingId, classId, clientId)],
        nextBookingId := s.nextBookingId + 1),
     s.nextBookingId)
  }

  lemma CreateBookingKeepsValid(s: Store, classId: int, clientId: int)
    requires Valid(s) && HasClass(s.classes, classId) && HasClient(s.clients, clientId)
    ensures Valid(AfterCreateBooking(s, classId, clientId).0)
  {
    IncreasingAppend(s.bookings, Booking(s.nextBookingId, classId, clientId), BookingKey);
  }

  class Database {
    var clients: seq<Client>
    var classes: seq<FitnessClass>
    var bookings: seq<Booking>
    var nextClientId: int
    var nextClassId: int
    var nextBookingId: int

    /** The current content of the store as a value. */
    function State(): Store
      reads this
    {
      Store(clients, classes, bookings, nextClientId, nextClassId, nextBookingId)
    }

    constructor ()
      ensures State() == EmptyStore()
    {
      clients, classes, bookings := [], [], [];
      nextClientId, nextClassId, nextBookingId := 1, 1, 1;
    }

    method CreateClient(name: string, email: string) returns (id: Option<int>)
      modifies this
      ensures (State(), id) == AfterCreateClient(old(State()), name, email)
    {
      var existing := ClientIndexByEmail(clients, email);
      if existing.Some? {
        return None;
      }
      id := Some(nextClientId);
      clients := clients + [Client(nextClientId, name, email)];
      nextClientId := nextClientId + 1;
    }

    method GetOrCreateClientByEmail(email: string, name: string) returns (id: int, created: bool)
      modifies this
      ensures (State(), id) == AfterGetOrCreateByEmail(old(State()), email, name)
      ensures created <==> forall c :: c in old(clients) ==> c.email != email
    {
      var existing := ClientIndexByEmail(clients, email);
      if existing.Some? {
        return clients[existing.value].id, false;
      }
      var r := CreateClient(name, email);
      id, created := r.value, true;
    }

    method GetOrCreateClient(name: string, email: string) returns (id: Option<int>)
      requires Valid(State())
      modifies this
      ensures (State(), id) == AfterGetOrCreate(old(State()), name, email)
    {
      var existing := IndexWhere(clients, (c: Client) => c.name == name && c.email == email);
      if existing.Some? {
        return Some(clients[existing.value].id);
      }
      id := CreateClient(name, email);
    }

    method CreateClass(className: ClassType, instructor: string, availableSlots: int, startTime: int)
      returns (id: int)
      requires availableSlots >= 0
      modifies this
      ensures (State(), id) == AfterCreateClass(old(State()), className, instructor, availableSlots, startTime)
    {
      id := nextClassId;
      classes := classes + [FitnessClass(id, className, instructor, availableSlots, startTime)];
      nextClassId := nextClassId + 1;
    }

    method SaveClassSlots(k: nat, availableSlots: int)
      requires k < |classes| && availableSlots >= 0
      modifies this
      ensures State() == AfterSaveSlots(old(State()), k, availableSlots)
    {
      classes := classes[k := classes[k].(availableSlots := availableSlots)];
    }

    method CreateBooking(classId: int, clientId: int) returns (id: int)
      requires HasClass(classes, classId) && HasClient(clients, clientId)
      modifies this
      ensures (State(), id) == AfterCreateBooking(old(State()), classId, clientId)
    {
      id := nextBookingId;
      bookings := bookings + [Booking(id, classId, clientId)];
      nextBookingId := nextBookingId + 1;
    }
  }
}
