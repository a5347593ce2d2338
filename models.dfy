/** The three records of the studio (Client, FitnessClass, Booking), the store
    that holds them, the constraints the schema declares on them, cascade
    deletion, and the display text of a booking. */
module Models {
  import opened Wrappers
  import opened Seqs

  /** The values of FitnessClass.CLASS_CHOICES. */
  datatype ClassType = Yoga | Zumba | HIIT

  /** The stored text of a class type (choice value and label are the same). */
  function ClassTypeName(t: ClassType): string {
    match t
    case Yoga => "Yoga"
    case Zumba => "Zumba"
    case HIIT => "HIIT"
  }

  /** The choice validation of class_name: only the three choice values are accepted. */
  function ParseClassType(s: string): (r: Option<ClassType>)
    ensures r.Some? <==> s == "Yoga" || s == "Zumba" || s == "HIIT"
    ensures r.Some? ==> ClassTypeName(r.value) == s
  {
    if s == "Yoga" then Some(Yoga)
    else if s == "Zumba" then Some(Zumba)
    else if s == "HIIT" then Some(HIIT)
    else None
  }

  lemma ClassTypeRoundTrip(t: ClassType)
    ensures ParseClassType(ClassTypeName(t)) == Some(t)
  {
    match t
    case Yoga =>
    case Zumba => assert ClassTypeName(t) != "Yoga";
    case HIIT => assert ClassTypeName(t) != "Yoga" && ClassTypeName(t) != "Zumba";
  }

  datatype Client = Client(id: int, name: string, email: string)

  /** `availableSlots` is an `int` so that a decrement below zero is expressible;
      the schema's non-negativity is part of `Valid`. Time is an integer count of seconds. */
  datatype FitnessClass = FitnessClass(
    id: int,
    className: ClassType,
    instructor: string,
    availableSlots: int,
    startTime: int)

  datatype Booking = Booking(id: int, classId: int, clientId: int)

  /** The three tables, each in primary-key order, and the next value of each
      auto-increment primary key. */
  datatype Store = Store(
    clients: seq<Client>,
    classes: seq<FitnessClass>,
    bookings: seq<Booking>,
    nextClientId: int,
    nextClassId: int,
    nextBookingId: int)

  function EmptyStore(): (s: Store)
    ensures Valid(s) && s.clients == [] && s.classes == [] && s.bookings == []
  {
    Store([], [], [], 1, 1, 1)
  }

  function ClientKey(c: Client): int { c.id }
  function ClientEmail(c: Client): string { c.email }
  function ClassKey(c: FitnessClass): int { c.id }
  function BookingKey(b: Booking): int { b.id }

  predicate HasClass(classes: seq<FitnessClass>, id: int) {
    exists c :: c in classes && c.id == id
  }

  predicate HasClient(clients: seq<Client>, id: int) {
    exists c :: c in clients && c.id == id
  }

  /** Primary keys are positive, below the next key, and ascending in each table. */
  predicate KeysOk(s: Store) {
    && IncreasingBy(s.clients, ClientKey)
    && IncreasingBy(s.classes, ClassKey)
    && IncreasingBy(s.bookings, BookingKey)
    && 1 <= s.nextClientId && 1 <= s.nextClassId && 1 <= s.nextBookingId
    && (forall c :: c in s.clients ==> 1 <= c.id < s.nextClientId)
    && (forall c :: c in s.classes ==> 1 <= c.id < s.nextClassId)
    && (forall b :: b in s.bookings ==> 1 <= b.id < s.nextBookingId)
  }

  /** Every booking's two foreign keys name stored rows. */
  predicate ReferencesOk(s: Store) {
    forall b :: b in s.bookings ==> HasClass(s.classes, b.classId) && HasClient(s.clients, b.clientId)
  }

  /** The constraints of the schema: unique client email, non-negative
      available_slots, foreign keys that resolve, and well-formed primary keys. */
  predicate Valid(s: Store) {
    && KeysOk(s)
    && DistinctBy(s.clients, ClientEmail)
    && (forall c :: c in s.classes ==> c.availableSlots >= 0)
    && ReferencesOk(s)
  }

  /** The row with primary key `id`. */
  function ClassIndex(classes: seq<FitnessClass>, id: int): (r: Option<nat>)
    ensures r.Some? ==> r.value < |classes| && classes[r.value].id == id
    ensures r.None? <==> !HasClass(classes, id)
  {
    IndexWhere(classes, (c: FitnessClass) => c.id == id)
  }

  function ClientIndex(clients: seq<Client>, id: int): (r: Option<nat>)
    ensures r.Some? ==> r.value < |clients| && clients[r.value].id == id
    ensures r.None? <==> !HasClient(clients, id)
  {
    IndexWhere(clients, (c: Client) => c.id == id)
  }

  /** The client with the given email, if there is one. */
  function ClientIndexByEmail(clients: seq<Client>, email: string): (r: Option<nat>)
    ensures r.Some? ==> r.value < |clients| && clients[r.value].email == email
    ensures r.None? <==> forall c :: c in clients ==> c.email != email
  {
    IndexWhere(clients, (c: Client) => c.email == email)
  }

  /** In a valid store a primary key names exactly one class. */
  lemma ClassKeyUnique(s: Store, c1: FitnessClass, c2: FitnessClass)
    requires Valid(s) && c1 in s.classes && c2 in s.classes && c1.id == c2.id
    ensures c1 == c2
  {
    var i :| 0 <= i < |s.classes| && s.classes[i] == c1;
    var j :| 0 <= j < |s.classes| && s.classes[j] == c2;
    if i < j || j < i {
      assert false;
    }
  }

  /** In a valid store an email names at most one client, and a primary key exactly one. */
  lemma ClientKeysUnique(s: Store, c1: Client, c2: Client)
    requires Valid(s) && c1 in s.clients && c2 in s.clients
    requires c1.id == c2.id || c1.email == c2.email
    ensures c1 == c2
  {
    var i :| 0 <= i < |s.clients| && s.clients[i] == c1;
    var j :| 0 <= j < |s.clients| && s.clients[j] == c2;
    if i < j || j < i {
      assert false;
    }
  }

  /** Deleting a fitness class: on_delete=CASCADE removes its bookings too. */
  function DeleteClass(s: Store, id: int): (r: Store)
    ensures r.clients == s.clients
    ensures r.nextClientId == s.nextClientId && r.nextClassId == s.nextClassId && r.nextBookingId == s.nextBookingId
    ensures forall c :: c in r.classes <==> c in s.classes && c.id != id
    ensures forall b :: b in r.bookings <==> b in s.bookings && b.classId != id
    ensures !HasClass(r.classes, id)
  {
    s.(classes := Filter(s.classes, (c: FitnessClass) => c.id != id),
       bookings := Filter(s.bookings, (b: Booking) => b.classId != id))
  }

  /** Deleting a client: on_delete=CASCADE removes the client's bookings too. */
  function DeleteClient(s: Store, id: int): (r: Store)
    ensures r.classes == s.classes
    ensures r.nextClientId == s.nextClientId && r.nextClassId == s.nextClassId && r.nextBookingId == s.nextBookingId
    ensures forall c :: c in r.clients <==> c in s.clients && c.id != id
    ensures forall b :: b in r.bookings <==> b in s.bookings && b.clientId != id
    ensures !HasClient(r.clients, id)
  {
    s.(clients := Filter(s.clients, (c: Client) => c.id != id),
       bookings := Filter(s.bookings, (b: Booking) => b.clientId != id))
  }

  /** The rows a cascading delete keeps stay in their original order. */
  lemma DeleteClassKeepsOrder(s: Store, id: int) returns (classPositions: seq<nat>, bookingPositions: seq<nat>)
    ensures Positions(DeleteClass(s, id).classes, s.classes, classPositions)
    ensures Positions(DeleteClass(s, id).bookings, s.bookings, bookingPositions)
  {
    classPositions := FilterKeepsOrder(s.classes, (c: FitnessClass) => c.id != id);
    bookingPositions := FilterKeepsOrder(s.bookings, (b: Booking) => b.classId != id);
  }

  lemma DeleteClientKeepsOrder(s: Store, id: int) returns (clientPositions: seq<nat>, bookingPositions: seq<nat>)
    ensures Positions(DeleteClient(s, id).clients, s.clients, clientPositions)
    ensures Positions(DeleteClient(s, id).bookings, s.bookings, bookingPositions)
  {
    clientPositions := FilterKeepsOrder(s.clients, (c: Client) => c.id != id);
    bookingPositions := FilterKeepsOrder(s.bookings, (b: Booking) => b.clientId != id);
  }

  /** Deleting a stored class removes exactly the bookings that name it, and
      every constraint of the schema still holds afterwards. */
  lemma {:induction false} DeleteClassPreservesValid(s: Store, id: int)
    requires Valid(s)
    ensures Valid(DeleteClass(s, id))
    ensures |DeleteClass(s, id).bookings| + |Filter(s.bookings, (b: Booking) => b.classId == id)| == |s.bookings|
  {
    var r := DeleteClass(s, id);
    FilterKeepsIncreasing(s.classes, (c: FitnessClass) => c.id != id, ClassKey);
    FilterKeepsIncreasing(s.bookings, (b: Booking) => b.classId != id, BookingKey);
    forall b | b in r.bookings ensures HasClass(r.classes, b.classId) {
      var c :| c in s.classes && c.id == b.classId;
      assert c in r.classes;
    }
    FilterSplit(s.bookings, (b: Booking) => b.classId != id, (b: Booking) => b.classId == id);
  }

  lemma {:induction false} DeleteClientPreservesValid(s: Store, id: int)
    requires Valid(s)
    ensures Valid(DeleteClient(s, id))
    ensures |DeleteClient(s, id).bookings| + |Filter(s.bookings, (b: Booking) => b.clientId == id)| == |s.bookings|
  {
    var r := DeleteClient(s, id);
    FilterKeepsIncreasing(s.clients, (c: Client) => c.id != id, ClientKey);
    FilterKeepsDistinct(s.clients, (c: Client) => c.id != id, ClientEmail);
    FilterKeepsIncreasing(s.bookings, (b: Booking) => b.clientId != id, BookingKey);
    forall b | b in r.bookings ensures HasClient(r.clients, b.clientId) {
      var c :| c in s.clients && c.id == b.clientId;
      assert c in r.clients;
    }
    FilterSplit(s.bookings, (b: Booking) => b.clientId != id, (b: Booking) => b.clientId == id);
  }

  /** A sequence splits into the elements that satisfy `p` and those that satisfy its negation `q`. */
  lemma {:induction false} FilterSplit<T(!new)>(s: seq<T>, p: T -> bool, q: T -> bool)
    requires forall x :: q(x) == !p(x)
    ensures |Filter(s, p)| + |Filter(s, q)| == |s|
  {
    if s != [] {
      FilterSplit(s[1..], p, q);
    }
  }

  /** Python's str() of an integer. */
  function DigitChar(d: nat): (c: char)
    requires d < 10
    ensures '0' <= c <= '9'
  {
    (d + '0' as int) as char
  }

  function NatToDecimal(n: nat): (r: string)
    ensures |r| > 0 && forall i :: 0 <= i < |r| ==> '0' <= r[i] <= '9'
  {
    if n < 10 then [DigitChar(n)] else NatToDecimal(n / 10) + [DigitChar(n % 10)]
  }

  function IntToDecimal(n: int): (r: string)
    ensures |r| > 0
  {
    if n < 0 then "-" + NatToDecimal(-n) else NatToDecimal(n)
  }

  /** The value of a string of decimal digits: the inverse of NatToDecimal. */
  function DecimalValue(s: string): nat
    requires forall i :: 0 <= i < |s| ==> '0' <= s[i] <= '9'
  {
    if s == [] then 0 else DecimalValue(s[..|s| - 1]) * 10 + (s[|s| - 1] as int - '0' as int)
  }

  lemma {:induction false} DecimalRoundTrip(n: nat)
    ensures DecimalValue(NatToDecimal(n)) == n
  {
    if n >= 10 {
      var t := NatToDecimal(n / 10);
      var r := NatToDecimal(n);
      assert r == t + [DigitChar(n % 10)];
      assert r[..|r| - 1] == t;
      DecimalRoundTrip(n / 10);
    }
  }

  lemma {:induction false} IntToDecimalInjective(a: int, b: int)
    requires IntToDecimal(a) == IntToDecimal(b)
    ensures a == b
  {
    var sa, sb := IntToDecimal(a), IntToDecimal(b);
    DecimalSign(a);
    DecimalSign(b);
    if a < 0 && b < 0 {
      assert sa[1..] == NatToDecimal(-a) && sb[1..] == NatToDecimal(-b);
      DecimalRoundTrip(-a);
      DecimalRoundTrip(-b);
    } else if a >= 0 && b >= 0 {
      DecimalRoundTrip(a);
      DecimalRoundTrip(b);
    }
  }

  /** Only a negative number's text starts with a minus sign. */
  lemma DecimalSign(n: int)
    ensures IntToDecimal(n)[0] == '-' <==> n < 0
  {
    if n >= 0 {
      assert '0' <= NatToDecimal(n)[0] <= '9';
    }
  }

  const FitnessClassTextPrefix := "FitnessClass object ("

  /** FitnessClass declares no __str__, so Django's default "<model> object (<pk>)" is used. */
  function FitnessClassText(c: FitnessClass): (r: string)
    ensures |r| > |FitnessClassTextPrefix| + 1
    ensures r[..|FitnessClassTextPrefix|] == FitnessClassTextPrefix && r[|r| - 1] == ')'
    ensures r[|FitnessClassTextPrefix|..|r| - 1] == IntToDecimal(c.id)
  {
    FitnessClassTextPrefix + IntToDecimal(c.id) + ")"
  }

  /** The default text tells classes with different keys apart. */
  lemma FitnessClassTextIdentifiesClass(c1: FitnessClass, c2: FitnessClass)
    ensures FitnessClassText(c1) == FitnessClassText(c2) <==> c1.id == c2.id
  {
    if FitnessClassText(c1) == FitnessClassText(c2) {
      var d1, d2 := IntToDecimal(c1.id), IntToDecimal(c2.id);
      var t1, t2 := FitnessClassTextPrefix + d1 + ")", FitnessClassTextPrefix + d2 + ")";
      assert FitnessClassText(c1) == t1 && FitnessClassText(c2) == t2;
      assert |d1| == |d2|;
      assert t1[|FitnessClassTextPrefix|..|FitnessClassTextPrefix| + |d1|] == d1;
      assert t2[|FitnessClassTextPrefix|..|FitnessClassTextPrefix| + |d2|] == d2;
      IntToDecimalInjective(c1.id, c2.id);
    }
  }

  /** Booking.__str__: "<client name> booked <fitness class>". */
  function BookingText(client: Client, fitnessClass: FitnessClass): (r: string)
    ensures |r| > |client.name| + |" booked "|
    ensures r[..|client.name| + |" booked "|] == client.name + " booked "
    ensures r[|client.name| + |" booked "|..] == FitnessClassText(fitnessClass)
  {
    client.name + " booked " + FitnessClassText(fitnessClass)
  }

  /** For one client the text tells the booked classes apart. */
  lemma BookingTextIdentifiesClass(client: Client, c1: FitnessClass, c2: FitnessClass)
    ensures BookingText(client, c1) == BookingText(client, c2) <==> c1.id == c2.id
  {
    var prefix := client.name + " booked ";
    var f1, f2 := FitnessClassText(c1), FitnessClassText(c2);
    assert BookingText(client, c1) == prefix + f1 && BookingText(client, c2) == prefix + f2;
    if BookingText(client, c1) == BookingText(client, c2) {
      assert (prefix + f1)[|prefix|..] == f1;
      assert (prefix + f2)[|prefix|..] == f2;
    }
    FitnessClassTextIdentifiesClass(c1, c2);
  }

  /** The text of a stored booking; reading it fails (None) when a referenced
      row is missing, which a valid store rules out. */
  function StoredBookingText(s: Store, b: Booking): (r: Option<string>)
    ensures r.Some? <==> HasClient(s.clients, b.clientId) && HasClass(s.classes, b.classId)
    ensures Valid(s) && b in s.bookings ==> r.Some?
  {
    match (ClientIndex(s.clients, b.clientId), ClassIndex(s.classes, b.classId))
    case (Some(i), Some(k)) => Some(BookingText(s.clients[i], s.classes[k]))
    case _ => None
  }
}
