/** The seed_data management command: ten clients through get_or_create,
    five classes, then fifteen bookings, each taken only from a class that
    still has a free slot. Faker's names and emails, random.choice,
    random.randint and the clock readings are inputs; a choice from a list
    is given by an arbitrary pick reduced modulo the list's length, which
    reaches every element. */
module SeedData {
  import opened Wrappers
  import opened Seqs
  import opened Models
  import opened Orm

  datatype SeedOutcome =
    | Seeded
    | ClientConflict(email: string)  // get_or_create hit the unique email of a client with another name

  /** The state after the first `i` rounds of the client loop, started
      from `s0`: only the client table has grown, each new row carries one of
      the first `i` emails, and each of those pairs is stored. */
  predicate ClientsSeeded(s0: Store, s: Store, names: seq<string>, emails: seq<string>, i: nat)
    requires i <= |emails| == |names|
  {
    && s.classes == s0.classes && s.bookings == s0.bookings
    && s.nextClassId == s0.nextClassId && s.nextBookingId == s0.nextBookingId
    && s0.clients <= s.clients && |s.clients| <= |s0.clients| + i
    && (forall c :: c in s.clients ==> c in s0.clients || exists k :: 0 <= k < i && c.email == emails[k])
    && (forall k, c :: 0 <= k < i && c in s0.clients && c.email == emails[k] ==> c.name == names[k])
    && (forall k :: 0 <= k < i ==> exists c :: c in s.clients && c.name == names[k] && c.email == emails[k])
  }

  /** A round whose get_or_create succeeds extends the loop's state by one. */
  lemma ClientRoundSeeded(s0: Store, s: Store, names: seq<string>, emails: seq<string>, i: nat)
    requires Valid(s) && i < |emails| == |names| && DistinctBy(emails, (e: string) => e)
    requires ClientsSeeded(s0, s, names, emails, i)
    requires AfterGetOrCreate(s, names[i], emails[i]).1.Some?
    ensures ClientsSeeded(s0, AfterGetOrCreate(s, names[i], emails[i]).0, names, emails, i + 1)
  {
    var r := AfterGetOrCreate(s, names[i], emails[i]);
    forall c | c in s0.clients && c.email == emails[i] ensures c.name == names[i] {
      assert c in s.clients;
    }
    forall k | 0 <= k < i + 1 ensures exists c :: c in r.0.clients && c.name == names[k] && c.email == emails[k] {
      if k < i {
        var c :| c in s.clients && c.name == names[k] && c.email == emails[k];
        assert c in r.0.clients;
      } else {
        assert Client(r.1.value, names[i], emails[i]) in r.0.clients;
      }
    }
  }

  /** A round whose get_or_create fails meets a client that was already
      stored before the loop: the new rows hold other emails. */
  lemma ClientRoundConflict(s0: Store, s: Store, names: seq<string>, emails: seq<string>, i: nat)
    requires Valid(s) && i < |emails| == |names| && DistinctBy(emails, (e: string) => e)
    requires ClientsSeeded(s0, s, names, emails, i)
    requires AfterGetOrCreate(s, names[i], emails[i]).1.None?
    ensures exists c :: c in s0.clients && c.email == emails[i] && c.name != names[i]
  {
    var c :| c in s.clients && c.email == emails[i] && c.name != names[i];
    assert c in s0.clients;
  }

  /** No client stored in `clients` holds one of the emails under another name:
      the condition under which every get_or_create of the loop succeeds. */
  predicate NoNameClash(clients: seq<Client>, names: seq<string>, emails: seq<string>)
    requires |names| == |emails|
  {
    forall i, c :: 0 <= i < |emails| && c in clients && c.email == emails[i] ==> c.name == names[i]
  }

  /** The first loop: get_or_create(name=names[i], email=emails[i]) for each
      i, stopping at the first integrity error. Faker's unique proxy makes the
      emails pairwise distinct. */
  method SeedClients(db: Database, names: seq<string>, emails: seq<string>) returns (outcome: SeedOutcome)
    requires Valid(db.State()) && |names| == |emails| && DistinctBy(emails, (e: string) => e)
    modifies db
    ensures Valid(db.State())
    ensures outcome.Seeded? <==> NoNameClash(old(db.clients), names, emails)
    ensures outcome.Seeded? ==> ClientsSeeded(old(db.State()), db.State(), names, emails, |emails|)
    ensures outcome.ClientConflict? ==>
      exists i :: 0 <= i < |emails| && outcome.email == emails[i] &&
        ClientsSeeded(old(db.State()), db.State(), names, emails, i) &&
        exists c :: c in old(db.clients) && c.email == emails[i] && c.name != names[i]
  {
    ghost var s0 := db.State();
    var i := 0;
    while i < |emails|
      invariant 0 <= i <= |emails|
      invariant Valid(db.State())
      invariant ClientsSeeded(s0, db.State(), names, emails, i)
    {
      ghost var s := db.State();
      GetOrCreateKeepsValid(s, names[i], emails[i]);
      var id := db.GetOrCreateClient(names[i], emails[i]);
      if id.None? {
        ClientRoundConflict(s0, s, names, emails, i);
        return ClientConflict(emails[i]);
      }
      ClientRoundSeeded(s0, s, names, emails, i);
      i := i + 1;
    }
    outcome := Seeded;
  }

  /** The class_types list the second loop chooses from. */
  const ClassTypes: seq<ClassType> := [Yoga, Zumba, HIIT]

  /** timedelta(days=1) in the model's unit of time (seconds). */
  const DaySeconds := 86400

  /** The class row the k-th round of the class loop creates, given the key it gets. */
  function SeedClass(id: int, typePick: nat, instructor: string, days: int, slots: int, now: int): FitnessClass {
    FitnessClass(id, ClassTypes[typePick % |ClassTypes|], instructor, slots, now + days * DaySeconds)
  }

  predicate SameLengths<A, B, C, D, E>(a: seq<A>, b: seq<B>, c: seq<C>, d: seq<D>, e: seq<E>) {
    |a| == |b| == |c| == |d| == |e|
  }

  /** The state after the first `i` rounds of the class loop, started from
      `s0`: `i` rows appended to the class table with the next keys, nothing
      else changed. */
  predicate ClassesSeeded(s0: Store, s: Store, typePicks: seq<nat>, instructors: seq<string>,
                          days: seq<int>, slots: seq<int>, clock: seq<int>, i: nat)
    requires SameLengths(typePicks, instructors, days, slots, clock) && i <= |typePicks|
  {
    && s.clients == s0.clients && s.bookings == s0.bookings
    && s.nextClientId == s0.nextClientId && s.nextBookingId == s0.nextBookingId
    && s.nextClassId == s0.nextClassId + i
    && |s.classes| == |s0.classes| + i && s.classes[..|s0.classes|] == s0.classes
    && forall k :: 0 <= k < i ==>
         s.classes[|s0.classes| + k] == SeedClass(s0.nextClassId + k, typePicks[k], instructors[k], days[k], slots[k], clock[k])
  }

  lemma ClassRound(s0: Store, s: Store, typePicks: seq<nat>, instructors: seq<string>,
                   days: seq<int>, slots: seq<int>, clock: seq<int>, i: nat)
    requires SameLengths(typePicks, instructors, days, slots, clock) && i < |typePicks| && slots[i] >= 0
    requires ClassesSeeded(s0, s, typePicks, instructors, days, slots, clock, i)
    ensures var c := SeedClass(s.nextClassId, typePicks[i], instructors[i], days[i], slots[i], clock[i]);
      ClassesSeeded(s0, AfterCreateClass(s, c.className, c.instructor, c.availableSlots, c.startTime).0,
                    typePicks, instructors, days, slots, clock, i + 1)
  {
    var c := SeedClass(s.nextClassId, typePicks[i], instructors[i], days[i], slots[i], clock[i]);
    var r := AfterCreateClass(s, c.className, c.instructor, c.availableSlots, c.startTime).0;
    assert r.classes == s.classes + [c];
    forall k | 0 <= k < i + 1
      ensures r.classes[|s0.classes| + k] == SeedClass(s0.nextClassId + k, typePicks[k], instructors[k], days[k], slots[k], clock[k])
    {
      if k < i {
        assert r.classes[|s0.classes| + k] == s.classes[|s0.classes| + k];
      }
    }
  }

  /** The second loop: FitnessClass.objects.create once per round, with the
      class type random.choice(class_types), a start randint(1, 10) days
      after that round's timezone.now() reading, and randint(5, 20) slots. */
  method SeedClasses(db: Database, typePicks: seq<nat>, instructors: seq<string>,
                     days: seq<int>, slots: seq<int>, clock: seq<int>)
    requires Valid(db.State()) && SameLengths(typePicks, instructors, days, slots, clock)
    requires forall k :: 0 <= k < |slots| ==> 5 <= slots[k] <= 20
    modifies db
    ensures Valid(db.State())
    ensures ClassesSeeded(old(db.State()), db.State(), typePicks, instructors, days, slots, clock, |typePicks|)
  {
    ghost var s0 := db.State();
    var i := 0;
    while i < |typePicks|
      invariant 0 <= i <= |typePicks|
      invariant Valid(db.State())
      invariant ClassesSeeded(s0, db.State(), typePicks, instructors, days, slots, clock, i)
    {
      var c := SeedClass(db.nextClassId, typePicks[i], instructors[i], days[i], slots[i], clock[i]);
      CreateClassKeepsValid(db.State(), c.className, c.instructor, c.availableSlots, c.startTime);
      ClassRound(s0, db.State(), typePicks, instructors, days, slots, clock, i);
      var id := db.CreateClass(c.className, c.instructor, c.availableSlots, c.startTime);
      i := i + 1;
    }
  }

  /** Class row `c` has key `id`, 5 to 20 slots, and starts one to ten days
      after `now`. */
  predicate InSeedRange(c: FitnessClass, id: int, now: int) {
    && c.id == id
    && 5 <= c.availableSlots <= 20
    && now + DaySeconds <= c.startTime <= now + 10 * DaySeconds
  }

  /** With randint's ranges, every seeded class starts one to ten days after
      its round's clock reading and has 5 to 20 slots. */
  lemma SeededClassesInRange(s0: Store, s: Store, typePicks: seq<nat>, instructors: seq<string>,
                             days: seq<int>, slots: seq<int>, clock: seq<int>, n: nat)
    requires SameLengths(typePicks, instructors, days, slots, clock) && n <= |typePicks|
    requires ClassesSeeded(s0, s, typePicks, instructors, days, slots, clock, n)
    requires forall k :: 0 <= k < n ==> 1 <= days[k] <= 10 && 5 <= slots[k] <= 20
    ensures forall k :: 0 <= k < n ==> InSeedRange(s.classes[|s0.classes| + k], s0.nextClassId + k, clock[k])
  {
    forall k | 0 <= k < n
      ensures InSeedRange(s.classes[|s0.classes| + k], s0.nextClassId + k, clock[k])
    {
      var c := s.classes[|s0.classes| + k];
      assert c == SeedClass(s0.nextClassId + k, typePicks[k], instructors[k], days[k], slots[k], clock[k]);
      assert c.startTime == clock[k] + days[k] * 86400;
    }
  }

  /** The bookings of class `id`. */
  function ForClass(id: int): Booking -> bool {
    (b: Booking) => b.classId == id
  }

  /** How many of `bookings` are for class `id`. */
  function BookedCount(bookings: seq<Booking>, id: int): nat {
    |Filter(bookings, ForClass(id))|
  }

  /** The state after `t` rounds of the booking loop, started from `s0`:
      at most `t` bookings appended, the class rows changed only in their
      slot counts, and each class short of exactly as many slots as it got
      new bookings. */
  predicate BookingsSeeded(s0: Store, s: Store, t: nat) {
    && s.clients == s0.clients
    && s.nextClientId == s0.nextClientId && s.nextClassId == s0.nextClassId
    && |s.classes| == |s0.classes|
    && (forall j :: 0 <= j < |s.classes| ==>
          s.classes[j] == s0.classes[j].(availableSlots := s.classes[j].availableSlots))
    && s0.bookings <= s.bookings && |s.bookings| <= |s0.bookings| + t
    && forall j :: 0 <= j < |s.classes| ==>
         s.classes[j].availableSlots + BookedCount(s.bookings[|s0.bookings|..], s0.classes[j].id)
           == s0.classes[j].availableSlots
  }

  /** One round of the booking loop on class row `j` and client `clientId`:
      Booking.objects.create and the saved decrement when the class has a
      free slot, nothing otherwise. */
  function BookingRoundState(s: Store, j: nat, clientId: int): (r: Store)
    requires j < |s.classes| && HasClient(s.clients, clientId)
    ensures r.clients == s.clients && |r.classes| == |s.classes|
  {
    var fitnessClass := s.classes[j];
    assert fitnessClass in s.classes;
    if fitnessClass.availableSlots > 0 then
      AfterSaveSlots(AfterCreateBooking(s, fitnessClass.id, clientId).0, j, fitnessClass.availableSlots - 1)
    else s
  }

  /** A round keeps the accounting: a booking for class row `j` goes with
      exactly one slot fewer in that row, and no other row changes. */
  lemma BookingRoundAccounts(s0: Store, s: Store, t: nat, j: nat, clientId: int, s2: Store)
    requires IncreasingBy(s0.classes, ClassKey) && BookingsSeeded(s0, s, t)
    requires j < |s.classes| && HasClient(s.clients, clientId)
    requires s2 == BookingRoundState(s, j, clientId)
    ensures BookingsSeeded(s0, s2, t + 1)
  {
    if s.classes[j].availableSlots > 0 {
      var id := s.classes[j].id;
      var n0 := |s0.bookings|;
      var b := Booking(s.nextBookingId, id, clientId);
      assert s2.bookings[n0..] == s.bookings[n0..] + [b];
      forall j' | 0 <= j' < |s2.classes|
        ensures s2.classes[j'].availableSlots + BookedCount(s2.bookings[n0..], s0.classes[j'].id)
                  == s0.classes[j'].availableSlots
      {
        FilterAppend(s.bookings[n0..], b, ForClass(s0.classes[j'].id));
        if j' != j {
          assert s0.classes[j'].id != s0.classes[j].id by {
            if j' < j {
              assert ClassKey(s0.classes[j']) < ClassKey(s0.classes[j]);
            } else {
              assert ClassKey(s0.classes[j]) < ClassKey(s0.classes[j']);
            }
          }
        }
      }
    }
  }

  lemma BookingRoundKeepsValid(s: Store, j: nat, clientId: int, r: Store)
    requires Valid(s) && j < |s.classes| && HasClient(s.clients, clientId)
    requires r == BookingRoundState(s, j, clientId)
    ensures Valid(r)
  {
    if s.classes[j].availableSlots > 0 {
      BookedRoundKeepsValid(s, j, clientId);
    }
  }

  /** A round that books keeps the schema: the booking's class and client
      exist, and the row keeps a non-negative slot count. */
  lemma BookedRoundKeepsValid(s: Store, j: nat, clientId: int)
    requires Valid(s) && j < |s.classes| && HasClient(s.clients, clientId)
    requires s.classes[j].availableSlots > 0
    ensures s.classes[j] in s.classes
    ensures Valid(AfterSaveSlots(AfterCreateBooking(s, s.classes[j].id, clientId).0, j, s.classes[j].availableSlots - 1))
  {
    var fitnessClass := s.classes[j];
    CreateBookingKeepsValid(s, fitnessClass.id, clientId);
    SaveSlotsKeepsValid(AfterCreateBooking(s, fitnessClass.id, clientId).0, j, fitnessClass.availableSlots - 1);
  }

  /** What one round writes: when class row `j` has a free slot, one booking
      with the next key for that class and the client, and that row with one
      slot fewer; otherwise nothing. No other class row changes. */
  lemma BookingRoundEffect(s: Store, j: nat, clientId: int)
    requires j < |s.classes| && HasClient(s.clients, clientId)
    ensures var r, c := BookingRoundState(s, j, clientId), s.classes[j];
      && (forall k :: 0 <= k < |s.classes| && k != j ==> r.classes[k] == s.classes[k])
      && (c.availableSlots > 0 ==>
            && r.classes[j] == c.(availableSlots := c.availableSlots - 1)
            && r.bookings == s.bookings + [Booking(s.nextBookingId, c.id, clientId)]
            && r.nextBookingId == s.nextBookingId + 1
            && r.nextClassId == s.nextClassId && r.nextClientId == s.nextClientId)
      && (c.availableSlots <= 0 ==> r == s)
  {
  }

  /** The store after the first `t` rounds of the third loop from `s0`: in
      round k the client picked by clientPicks[k] books the class row picked
      by classPicks[k]. Both tables keep their length, so every pick is made
      from the same lists. */
  function BookingsAfter(s0: Store, clientPicks: seq<nat>, classPicks: seq<nat>, t: nat): (r: Store)
    requires |s0.clients| > 0 && |s0.classes| > 0
    requires t <= |clientPicks| == |classPicks|
    ensures r.clients == s0.clients && |r.classes| == |s0.classes|
  {
    if t == 0 then s0
    else
      var s := BookingsAfter(s0, clientPicks, classPicks, t - 1);
      var client := s0.clients[clientPicks[t - 1] % |s0.clients|];
      var j := classPicks[t - 1] % |s0.classes|;
      assert client in s.clients;
      BookingRoundState(s, j, client.id)
  }

  /** The last of `t` rounds: the client key and class row it picks, applied
      to the store after the others. */
  lemma BookingsAfterStep(s0: Store, clientPicks: seq<nat>, classPicks: seq<nat>, t: nat)
    returns (s: Store, j: nat, clientId: int)
    requires |s0.clients| > 0 && |s0.classes| > 0
    requires 0 < t <= |clientPicks| == |classPicks|
    ensures s == BookingsAfter(s0, clientPicks, classPicks, t - 1)
    ensures j < |s.classes| && HasClient(s.clients, clientId)
    ensures BookingsAfter(s0, clientPicks, classPicks, t) == BookingRoundState(s, j, clientId)
  {
    s := BookingsAfter(s0, clientPicks, classPicks, t - 1);
    var client := s0.clients[clientPicks[t - 1] % |s0.clients|];
    j := classPicks[t - 1] % |s0.classes|;
    clientId := client.id;
    assert client in s.clients;
  }

  /** Round t of the third loop, in terms of the picks: the client chosen by
      clientPicks[t-1] books class row classPicks[t-1] % |classes| when that
      row has a free slot; only that row and the booking table change. */
  lemma BookingsAfterRound(s0: Store, clientPicks: seq<nat>, classPicks: seq<nat>, t: nat)
    requires |s0.clients| > 0 && |s0.classes| > 0
    requires 0 < t <= |clientPicks| == |classPicks|
    ensures var s, r := BookingsAfter(s0, clientPicks, classPicks, t - 1), BookingsAfter(s0, clientPicks, classPicks, t);
      var j, client := classPicks[t - 1] % |s0.classes|, s0.clients[clientPicks[t - 1] % |s0.clients|];
      && (forall k :: 0 <= k < |s.classes| && k != j ==> r.classes[k] == s.classes[k])
      && (s.classes[j].availableSlots > 0 ==>
            && r.classes[j] == s.classes[j].(availableSlots := s.classes[j].availableSlots - 1)
            && r.bookings == s.bookings + [Booking(s.nextBookingId, s.classes[j].id, client.id)])
      && (s.classes[j].availableSlots <= 0 ==> r == s)
  {
    var s := BookingsAfter(s0, clientPicks, classPicks, t - 1);
    var j, client := classPicks[t - 1] % |s0.classes|, s0.clients[clientPicks[t - 1] % |s0.clients|];
    assert client in s.clients;
    assert BookingsAfter(s0, clientPicks, classPicks, t) == BookingRoundState(s, j, client.id);
    BookingRoundEffect(s, j, client.id);
  }

  /** Every prefix of the third loop keeps the schema's constraints. */
  lemma {:induction false} BookingsAfterValid(s0: Store, clientPicks: seq<nat>, classPicks: seq<nat>, t: nat, r: Store)
    requires Valid(s0) && |s0.clients| > 0 && |s0.classes| > 0
    requires t <= |clientPicks| == |classPicks|
    requires r == BookingsAfter(s0, clientPicks, classPicks, t)
    ensures Valid(r)
  {
    if t > 0 {
      var s, j, clientId := BookingsAfterStep(s0, clientPicks, classPicks, t);
      BookingsAfterValid(s0, clientPicks, classPicks, t - 1, s);
      BookingRoundKeepsValid(s, j, clientId, r);
    }
  }

  /** Every prefix of the third loop of `t` rounds books at most `t` times
      and takes exactly one slot of a class per booking into it. */
  lemma {:induction false} BookingsAfterAccounts(s0: Store, clientPicks: seq<nat>, classPicks: seq<nat>, t: nat, r: Store)
    requires IncreasingBy(s0.classes, ClassKey) && |s0.clients| > 0 && |s0.classes| > 0
    requires t <= |clientPicks| == |classPicks|
    requires r == BookingsAfter(s0, clientPicks, classPicks, t)
    ensures BookingsSeeded(s0, r, t)
  {
    if t > 0 {
      var s, j, clientId := BookingsAfterStep(s0, clientPicks, classPicks, t);
      BookingsAfterAccounts(s0, clientPicks, classPicks, t - 1, s);
      BookingRoundAccounts(s0, s, t - 1, j, clientId, r);
    }
  }

  /** The body of one round of the third loop, on class row `j`. */
  method BookRound(db: Database, j: nat, clientId: int)
    requires j < |db.classes| && HasClient(db.clients, clientId)
    modifies db
    ensures db.State() == BookingRoundState(old(db.State()), j, clientId)
  {
    var fitnessClass := db.classes[j];
    assert fitnessClass in db.classes;
    if fitnessClass.availableSlots > 0 {
      var id := db.CreateBooking(fitnessClass.id, clientId);
      db.SaveClassSlots(j, fitnessClass.availableSlots - 1);
    }
  }

  /** The third loop: rounds over snapshots of the client and class tables;
      a round books the chosen client into the chosen class only while that
      class has a free slot, then takes the slot and saves the class. */
  method SeedBookings(db: Database, clientPicks: seq<nat>, classPicks: seq<nat>)
    requires Valid(db.State()) && |clientPicks| == |classPicks|
    requires |db.clients| > 0 && |db.classes| > 0
    modifies db
    ensures db.State() == BookingsAfter(old(db.State()), clientPicks, classPicks, |classPicks|)
    ensures Valid(db.State()) && BookingsSeeded(old(db.State()), db.State(), |classPicks|)
  {
    ghost var s0 := db.State();
    var clients := db.clients;
    var rows := |db.classes|;
    var t := 0;
    while t < |classPicks|
      invariant 0 <= t <= |classPicks|
      invariant db.State() == BookingsAfter(s0, clientPicks, classPicks, t)
    {
      var client := clients[clientPicks[t] % |clients|];
      var j := classPicks[t] % rows;
      assert client in db.clients;
      BookRound(db, j, client.id);
      t := t + 1;
    }
    BookingsAfterValid(s0, clientPicks, classPicks, t, db.State());
    BookingsAfterAccounts(s0, clientPicks, classPicks, t, db.State());
  }

  /** After a completed client loop over at least one pair, the client table
      is not empty, so the booking loop's random.choice has a list to pick from. */
  lemma SeededClientsNonEmpty(s0: Store, s: Store, names: seq<string>, emails: seq<string>)
    requires 0 < |emails| == |names|
    requires ClientsSeeded(s0, s, names, emails, |emails|)
    ensures |s.clients| > 0
  {
    assert 0 <= 0 < |emails|;
    assert exists c :: c in s.clients && c.name == names[0] && c.email == emails[0];
  }

  /** The whole command: ten get_or_create rounds, five classes, fifteen
      booking rounds. An integrity error in the first loop ends the command,
      leaving the rows it wrote so far. The ghost results are the store after
      the first and after the second loop. */
  method Handle(db: Database, names: seq<string>, emails: seq<string>,
                typePicks: seq<nat>, instructors: seq<string>, days: seq<int>, slots: seq<int>,
                clock: seq<int>, clientPicks: seq<nat>, classPicks: seq<nat>)
    returns (outcome: SeedOutcome, ghost afterClients: Store, ghost afterClasses: Store)
    requires Valid(db.State())
    requires |names| == |emails| == 10 && DistinctBy(emails, (e: string) => e)
    requires SameLengths(typePicks, instructors, days, slots, clock) && |typePicks| == 5
    requires forall k :: 0 <= k < 5 ==> 1 <= days[k] <= 10 && 5 <= slots[k] <= 20
    requires |clientPicks| == |classPicks| == 15
    modifies db
    ensures Valid(db.State())
    ensures outcome.Seeded? <==> NoNameClash(old(db.clients), names, emails)
    ensures outcome.ClientConflict? ==>
      exists i :: 0 <= i < |emails| && outcome.email == emails[i] &&
        ClientsSeeded(old(db.State()), db.State(), names, emails, i) &&
        exists c :: c in old(db.clients) && c.email == emails[i] && c.name != names[i]
    ensures outcome.Seeded? ==>
      && ClientsSeeded(old(db.State()), afterClients, names, emails, 10)
      && ClassesSeeded(afterClients, afterClasses, typePicks, instructors, days, slots, clock, 5)
      && (forall k :: 0 <= k < 5 ==>
            InSeedRange(afterClasses.classes[|afterClients.classes| + k], afterClients.nextClassId + k, clock[k]))
      && |afterClasses.clients| > 0 && |afterClasses.classes| > 0
      && db.State() == BookingsAfter(afterClasses, clientPicks, classPicks, 15)
      && BookingsSeeded(afterClasses, db.State(), 15)
  {
    outcome := SeedClients(db, names, emails);
    afterClients := db.State();
    afterClasses := db.State();
    if outcome.ClientConflict? {
      return;
    }
    SeededClientsNonEmpty(old(db.State()), db.State(), names, emails);
    SeedClasses(db, typePicks, instructors, days, slots, clock);
    afterClasses := db.State();
    SeededClassesInRange(afterClients, afterClasses, typePicks, instructors, days, slots, clock, 5);
    SeedBookings(db, clientPicks, classPicks);
  }
}
