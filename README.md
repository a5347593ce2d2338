# Fitness studio booking core in Dafny

This project models the booking core of a small Django fitness-studio
backend. It covers:

- the three records (`Client`, `FitnessClass`, `Booking`) and the schema's
  constraints on them;
- the booking allocator (`BookingSerializer`: the field rules, `validate()`
  and `create()`);
- the three list endpoints;
- the `seed_data` management command.

The database is a value `Models.Store` with three tables, each a sequence
of rows in primary-key order, and three auto-increment counters starting at
1. `Models.Valid` is the schema, stated as a predicate:

- primary keys are positive, below the counters and ascending;
- client emails are unique;
- `available_slots` is non-negative;
- every booking's foreign keys resolve.

Module by module:

- `Orm` gives each ORM call the code makes (`objects.create`,
  `get_or_create`, `save()`) twice. `After*` is a function on store values.
  `Orm.Database` is a class holding the tables as fields; its methods
  perform the same call in place, and each is proved equal to its function.
  The lemmas `*KeepsValid` show that every call keeps the schema.
- `Serializers.Allocate` is the whole booking request as a function of the
  store: field checks, then `validate()`, then `create()`. It returns the
  new booking's key or one of the error kinds. `Serializers.Book` performs
  the request step by step on a `Database` and is proved equal to
  `Allocate`. The properties of the allocator are lemmas about `Allocate`:
  - the refusal cases and their messages;
  - exactly one slot taken and one booking added;
  - client reuse by email;
  - preservation of `Valid`.
- `Views` models each list endpoint as a function of the store. Being a
  function, it cannot change the store.
- `SeedData` models the three loops of `Command.handle` as methods with
  loop invariants. Faker's names and emails, `random.choice`,
  `random.randint` and `timezone.now()` are inputs. A choice from a list is
  `list[pick % |list|]` for an arbitrary pick, which can reach every
  element. The booking loop is specified by the recursive function
  `SeedData.BookingsAfter`. The lemmas show that after any number of rounds
  the store is valid, at most that many bookings were added, and each class
  lost exactly as many slots as it received new bookings.

Times are integer seconds. Strings are `seq<char>`.

Two behaviours of the code are modelled as written:

- `get_or_create(name=..., email=...)` in `seed_data` looks a client up by
  both fields. When the email already belongs to a client with another
  name, the insert violates the unique email and the command stops with an
  `IntegrityError`. The rows written before stay, because Django
  autocommits. This is `SeedData.SeedOutcome.ClientConflict`.
- The booking loop reads the class rows it decrements from the database
  itself. The source reads them from a list taken before the loop. Only
  this loop writes those rows, and each list element is one object, so
  both read the same slot counts.

## Model

| member | source | states |
|---|---|---|
| Models.ParseClassType | studio/models.py:28-29 | class_name accepts exactly "Yoga", "Zumba" and "HIIT", and yields the type whose stored text is the input |
| Models.ClassTypeRoundTrip | studio/models.py:28-29 | parsing the stored text of any class type gives that type back |
| Models.EmptyStore | studio/models.py:5-49 | the empty database satisfies every constraint of the schema |
| Models.Valid | studio/models.py:5-49 | the schema: positive ascending keys below the counters, unique client email, non-negative available_slots, and foreign keys that name stored rows |
| Models.ClassIndex | studio/serializers.py:146 | FitnessClass.objects.get(id=...): finds a row with that key, or none exactly when no row has it |
| Models.ClientIndexByEmail | studio/serializers.py:179-182 | finds a client holding the email, or none exactly when no client holds it |
| Models.ClassKeyUnique | studio/models.py:17-32 | in a valid store two class rows with the same primary key are the same row |
| Models.ClientKeysUnique | studio/models.py:13-14 | in a valid store two clients with the same key or the same email are the same client |
| Models.DeleteClass | studio/models.py:46 | deleting a class removes it, keeps all other classes and clients, removes exactly the bookings naming it, and leaves the key counters unchanged |
| Models.DeleteClassKeepsOrder | studio/models.py:46 | the classes and bookings a class deletion keeps appear in their original order |
| Models.DeleteClient | studio/models.py:47-49 | deleting a client removes it, keeps all other clients and classes, removes exactly its bookings, and leaves the key counters unchanged |
| Models.DeleteClientKeepsOrder | studio/models.py:47-49 | the clients and bookings a client deletion keeps appear in their original order |
| Models.DeleteClassPreservesValid | studio/models.py:46 | a cascading class deletion keeps the store valid; kept and removed bookings add up to the original count |
| Models.DeleteClientPreservesValid | studio/models.py:47-49 | a cascading client deletion keeps the store valid; kept and removed bookings add up to the original count |
| Models.DigitChar | studio/models.py:52 | a digit value below 10 becomes a character '0'..'9' |
| Models.NatToDecimal | studio/models.py:52 | str() of a natural number is a non-empty string of digits |
| Models.IntToDecimal | studio/models.py:52 | str() of an integer is non-empty |
| Models.DecimalRoundTrip | studio/models.py:52 | reading back the digits of a natural number gives the number |
| Models.IntToDecimalInjective | studio/models.py:52 | different integers have different str() texts |
| Models.DecimalSign | studio/models.py:52 | the text starts with '-' exactly for negative integers |
| Models.FitnessClassText | studio/models.py:17-32 | FitnessClass has no __str__, so Django's default "FitnessClass object (<pk>)" is used: the text is that prefix, the decimal digits of the key, and ")" |
| Models.FitnessClassTextIdentifiesClass | studio/models.py:17-32 | two classes have the same default text exactly when they have the same key |
| Models.BookingText | studio/models.py:51-52 | Booking.__str__ is the client's name, " booked ", and the class's text |
| Models.BookingTextIdentifiesClass | studio/models.py:51-52 | for one client, two bookings have the same text exactly when they name the same class key |
| Models.StoredBookingText | studio/models.py:51-52 | the text of a stored booking exists exactly when its client and class rows exist, which a valid store guarantees |
| Orm.AfterCreateClient | studio/models.py:13-14 | Client.objects.create fails with nothing written exactly when the email is taken; otherwise appends a row with the next key |
| Orm.CreateClientKeepsValid | studio/models.py:13-14 | creating a client keeps the store valid, the unique email included |
| Orm.AfterCreateClass | studio/management/commands/seed_data.py:39-44 | FitnessClass.objects.create appends one row with the next key and the given fields, and changes no other table |
| Orm.AfterGetOrCreateByEmail | studio/serializers.py:179-182 | the returned key names a client holding the email; an existing client is reused with the store unchanged; otherwise exactly one client with the supplied name is appended; other tables unchanged |
| Orm.GetOrCreateByEmailKeepsValid | studio/serializers.py:179-182 | get_or_create by email keeps the store valid |
| Orm.AfterGetOrCreate | studio/management/commands/seed_data.py:34 | get_or_create(name, email): the pair ends up stored; the call fails exactly when the email belongs to a client with another name; a failure or an existing pair leaves the store unchanged; otherwise one row with the next key is appended |
| Orm.GetOrCreateKeepsValid | studio/management/commands/seed_data.py:34 | get_or_create by name and email keeps the store valid |
| Orm.CreateClassKeepsValid | studio/management/commands/seed_data.py:39-44 | creating a class with a non-negative slot count keeps the store valid |
| Orm.AfterSaveSlots | studio/serializers.py:188-189 | saving a new slot count rewrites one class row and keeps its key and the table's length |
| Orm.SaveSlotsKeepsValid | studio/serializers.py:188-189 | saving a non-negative slot count keeps the store valid, foreign keys included |
| Orm.AfterCreateBooking | studio/serializers.py:193 | Booking.objects.create appends one booking with the next key linking the given class and client, and changes no other table |
| Orm.CreateBookingKeepsValid | studio/serializers.py:193 | inserting a booking whose class and client exist keeps the store valid |
| Orm.Database.constructor | studio/models.py:5-49 | a new database is empty, with every counter at 1 |
| Orm.Database.CreateClient | studio/models.py:13-14 | the in-place insert has exactly the effect and result of AfterCreateClient |
| Orm.Database.GetOrCreateClientByEmail | studio/serializers.py:179-183 | the in-place get_or_create has exactly the effect of AfterGetOrCreateByEmail; `created` holds exactly when no client had the email |
| Orm.Database.GetOrCreateClient | studio/management/commands/seed_data.py:34 | the in-place get_or_create has exactly the effect of AfterGetOrCreate |
| Orm.Database.CreateClass | studio/management/commands/seed_data.py:39-44 | the in-place insert has exactly the effect of AfterCreateClass |
| Orm.Database.SaveClassSlots | studio/serializers.py:188-189 | the in-place save has exactly the effect of AfterSaveSlots |
| Orm.Database.CreateBooking | studio/serializers.py:193 | the in-place insert has exactly the effect of AfterCreateBooking |
| Serializers.Messages | studio/serializers.py:141-157 | a field-error response carries one message per field error, in order; each validate() refusal carries exactly its own message ("class_id is required.", "Fitness class does not exist.", "No slots available.") |
| Serializers.FieldMessages | studio/serializers.py:106-125 | the messages of field errors, one per error, in order |
| Serializers.TrimStart | studio/serializers.py:114-125 | a suffix of the input, preceded only by white space, and not starting with white space |
| Serializers.TrimEnd | studio/serializers.py:114-125 | a prefix of the input, followed only by white space, and not ending with white space |
| Serializers.Trim | studio/serializers.py:114-125 | the stripped text is empty exactly when the input is all white space; otherwise it neither starts nor ends with white space |
| Serializers.TrimIsSlice | studio/serializers.py:114-125 | the stripped text is a slice of the input with only white space around it |
| Serializers.TrimKeepsNul | studio/serializers.py:114-125 | stripping never removes a NUL character, so the NUL check sees the same text before and after stripping |
| Serializers.CheckText | studio/serializers.py:114-125 | an absent field is "This field is required.", a null one "This field may not be null."; a blank one (empty after stripping) gets the field's blank message; a text with a NUL character is "Null characters are not allowed."; otherwise the stripped, non-empty text is accepted |
| Serializers.CheckClassId | studio/serializers.py:106-113 | class_id is accepted exactly when it is an integer (`Integer(v)`: a JSON integer, or a float whose str() is plain decimal) or a string of at most 1000 characters that int() reads; absent gives "class_id is required.", null "This field may not be null.", a longer string "String value too large.", anything else "class_id must be a valid integer." |
| Serializers.CheckFields | studio/serializers.py:106-129 | the fields pass exactly when all three field rules pass, giving the stripped values and the integer read; otherwise at least one error is reported |
| Serializers.CheckFieldsReportsEach | studio/serializers.py:106-129 | a refused request carries exactly the errors of its failing fields, each once, in the order of Meta.fields |
| Serializers.ErrorsInFieldOrder | studio/serializers.py:129 | errors collected field by field come out in the order of Meta.fields, one per failing field |
| Serializers.Validate | studio/serializers.py:141-159 | refuses class_id 0, an unknown class and a class with no free slot, in that order and each exactly in its case; accepts exactly when the class exists with a free slot |
| Serializers.ValidatedClass | studio/serializers.py:175 | after validation the class row is found, and it has a free slot |
| Serializers.Create | studio/serializers.py:161-197 | create() returns the next booking key, adds one booking row and keeps the number of class rows; its full effect is CreateEffects and its validity CreateKeepsValid |
| Serializers.CreateKeepsValid | studio/serializers.py:171-197 | create() on validated data keeps the store valid |
| Serializers.Allocate | studio/serializers.py:131-197 | a refused request writes nothing |
| Serializers.AllocateKeepsValid | studio/serializers.py:131-197 | every request, accepted or refused, keeps slots non-negative, emails unique and foreign keys resolving |
| Serializers.Save | studio/serializers.py:171-197 | the in-place create() has exactly the effect and result of Create |
| Serializers.Book | studio/views.py:104-110 | the booking endpoint run on the database has exactly the effect and result of Allocate, and leaves the database valid |
| Serializers.AllocateAccepted | studio/serializers.py:131-197 | an accepted request passed the field rules and validate(), and its effect is create() on the validated data |
| Serializers.CreateEffects | studio/serializers.py:171-197 | create() takes one slot from the named class only, appends one booking with the next key for that class and the client holding the email, and leaves clients alone or appends exactly one |
| Serializers.AllocateRefusesMissingClassId | studio/serializers.py:141-144 | a missing class_id, or 0 with valid fields, is refused with "class_id is required." and nothing written |
| Serializers.AllocateRefusesUnknownClass | studio/serializers.py:145-151 | a valid request naming no stored class is refused as ClassNotFound with the store unchanged |
| Serializers.AllocateRefusesFullClass | studio/serializers.py:153-157 | a class with no free slot is refused as NoSlots with the store, its bookings and slots included, unchanged |
| Serializers.AllocateRefusesBlankField | studio/serializers.py:114-125 | a blank client_name or client_email is refused by the field rules with that field's blank message, whatever the store holds |
| Serializers.AllocateAcceptsOpenClass | studio/serializers.py:141-159 | a request is accepted exactly when its fields pass, class_id is not 0 and the class exists with a free slot |
| Serializers.AllocateTakesOneSlot | studio/serializers.py:188-189 | an accepted booking takes exactly one slot from the named class and no other class changes |
| Serializers.AllocateAddsOneBooking | studio/serializers.py:193 | an accepted booking appends exactly one booking, with the next key, for the class named and the client holding the email |
| Serializers.AllocateResolvesClient | studio/serializers.py:179-182 | an existing client with the email is reused unchanged; otherwise exactly one client with the supplied name and email is appended |
| Serializers.RepeatedEmailReusesClient | studio/serializers.py:179-182 | two accepted bookings with the same email add no second client and link the same client key |
| Views.InsertByStart | studio/views.py:83-85 | inserting into a sorted list keeps it sorted, adds exactly the one row and adds no other |
| Views.SortByStart | studio/views.py:83-85 | order_by("start_time") gives a list sorted by start time that is a permutation of the input |
| Views.UpcomingClasses | studio/views.py:80-85 | every listed class starts at or after now; the list is ascending by start time; it holds every such class, and each exactly as often as the table does |
| Views.BookingsByEmail | studio/views.py:128-134 | no email or an empty one gives an empty list; otherwise exactly the bookings whose client holds that email |
| Views.BookingsByEmailNewestFirst | studio/views.py:134 | in a valid store the listed bookings have strictly descending keys |
| Views.Summaries | studio/serializers.py:20-22 | each client is shown by its name and email, in order |
| Views.ClientList | studio/views.py:33-35 | the client list has one entry per stored client, every client appears, and every entry comes from a client |
| Views.ClientListEmailsDistinct | studio/views.py:33-35 | in a valid store no email appears twice in the client list |
| SeedData.ClientRoundSeeded | studio/management/commands/seed_data.py:31-34 | a successful get_or_create round extends the client loop's state by one email |
| SeedData.ClientRoundConflict | studio/management/commands/seed_data.py:34 | a failing round meets a client stored before the loop that holds the email under another name |
| SeedData.SeedClients | studio/management/commands/seed_data.py:31-34 | the loop completes exactly when no stored client holds one of the emails under another name; then every pair is stored, at most one row per email is added, and no other table changes; otherwise it stops at the first email a client stored before the loop holds under another name, after the rounds before it; the store stays valid |
| SeedData.ClassRound | studio/management/commands/seed_data.py:38-44 | one class round appends exactly the row built from its inputs, with the next key |
| SeedData.SeedClasses | studio/management/commands/seed_data.py:37-44 | the loop appends one row per round with consecutive keys, the chosen type, instructor, slots and start time, and changes nothing else; the store stays valid |
| SeedData.SeededClassesInRange | studio/management/commands/seed_data.py:40-43 | with randint's ranges each seeded class has the next consecutive key, 5 to 20 slots, and starts 1 to 10 days after its clock reading |
| SeedData.BookingRoundState | studio/management/commands/seed_data.py:51-56 | a booking round changes neither the clients nor the number of classes |
| SeedData.BookingRoundEffect | studio/management/commands/seed_data.py:51-56 | a round with a free slot appends one booking with the next key for that class and client, and takes one slot from that row; a full class leaves the store unchanged; no other class row changes |
| SeedData.BookingRoundAccounts | studio/management/commands/seed_data.py:53-56 | a round books only into a class with a free slot and takes exactly one slot from it, so each class's slot loss still equals its new bookings |
| SeedData.BookingRoundKeepsValid | studio/management/commands/seed_data.py:53-56 | a booking round keeps the store valid; slots never go below zero |
| SeedData.BookedRoundKeepsValid | studio/management/commands/seed_data.py:53-56 | the insert and the saved decrement of a round that books keep the store valid |
| SeedData.BookingsAfter | studio/management/commands/seed_data.py:47-56 | the booking rounds change neither the clients nor the number of classes, so every pick is made from the same lists |
| SeedData.BookingsAfterRound | studio/management/commands/seed_data.py:50-56 | round t books the client chosen by clientPicks[t-1] into the class row chosen by classPicks[t-1] when it has a free slot, changing only that row and the booking table; otherwise round t changes nothing |
| SeedData.BookingsAfterValid | studio/management/commands/seed_data.py:50-56 | after any number of booking rounds the store is valid |
| SeedData.BookingsAfterAccounts | studio/management/commands/seed_data.py:50-56 | after t rounds at most t bookings were added, rows changed only in slot counts, and each class lost exactly as many slots as it received new bookings |
| SeedData.BookRound | studio/management/commands/seed_data.py:51-56 | the in-place round has exactly the effect of BookingRoundState |
| SeedData.SeedBookings | studio/management/commands/seed_data.py:46-56 | the loop ends in BookingsAfter of its picks; the store is valid and the slot accounting holds |
| SeedData.SeededClientsNonEmpty | studio/management/commands/seed_data.py:31-34 | after the client loop with at least one pair, the client table is not empty, so the booking loop's random.choice has a client to pick |
| SeedData.Handle | studio/management/commands/seed_data.py:29-58 | the command stops at a client conflict exactly when one exists, naming the first conflicting email and leaving the rounds before it; otherwise it runs the client, class and booking loops in order with their guarantees (five classes within randint's ranges, at most fifteen bookings, slots lost equal to bookings per class), and leaves the store valid |

## Left out

- Timezone conversion and formatting in `FitnessClassSerializer.get_start_time_local` (studio/serializers.py:69-81): pytz, the timezone database and strftime are outside the model.
- `EmailField`'s syntax check (studio/serializers.py:120) is a library regular expression; an email is an opaque string.
- `max_length` limits on `name`, `instructor` and `class_name` are not modelled.
- Inputs to the text fields that are neither absent, null nor a string (JSON numbers, lists or objects) are not modelled.
- Serializers.CheckClassId: how `int()` reads a string is not modelled. A string input carries the value `int()` gives it, or none, as part of the input. Non-integral numbers are `NotAnInteger`, and so are integral floats whose str() is in exponent form (1e16 gives "1e+16", which the regular expression refuses).
- `ProhibitSurrogateCharactersValidator` on the text fields is not modelled: a Dafny `char` is a Unicode scalar value and cannot hold a lone surrogate.
- A store error other than a missing row (a lost connection, a failed insert inside `create()`) propagates from the view as a generic server failure; the model's store operations do not fail.
- Serializers.CheckText: for client_email, a text that `EmailValidator` refuses would also carry "Enter a valid email address."; the model keeps at most one error per field.
- Serializers.Validate: class_id is an unbounded integer. The database key column is bounded, and a lookup with a key beyond its range is not modelled.
- Logging, HTTP routing, status codes and the DRF plumbing (studio/urls.py, `CreateFitnessClass.perform_create`) are not modelled. `CreateFitnessClassSerializer` is left out for the same reason. The store's class insert it relies on is `Orm.AfterCreateClass`.
- The check-then-act race between `validate()` and `create()` under concurrent requests is not modelled. Each request is one sequential step.
- Faker, `random` and `timezone.now()` are inputs to `SeedData.Handle`, not modelled randomness. `fake.unique.email()` is the requirement that the emails are distinct.
- `random.choice` on an empty list raises `IndexError`. `SeedData.SeedBookings` requires both lists to be non-empty, which `SeedData.Handle` guarantees.
- The success message written to stdout by the command is not modelled.
- Views.SortByStart: that rows with equal start times keep primary-key order is not proved, because the database gives no order for ties.
- Serializers.AllocateRefusesUnknownClass and Serializers.AllocateRefusesFullClass state the error kind, not the message text. `Serializers.Messages` maps each kind to its one message.
- Orm.AfterSaveSlots states only that the row keeps its key. Its new slot count is what `Orm.Database.SaveClassSlots`, `Serializers.CreateEffects` and `SeedData.BookingRoundAccounts` state.
