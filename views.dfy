/** The three list endpoints: each is a read-only query over the store, so
    each is a function of the store value and none can change it. */
module Views {
  import opened Wrappers
  import opened Seqs
  import opened Models

  /** Ascending by start time. */
  predicate SortedByStart(s: seq<FitnessClass>) {
    forall i, j :: 0 <= i < j < |s| ==> s[i].startTime <= s[j].startTime
  }

  /** `x` placed before the first row that starts no earlier than it. */
  function InsertByStart(x: FitnessClass, s: seq<FitnessClass>): (r: seq<FitnessClass>)
    requires SortedByStart(s)
    ensures SortedByStart(r)
    ensures forall y :: y in r ==> y == x || y in s
    ensures multiset(r) == multiset(s) + multiset{x}
  {
    if s == [] then [x]
    else if x.startTime <= s[0].startTime then
      SortedCons(x, s);
      [x] + s
    else
      SortedSplit(s);
      var t := InsertByStart(x, s[1..]);
      SortedCons(s[0], t);
      assert s == [s[0]] + s[1..];
      [s[0]] + t
  }

  lemma SortedSplit(s: seq<FitnessClass>)
    requires s != [] && SortedByStart(s)
    ensures SortedByStart(s[1..])
    ensures forall y :: y in s[1..] ==> s[0].startTime <= y.startTime
  {
    forall y | y in s[1..] ensures s[0].startTime <= y.startTime {
      var j :| 0 <= j < |s[1..]| && s[1..][j] == y;
      assert y == s[j + 1];
    }
  }

  lemma SortedCons(x: FitnessClass, t: seq<FitnessClass>)
    requires SortedByStart(t)
    requires forall y :: y in t ==> x.startTime <= y.startTime
    ensures SortedByStart([x] + t)
  {
    var r := [x] + t;
    forall i, j | 0 <= i < j < |r| ensures r[i].startTime <= r[j].startTime {
      assert r[j] == t[j - 1];
      if i == 0 {
        assert t[j - 1] in t;
      } else {
        assert r[i] == t[i - 1];
      }
    }
  }

  /** order_by("start_time"), by insertion; rows with equal start times keep
      their primary-key order. */
  function SortByStart(s: seq<FitnessClass>): (r: seq<FitnessClass>)
    ensures SortedByStart(r)
    ensures multiset(r) == multiset(s)
  {
    if s == [] then []
    else
      assert s == [s[0]] + s[1..];
      InsertByStart(s[0], SortByStart(s[1..]))
  }

  /** FitnessClassList.get_queryset: the classes starting at or after `now`,
      earliest first. No upcoming class is left out and none is listed twice. */
  function UpcomingClasses(s: Store, now: int): (r: seq<FitnessClass>)
    ensures forall c :: c in r ==> c.startTime >= now
    ensures SortedByStart(r)
    ensures forall c :: c in r <==> c in s.classes && c.startTime >= now
    ensures forall c :: multiset(r)[c] == if c.startTime >= now then multiset(s.classes)[c] else 0
  {
    var p := (c: FitnessClass) => c.startTime >= now;
    FilterCounts(s.classes, p);
    var r := SortByStart(Filter(s.classes, p));
    assert forall c :: c in r <==> c in multiset(r);
    r
  }

  /** The booking's client row exists and holds `email` (the join client__email). */
  predicate BookedWithEmail(s: Store, email: string, b: Booking) {
    exists c :: c in s.clients && c.id == b.clientId && c.email == email
  }

  /** BookingListByEmail.get_queryset: nothing when the email query
      parameter is missing or empty; otherwise the bookings of the client with
      that email, newest (highest key) first. */
  function BookingsByEmail(s: Store, email: Option<string>): (r: seq<Booking>)
    ensures email.None? || email.value == [] ==> r == []
    ensures forall b :: b in r <==>
      email.Some? && email.value != [] && b in s.bookings && BookedWithEmail(s, email.value, b)
  {
    match email
    case None => []
    case Some(e) =>
      if e == [] then []
      else
        var matching := Filter(s.bookings, (b: Booking) => BookedWithEmail(s, e, b));
        var r := Reverse(matching);
        assert forall b :: b in r <==> b in matching by {
          forall b ensures b in r <==> b in matching {
            if b in matching {
              var i :| 0 <= i < |matching| && matching[i] == b;
              assert r[|matching| - 1 - i] == b;
            }
          }
        }
        r
  }

  /** In a valid store the bookings listed for an email have strictly
      descending keys. */
  lemma BookingsByEmailNewestFirst(s: Store, email: Option<string>)
    requires Valid(s)
    ensures var r := BookingsByEmail(s, email);
      forall i, j :: 0 <= i < j < |r| ==> r[i].id > r[j].id
  {
    if email.Some? && email.value != [] {
      var p := (b: Booking) => BookedWithEmail(s, email.value, b);
      FilterKeepsIncreasing(s.bookings, p, BookingKey);
      var matching := Filter(s.bookings, p);
      var r := BookingsByEmail(s, email);
      assert r == Reverse(matching);
      forall i, j | 0 <= i < j < |r| ensures r[i].id > r[j].id {
        assert r[i] == matching[|matching| - 1 - i] && r[j] == matching[|matching| - 1 - j];
      }
    }
  }

  /** What GetClientSerializer shows of a client. */
  datatype ClientSummary = ClientSummary(name: string, email: string)

  function Summary(c: Client): ClientSummary {
    ClientSummary(c.name, c.email)
  }

  /** GetClientList.get_queryset: every stored client, in key order. */
  function ClientList(s: Store): (r: seq<ClientSummary>)
    ensures |r| == |s.clients|
    ensures forall c :: c in s.clients ==> Summary(c) in r
    ensures forall x :: x in r ==> exists c :: c in s.clients && Summary(c) == x
  {
    Summaries(s.clients)
  }

  function Summaries(cs: seq<Client>): (r: seq<ClientSummary>)
    ensures |r| == |cs| && forall i :: 0 <= i < |cs| ==> r[i] == Summary(cs[i])
  {
    if cs == [] then [] else [Summary(cs[0])] + Summaries(cs[1..])
  }

  /** In a valid store no email appears twice in the client list. */
  lemma ClientListEmailsDistinct(s: Store)
    requires Valid(s)
    ensures var r := ClientList(s);
      forall i, j :: 0 <= i < j < |r| ==> r[i].email != r[j].email
  {
    var r := ClientList(s);
    forall i, j | 0 <= i < j < |r| ensures r[i].email != r[j].email {
      assert r[i] == Summary(s.clients[i]) && r[j] == Summary(s.clients[j]);
      assert ClientEmail(s.clients[i]) != ClientEmail(s.clients[j]);
    }
  }
}
