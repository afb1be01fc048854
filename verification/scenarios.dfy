/**
 * A worked booking sequence for one doctor: 10:00 is booked, 10:15 and
 * 10:29 clash with it, 10:30 is exactly 30 minutes later and is accepted,
 * a third upcoming booking for the same phone is refused, and a time
 * before the clock is refused whatever the other rules say.
 */
module Scenarios {
  import opened Wrappers
  import opened Records
  import opened IsoText
  import opened Filtering
  import opened Rules

  const NowIso: string := "2026-10-11T09:00:00.000000"
  const Doctors: seq<Doctor> := [Doctor(1, "Dr. Rao", "General Practice")]
  const Alice: Appointment := Appointment("a1", 1, "Alice", "2099-01-01T10:00:00", "555-1000", Scheduled)
  const Carol: Appointment := Appointment("a3", 1, "Carol", "2099-01-01T10:30:00", "555-1000", Scheduled)

  /** Booking 10:00 into an empty calendar succeeds. */
  lemma ScenarioFirstBooking(parse: Parser, now: int, t0: int)
    requires parse(Alice.datetime) == Some(t0) && now <= t0
    ensures Book(parse, Doctors, [], 1, "Alice", Alice.datetime, "555-1000", now, NowIso, "a1") == Success(Alice)
  {
    assert Doctors[0].doctorId == 1;
  }

  /** A booking 15 minutes after 10:00 clashes. */
  lemma ScenarioFifteenMinutes(parse: Parser, now: int, t0: int)
    requires parse(Alice.datetime) == Some(t0) && now <= t0 && WindowInRange(t0)
    requires parse("2099-01-01T10:15:00") == Some(t0 + 15 * Minute)
    ensures Book(parse, Doctors, [Alice], 1, "Bob", "2099-01-01T10:15:00", "555-2000", now, NowIso, "a2") == Failure(SchedulingConflict)
  {
    assert Doctors[0].doctorId == 1;
    NotUpcomingElsewhere(Alice, "555-2000");
    ScanOne(parse, Alice, t0, t0 + 15 * Minute);
  }

  /** A booking 29 minutes after 10:00 still clashes: the window is closed at both ends. */
  lemma ScenarioTwentyNineMinutes(parse: Parser, now: int, t0: int)
    requires parse(Alice.datetime) == Some(t0) && now <= t0 && WindowInRange(t0)
    requires parse("2099-01-01T10:29:00") == Some(t0 + 29 * Minute)
    ensures Book(parse, Doctors, [Alice], 1, "Bob", "2099-01-01T10:29:00", "555-2000", now, NowIso, "a2") == Failure(SchedulingConflict)
  {
    assert Doctors[0].doctorId == 1;
    NotUpcomingElsewhere(Alice, "555-2000");
    ScanOne(parse, Alice, t0, t0 + 29 * Minute);
  }

  /** A booking exactly 30 minutes after 10:00, for the same phone, is accepted. */
  lemma ScenarioThirtyMinutes(parse: Parser, now: int, t0: int)
    requires parse(Alice.datetime) == Some(t0) && now <= t0 && WindowInRange(t0)
    requires parse(Carol.datetime) == Some(t0 + 30 * Minute)
    ensures Book(parse, Doctors, [Alice], 1, "Carol", Carol.datetime, "555-1000", now, NowIso, "a3") == Success(Carol)
  {
    assert Doctors[0].doctorId == 1;
    OneUpcoming(Alice);
    ScanOne(parse, Alice, t0, t0 + 30 * Minute);
    assert !InWindow(t0, t0 + 30 * Minute);
    assert ScanConflict(parse, [Alice], 1, t0 + 30 * Minute) == Clear;
    assert DoctorExists(Doctors, 1);
    assert |PhoneUpcoming([Alice], Carol.phoneNumber, NowIso)| < 2;
    BookSucceedsExactly(parse, Doctors, [Alice], 1, "Carol", Carol.datetime, "555-1000", now, NowIso, "a3");
    ScanClearIff(parse, [Alice], 1, t0 + 30 * Minute);
  }

  /** Scanning a single record of doctor 1 that parses to `e`. */
  lemma ScanOne(parse: Parser, a: Appointment, e: int, t: int)
    requires a.doctorId == 1 && parse(a.datetime) == Some(e) && WindowInRange(e)
    ensures ScanConflict(parse, [a], 1, t) == if InWindow(e, t) then Clash else Clear
  {
    assert [a][1..] == [];
  }

  /** A third upcoming booking for phone 555-1000 is refused. */
  lemma ScenarioPhoneLimit(parse: Parser, now: int, t0: int)
    requires parse("2099-01-01T11:00:00") == Some(t0 + 60 * Minute) && now <= t0
    ensures Book(parse, Doctors, [Alice, Carol], 1, "Dave", "2099-01-01T11:00:00", "555-1000", now, NowIso, "a4") == Failure(PhoneLimitExceeded)
  {
    TwoUpcoming();
  }

  /** A time before the clock is refused as past even when the doctor is unknown. */
  lemma ScenarioPast(parse: Parser, now: int, past: int)
    requires parse("2020-01-01T10:00:00") == Some(past) && past < now
    ensures Book(parse, Doctors, [Alice, Carol], 2, "Eve", "2020-01-01T10:00:00", "555-1000", now, NowIso, "a5") == Failure(PastDateTime)
  {
  }

  lemma NotUpcomingElsewhere(a: Appointment, phone: string)
    requires a.phoneNumber != phone
    ensures PhoneUpcoming([a], phone, NowIso) == []
  {
    FilterCons(a, [], IsUpcomingFor(phone, NowIso));
  }

  lemma OneUpcoming(a: Appointment)
    requires a == Alice
    ensures |PhoneUpcoming([a], "555-1000", NowIso)| == 1
  {
    AfterNow();
    FilterCons(a, [], IsUpcomingFor("555-1000", NowIso));
  }

  lemma TwoUpcoming()
    ensures |PhoneUpcoming([Alice, Carol], "555-1000", NowIso)| == 2
  {
    AfterNow();
    var keep := IsUpcomingFor("555-1000", NowIso);
    FilterCons(Alice, [Carol], keep);
    FilterCons(Carol, [], keep);
    assert [Alice, Carol] == [Alice] + [Carol];
  }

  /** Both 2099 bookings are upcoming against the 2026 clock text. */
  lemma AfterNow()
    ensures StrLe(NowIso, Alice.datetime) && StrLe(NowIso, Carol.datetime)
  {
    assert NowIso[2] < Alice.datetime[2];
    assert NowIso[..2] == Alice.datetime[..2] == Carol.datetime[..2];
    LessAtFirstDifference(NowIso, Alice.datetime, 2);
    LessAtFirstDifference(NowIso, Carol.datetime, 2);
  }

  /** Strings that agree up to position `k` and differ there compare by that character. */
  lemma {:induction false} LessAtFirstDifference(a: string, b: string, k: nat)
    requires k < |a| && k < |b| && a[..k] == b[..k] && a[k] < b[k]
    ensures StrLe(a, b)
  {
    if k > 0 {
      assert a[0] == a[..k][0] == b[..k][0] == b[0];
      assert a[1..][..k - 1] == a[..k][1..] == b[..k][1..] == b[1..][..k - 1];
      LessAtFirstDifference(a[1..], b[1..], k - 1);
    }
  }
}
