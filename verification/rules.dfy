/**
 * The booking rules of `AppointmentScheduler`, as functions of the stored
 * records: the conflict scan of `_is_conflict`, the ordered checks of
 * `add_appointment`, the filter of `cancel_appointment`, and the
 * consistency conditions that bookings and cancellations keep.
 */
module Rules {
  import opened Wrappers
  import opened Records
  import opened IsoText
  import opened Filtering
  import opened Ordering

  /**
   * Why a booking is refused. The first five are the refusals
   * `add_appointment` returns. The last two are exceptions `_is_conflict`
   * raises on a stored record of the same doctor: StoredDateTimeUnreadable
   * the ValueError of a datetime Python cannot parse, WindowOutOfRange the
   * OverflowError of a window that runs past `datetime.min` or `datetime.max`.
   */
  datatype BookingError =
    | InvalidDateTime
    | PastDateTime
    | PhoneLimitExceeded
    | DoctorNotFound
    | SchedulingConflict
    | StoredDateTimeUnreadable
    | WindowOutOfRange

  /** How the scan of `_is_conflict` ends: no clash, a clash, the ValueError or the OverflowError. */
  datatype Scan = Clear | Clash | Unreadable | OutOfRange

  /** `t` lies in the closed window from 29 minutes before `e` to 29 minutes after it. */
  predicate InWindow(e: int, t: int)
  {
    e - Gap <= t <= e + Gap
  }

  /** `existing_dt - gap` and `existing_dt + gap` both stay within Python's datetime range. */
  predicate WindowInRange(e: int)
  {
    MinInstant <= e - Gap && e + Gap <= MaxInstant
  }

  /**
   * The loop of `_is_conflict`: the first record of the doctor whose datetime
   * fails to parse, whose window overflows, or whose window holds `t` decides.
   */
  function ScanConflict(parse: Parser, s: seq<Appointment>, doctorId: int, t: int): Scan
  {
    if s == [] then Clear
    else if s[0].doctorId != doctorId then ScanConflict(parse, s[1..], doctorId, t)
    else match parse(s[0].datetime)
      case None => Unreadable
      case Some(e) =>
        if !WindowInRange(e) then OutOfRange
        else if InWindow(e, t) then Clash
        else ScanConflict(parse, s[1..], doctorId, t)
  }

  /** Every record of the doctor parses, has a window within range, and lies outside the window around `t`. */
  ghost predicate FreeSlot(parse: Parser, s: seq<Appointment>, doctorId: int, t: int)
  {
    forall i :: 0 <= i < |s| && s[i].doctorId == doctorId ==>
      parse(s[i].datetime).Some? && WindowInRange(parse(s[i].datetime).value)
      && !InWindow(parse(s[i].datetime).value, t)
  }

  /** Every stored datetime parses. */
  ghost predicate AllParse(parse: Parser, s: seq<Appointment>)
  {
    forall i :: 0 <= i < |s| ==> parse(s[i].datetime).Some?
  }

  /** Every stored datetime parses and lies at least 29 minutes inside the datetime range. */
  ghost predicate AllScannable(parse: Parser, s: seq<Appointment>)
  {
    forall i :: 0 <= i < |s| ==> parse(s[i].datetime).Some? && WindowInRange(parse(s[i].datetime).value)
  }

  /** The scan finds nothing exactly when the slot is free. */
  lemma {:induction false} ScanClearIff(parse: Parser, s: seq<Appointment>, doctorId: int, t: int)
    ensures ScanConflict(parse, s, doctorId, t) == Clear <==> FreeSlot(parse, s, doctorId, t)
  {
    if s != [] {
      ScanClearIff(parse, s[1..], doctorId, t);
      if FreeSlot(parse, s[1..], doctorId, t) {
        if s[0].doctorId != doctorId
           || (parse(s[0].datetime).Some? && WindowInRange(parse(s[0].datetime).value)
               && !InWindow(parse(s[0].datetime).value, t)) {
          forall i | 0 <= i < |s| && s[i].doctorId == doctorId
            ensures parse(s[i].datetime).Some? && WindowInRange(parse(s[i].datetime).value)
              && !InWindow(parse(s[i].datetime).value, t)
          {
            if i > 0 { assert s[i] == s[1..][i - 1]; }
          }
        }
      } else {
        var i :| 0 <= i < |s[1..]| && s[1..][i].doctorId == doctorId &&
          !(parse(s[1..][i].datetime).Some? && WindowInRange(parse(s[1..][i].datetime).value)
            && !InWindow(parse(s[1..][i].datetime).value, t));
        assert s[i + 1] == s[1..][i];
      }
    }
  }

  /**
   * With every stored datetime readable and inside the range, `_is_conflict(d, t)`
   * raises nothing and is true exactly when some record of `d` at instant `e`
   * has `e - 29 min <= t <= e + 29 min`.
   */
  lemma {:induction false} ConflictExactly(parse: Parser, s: seq<Appointment>, doctorId: int, t: int)
    requires AllScannable(parse, s)
    ensures ScanConflict(parse, s, doctorId, t) != Unreadable
    ensures ScanConflict(parse, s, doctorId, t) != OutOfRange
    ensures ScanConflict(parse, s, doctorId, t) == Clash <==>
      exists i :: 0 <= i < |s| && s[i].doctorId == doctorId && InWindow(parse(s[i].datetime).value, t)
  {
    ScanRaisesOnlyOnBadRecord(parse, s, doctorId, t);
    ScanClearIff(parse, s, doctorId, t);
  }

  /**
   * The scan raises only because of a record of the doctor: ValueError when
   * its datetime does not parse, OverflowError when its window leaves the range.
   */
  lemma {:induction false} ScanRaisesOnlyOnBadRecord(parse: Parser, s: seq<Appointment>, doctorId: int, t: int)
    ensures ScanConflict(parse, s, doctorId, t) == Unreadable ==>
      exists i :: 0 <= i < |s| && s[i].doctorId == doctorId && parse(s[i].datetime).None?
    ensures ScanConflict(parse, s, doctorId, t) == OutOfRange ==>
      exists i :: 0 <= i < |s| && s[i].doctorId == doctorId && parse(s[i].datetime).Some?
        && !WindowInRange(parse(s[i].datetime).value)
  {
    if s != [] {
      ScanRaisesOnlyOnBadRecord(parse, s[1..], doctorId, t);
      var r := ScanConflict(parse, s, doctorId, t);
      if r == ScanConflict(parse, s[1..], doctorId, t) && (r == Unreadable || r == OutOfRange) {
        if r == Unreadable {
          var i :| 0 <= i < |s[1..]| && s[1..][i].doctorId == doctorId && parse(s[1..][i].datetime).None?;
          assert s[i + 1] == s[1..][i];
        } else {
          var i :| 0 <= i < |s[1..]| && s[1..][i].doctorId == doctorId && parse(s[1..][i].datetime).Some?
            && !WindowInRange(parse(s[1..][i].datetime).value);
          assert s[i + 1] == s[1..][i];
        }
      }
    }
  }

  /** Selects the records of `phone` whose datetime string is not below `nowIso`. */
  function IsUpcomingFor(phone: string, nowIso: string): Appointment -> bool
  {
    (a: Appointment) => a.phoneNumber == phone && StrLe(nowIso, a.datetime)
  }

  /** The list `upcoming_appts_for_phone` of `add_appointment`. */
  function PhoneUpcoming(s: seq<Appointment>, phone: string, nowIso: string): seq<Appointment>
  {
    Filter(s, IsUpcomingFor(phone, nowIso))
  }

  /** Selects the records whose datetime string is not below `nowIso`. */
  function IsUpcoming(nowIso: string): Appointment -> bool
  {
    (a: Appointment) => StrLe(nowIso, a.datetime)
  }

  /** `any(doc['doctor_id'] == doctor_id for doc in self.doctors)`. */
  predicate DoctorExists(doctors: seq<Doctor>, doctorId: int)
  {
    exists i :: 0 <= i < |doctors| && doctors[i].doctorId == doctorId
  }

  /**
   * The outcome of `add_appointment` on the stored records `s`: `now` is the
   * instant read for the past-date check, `nowIso` the `isoformat()` text
   * read for the phone limit, and `freshId` the identifier uuid4 would give.
   */
  function Book(parse: Parser, doctors: seq<Doctor>, s: seq<Appointment>,
                doctorId: int, patientName: string, dtString: string, phoneNumber: string,
                now: int, nowIso: string, freshId: string): Result<Appointment, BookingError>
  {
    match parse(dtString)
    case None => Failure(InvalidDateTime)
    case Some(t) =>
      if t < now then Failure(PastDateTime)
      else if |PhoneUpcoming(s, phoneNumber, nowIso)| >= 2 then Failure(PhoneLimitExceeded)
      else if !DoctorExists(doctors, doctorId) then Failure(DoctorNotFound)
      else match ScanConflict(parse, s, doctorId, t)
        case Clash => Failure(SchedulingConflict)
        case Unreadable => Failure(StoredDateTimeUnreadable)
        case OutOfRange => Failure(WindowOutOfRange)
        case Clear => Success(Appointment(freshId, doctorId, patientName, dtString, phoneNumber, Scheduled))
  }

  /**
   * The checks run in the order format, past date, phone limit, doctor,
   * conflict, and the first that fails decides the refusal.
   */
  lemma BookChecksInOrder(parse: Parser, doctors: seq<Doctor>, s: seq<Appointment>,
                          doctorId: int, patientName: string, dtString: string, phoneNumber: string,
                          now: int, nowIso: string, freshId: string)
    ensures var r := Book(parse, doctors, s, doctorId, patientName, dtString, phoneNumber, now, nowIso, freshId);
      && (r == Failure(InvalidDateTime) <==> parse(dtString).None?)
      && (r == Failure(PastDateTime) <==> parse(dtString).Some? && parse(dtString).value < now)
      && (r == Failure(PhoneLimitExceeded) <==>
            parse(dtString).Some? && parse(dtString).value >= now
            && |PhoneUpcoming(s, phoneNumber, nowIso)| >= 2)
      && (r == Failure(DoctorNotFound) <==>
            parse(dtString).Some? && parse(dtString).value >= now
            && |PhoneUpcoming(s, phoneNumber, nowIso)| < 2
            && !DoctorExists(doctors, doctorId))
      && (AllScannable(parse, s) ==>
            (r == Failure(SchedulingConflict) <==>
              parse(dtString).Some? && parse(dtString).value >= now
              && |PhoneUpcoming(s, phoneNumber, nowIso)| < 2
              && DoctorExists(doctors, doctorId)
              && exists i :: 0 <= i < |s| && s[i].doctorId == doctorId
                   && InWindow(parse(s[i].datetime).value, parse(dtString).value)))
  {
    if parse(dtString).Some? && AllScannable(parse, s) {
      ConflictExactly(parse, s, doctorId, parse(dtString).value);
    }
  }

  /**
   * A booking succeeds exactly when every check passes, and then it is the
   * requested record with status "scheduled" and the fresh identifier.
   */
  lemma BookSucceedsExactly(parse: Parser, doctors: seq<Doctor>, s: seq<Appointment>,
                            doctorId: int, patientName: string, dtString: string, phoneNumber: string,
                            now: int, nowIso: string, freshId: string)
    ensures var r := Book(parse, doctors, s, doctorId, patientName, dtString, phoneNumber, now, nowIso, freshId);
      && (r.Success? <==>
            parse(dtString).Some? && parse(dtString).value >= now
            && |PhoneUpcoming(s, phoneNumber, nowIso)| < 2
            && DoctorExists(doctors, doctorId)
            && FreeSlot(parse, s, doctorId, parse(dtString).value))
      && (r.Success? ==>
            r.value == Appointment(freshId, doctorId, patientName, dtString, phoneNumber, Scheduled))
  {
    if parse(dtString).Some? {
      ScanClearIff(parse, s, doctorId, parse(dtString).value);
    }
  }

  /** Two records of one doctor whose datetimes both parse are more than 29 minutes apart. */
  function Apart(parse: Parser): (Appointment, Appointment) -> bool
  {
    (a: Appointment, b: Appointment) =>
      a.doctorId == b.doctorId && parse(a.datetime).Some? && parse(b.datetime).Some? ==>
        !InWindow(parse(a.datetime).value, parse(b.datetime).value)
  }

  function DistinctIds(): (Appointment, Appointment) -> bool
  {
    (a: Appointment, b: Appointment) => a.appointmentId != b.appointmentId
  }

  /** No two bookings of one doctor fall within 29 minutes of each other. */
  ghost predicate NoOverlap(parse: Parser, s: seq<Appointment>)
  {
    Pairwise(s, Apart(parse))
  }

  ghost predicate UniqueIds(s: seq<Appointment>)
  {
    Pairwise(s, DistinctIds())
  }

  ghost predicate DoctorsKnown(doctors: seq<Doctor>, s: seq<Appointment>)
  {
    forall i :: 0 <= i < |s| ==> DoctorExists(doctors, s[i].doctorId)
  }

  /** The conditions every booking and cancellation keeps. */
  ghost predicate Consistent(parse: Parser, doctors: seq<Doctor>, s: seq<Appointment>)
  {
    AllParse(parse, s) && NoOverlap(parse, s) && UniqueIds(s) && DoctorsKnown(doctors, s)
  }

  ghost predicate IdUnused(s: seq<Appointment>, id: string)
  {
    forall i :: 0 <= i < |s| ==> s[i].appointmentId != id
  }

  /** A successful booking keeps the doctor's bookings more than 29 minutes apart. */
  lemma BookKeepsNoOverlap(parse: Parser, doctors: seq<Doctor>, s: seq<Appointment>,
                           doctorId: int, patientName: string, dtString: string, phoneNumber: string,
                           now: int, nowIso: string, freshId: string, a: Appointment)
    requires NoOverlap(parse, s)
    requires Book(parse, doctors, s, doctorId, patientName, dtString, phoneNumber, now, nowIso, freshId) == Success(a)
    ensures NoOverlap(parse, s + [a])
  {
    var t := parse(dtString).value;
    ScanClearIff(parse, s, doctorId, t);
    forall i | 0 <= i < |s|
      ensures Apart(parse)(s[i], a)
    {
    }
    PairwiseSnoc(s, a, Apart(parse));
  }

  /**
   * After a successful booking the record's doctor exists, its instant is
   * not before `now`, and its phone has at most two upcoming bookings.
   */
  lemma BookEnforcesRules(parse: Parser, doctors: seq<Doctor>, s: seq<Appointment>,
                          doctorId: int, patientName: string, dtString: string, phoneNumber: string,
                          now: int, nowIso: string, freshId: string, a: Appointment)
    requires Book(parse, doctors, s, doctorId, patientName, dtString, phoneNumber, now, nowIso, freshId) == Success(a)
    ensures DoctorExists(doctors, a.doctorId)
    ensures parse(a.datetime).Some? && parse(a.datetime).value >= now
    ensures |PhoneUpcoming(s + [a], phoneNumber, nowIso)| <= 2
  {
    FilterAppend(s, [a], IsUpcomingFor(phoneNumber, nowIso));
  }

  /** A successful booking with an unused identifier keeps every consistency condition. */
  lemma BookKeepsConsistent(parse: Parser, doctors: seq<Doctor>, s: seq<Appointment>,
                            doctorId: int, patientName: string, dtString: string, phoneNumber: string,
                            now: int, nowIso: string, freshId: string, a: Appointment)
    requires Consistent(parse, doctors, s) && IdUnused(s, freshId)
    requires Book(parse, doctors, s, doctorId, patientName, dtString, phoneNumber, now, nowIso, freshId) == Success(a)
    ensures Consistent(parse, doctors, s + [a])
  {
    BookKeepsNoOverlap(parse, doctors, s, doctorId, patientName, dtString, phoneNumber, now, nowIso, freshId, a);
    BookEnforcesRules(parse, doctors, s, doctorId, patientName, dtString, phoneNumber, now, nowIso, freshId, a);
    PairwiseSnoc(s, a, DistinctIds());
    var s' := s + [a];
    forall i | 0 <= i < |s'|
      ensures parse(s'[i].datetime).Some? && DoctorExists(doctors, s'[i].doctorId)
    {
      if i < |s| { assert s'[i] == s[i]; }
    }
  }

  /** Selects the records whose identifier differs from `id`. */
  function NotId(id: string): Appointment -> bool
  {
    (a: Appointment) => a.appointmentId != id
  }

  /** `cancel_appointment`: drops exactly the records with identifier `id`. */
  function Remaining(s: seq<Appointment>, id: string): (r: seq<Appointment>)
    ensures forall x {:trigger multiset(r)[x]} ::
      multiset(r)[x] == if x.appointmentId == id then 0 else multiset(s)[x]
  {
    Filter(s, NotId(id))
  }

  /** Cancelling keeps the other records in their original order. */
  lemma CancelKeepsOrder(s1: seq<Appointment>, s2: seq<Appointment>, id: string)
    ensures Remaining(s1 + s2, id) == Remaining(s1, id) + Remaining(s2, id)
  {
    FilterAppend(s1, s2, NotId(id));
  }

  /** Cancelling reports success exactly when some record carried the identifier. */
  lemma CancelReportsRemoval(s: seq<Appointment>, id: string)
    ensures |Remaining(s, id)| < |s| <==> exists i :: 0 <= i < |s| && s[i].appointmentId == id
  {
    FilterShorter(s, NotId(id));
  }

  /** A second cancellation of the same identifier removes nothing and reports failure. */
  lemma CancelTwice(s: seq<Appointment>, id: string)
    ensures Remaining(Remaining(s, id), id) == Remaining(s, id)
    ensures !(|Remaining(Remaining(s, id), id)| < |Remaining(s, id)|)
  {
    FilterIdempotent(s, NotId(id));
  }

  /** With unique identifiers a cancellation removes at most one record. */
  lemma {:induction false} CancelRemovesAtMostOne(s: seq<Appointment>, id: string)
    requires UniqueIds(s)
    ensures |s| - 1 <= |Remaining(s, id)|
  {
    if s != [] {
      var tail := s[1..];
      assert s == [s[0]] + tail;
      FilterCons(s[0], tail, NotId(id));
      if s[0].appointmentId == id {
        forall i | 0 <= i < |tail|
          ensures NotId(id)(tail[i])
        {
          assert tail[i] == s[i + 1];
          assert DistinctIds()(s[0], s[i + 1]);
        }
        FilterKeepsAll(tail, NotId(id));
      } else {
        assert UniqueIds(tail) by {
          forall i, j | 0 <= i < j < |tail|
            ensures DistinctIds()(tail[i], tail[j])
          {
            assert tail[i] == s[i + 1] && tail[j] == s[j + 1];
          }
        }
        CancelRemovesAtMostOne(tail, id);
      }
    }
  }

  /** Cancelling keeps every consistency condition. */
  lemma CancelKeepsConsistent(parse: Parser, doctors: seq<Doctor>, s: seq<Appointment>, id: string)
    requires Consistent(parse, doctors, s)
    ensures Consistent(parse, doctors, Remaining(s, id))
  {
    var r := Remaining(s, id);
    FilterKeepsPairwise(s, NotId(id), Apart(parse));
    FilterKeepsPairwise(s, NotId(id), DistinctIds());
    forall i | 0 <= i < |r|
      ensures parse(r[i].datetime).Some? && DoctorExists(doctors, r[i].doctorId)
    {
      assert r[i] in s;
    }
  }

  /** Sorting the listing keeps every consistency condition. */
  lemma SortKeepsConsistent(parse: Parser, doctors: seq<Doctor>, s: seq<Appointment>)
    requires Consistent(parse, doctors, s)
    ensures Consistent(parse, doctors, SortByDatetime(s))
  {
    var r := SortByDatetime(s);
    forall a: Appointment, b: Appointment
      ensures Apart(parse)(a, b) == Apart(parse)(b, a)
    {
      if parse(a.datetime).Some? && parse(b.datetime).Some? {
        var ea, eb := parse(a.datetime).value, parse(b.datetime).value;
        assert InWindow(ea, eb) == InWindow(eb, ea);
      }
    }
    SortKeepsPairwise(s, Apart(parse));
    SortKeepsPairwise(s, DistinctIds());
    forall i | 0 <= i < |r|
      ensures parse(r[i].datetime).Some? && DoctorExists(doctors, r[i].doctorId)
    {
      assert r[i] in multiset(s);
    }
  }
}
