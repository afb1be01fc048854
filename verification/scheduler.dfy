/**
 * `AppointmentScheduler`: the in-memory doctor and appointment lists and the
 * operations that book, cancel and list appointments. Reading the clock,
 * parsing ISO text and drawing a uuid are inputs of the model; writing
 * appointments.json is the ghost field `saved`.
 */
module Scheduler {
  import opened Wrappers
  import opened Records
  import opened IsoText
  import opened Filtering
  import opened Ordering
  import opened Rules

  class AppointmentScheduler {
    /** `datetime.fromisoformat`. */
    const parse: Parser
    /** doctors.json as loaded; no operation changes it. */
    const doctors: seq<Doctor>
    var appointments: seq<Appointment>
    /** What appointments.json holds; rewritten after each successful booking or cancellation. */
    ghost var saved: seq<Appointment>

    /** The file and memory hold the same records, perhaps in another order. */
    ghost predicate Valid()
      reads this
    {
      multiset(saved) == multiset(appointments)
    }

    /**
     * Starts from the two lists read from disk. The file is taken to hold
     * `stored`; a corrupt file that loads as an empty list is not modelled.
     */
    constructor (parse: Parser, doctors: seq<Doctor>, stored: seq<Appointment>)
      ensures Valid()
      ensures this.parse == parse && this.doctors == doctors
      ensures appointments == stored && saved == stored
    {
      this.parse := parse;
      this.doctors := doctors;
      appointments := stored;
      saved := stored;
    }

    /**
     * `_is_conflict`: scans the records in order and stops at the first clash,
     * unreadable datetime or window that overflows the datetime range.
     */
    method IsConflict(doctorId: int, t: int) returns (r: Scan)
      ensures r == ScanConflict(parse, appointments, doctorId, t)
      ensures r == Clear <==> FreeSlot(parse, appointments, doctorId, t)
    {
      ScanClearIff(parse, appointments, doctorId, t);
      var i := 0;
      while i < |appointments|
        invariant 0 <= i <= |appointments|
        invariant ScanConflict(parse, appointments[i..], doctorId, t) == ScanConflict(parse, appointments, doctorId, t)
      {
        var appt := appointments[i];
        assert appointments[i..][1..] == appointments[i + 1..];
        if appt.doctorId == doctorId {
          match parse(appt.datetime) {
            case None =>
              return Unreadable;
            case Some(e) =>
              if e - Gap < MinInstant || e + Gap > MaxInstant {
                return OutOfRange;
              }
              if e - Gap <= t <= e + Gap {
                return Clash;
              }
          }
        }
        i := i + 1;
      }
      return Clear;
    }

    /**
     * `add_appointment`: runs the checks in order and appends the new record
     * only when all of them pass; a refusal leaves every list as it was.
     */
    method AddAppointment(doctorId: int, patientName: string, dtString: string, phoneNumber: string,
                          now: int, nowIso: string, freshId: string)
      returns (r: Result<Appointment, BookingError>)
      requires Valid()
      modifies this
      ensures Valid()
      ensures r == Book(parse, doctors, old(appointments), doctorId, patientName, dtString, phoneNumber, now, nowIso, freshId)
      ensures r.Failure? ==> appointments == old(appointments) && saved == old(saved)
      ensures r.Success? ==> appointments == old(appointments) + [r.value] && saved == appointments
      ensures r.Success? ==> |PhoneUpcoming(appointments, phoneNumber, nowIso)| <= 2
      ensures r.Success? && Consistent(parse, doctors, old(appointments)) && IdUnused(old(appointments), freshId)
        ==> Consistent(parse, doctors, appointments)
    {
      match parse(dtString) {
        case None =>
          return Failure(InvalidDateTime);
        case Some(t) =>
          if t < now {
            return Failure(PastDateTime);
          }
          var upcomingForPhone := Filter(appointments, IsUpcomingFor(phoneNumber, nowIso));
          if |upcomingForPhone| >= 2 {
            return Failure(PhoneLimitExceeded);
          }
          if !DoctorExists(doctors, doctorId) {
            return Failure(DoctorNotFound);
          }
          var scan := IsConflict(doctorId, t);
          if scan == Clash {
            return Failure(SchedulingConflict);
          } else if scan == Unreadable {
            return Failure(StoredDateTimeUnreadable);
          } else if scan == OutOfRange {
            return Failure(WindowOutOfRange);
          }
          var appt := Appointment(freshId, doctorId, patientName, dtString, phoneNumber, Scheduled);
          ghost var before := appointments;
          appointments := appointments + [appt];
          saved := appointments;
          r := Success(appt);
          BookEnforcesRules(parse, doctors, before, doctorId, patientName, dtString, phoneNumber, now, nowIso, freshId, appt);
          if Consistent(parse, doctors, before) && IdUnused(before, freshId) {
            BookKeepsConsistent(parse, doctors, before, doctorId, patientName, dtString, phoneNumber, now, nowIso, freshId, appt);
          }
      }
    }

    /**
     * `cancel_appointment`: keeps the records with another identifier, in
     * order, and reports whether any record was dropped.
     */
    method CancelAppointment(id: string) returns (ok: bool)
      requires Valid()
      modifies this
      ensures Valid()
      ensures appointments == Remaining(old(appointments), id)
      ensures ok <==> exists i :: 0 <= i < |old(appointments)| && old(appointments)[i].appointmentId == id
      ensures saved == if ok then appointments else old(saved)
      ensures Consistent(parse, doctors, old(appointments)) ==> Consistent(parse, doctors, appointments)
    {
      var initialCount := |appointments|;
      ghost var before := appointments;
      appointments := Filter(appointments, NotId(id));
      CancelReportsRemoval(before, id);
      if Consistent(parse, doctors, before) {
        CancelKeepsConsistent(parse, doctors, before, id);
      }
      if |appointments| < initialCount {
        saved := appointments;
        ok := true;
      } else {
        FilterKeepsAll(before, NotId(id));
        ok := false;
      }
    }

    /** `get_all_doctors`: the doctor list as loaded. */
    method GetAllDoctors() returns (r: seq<Doctor>)
      ensures r == doctors
    {
      r := doctors;
    }

    /** `get_all_appointments`: sorts the stored list in place by datetime string and returns it. */
    method GetAllAppointments() returns (r: seq<Appointment>)
      requires Valid()
      modifies this
      ensures Valid() && saved == old(saved)
      ensures appointments == SortByDatetime(old(appointments)) && r == appointments
      ensures Consistent(parse, doctors, old(appointments)) ==> Consistent(parse, doctors, appointments)
    {
      if Consistent(parse, doctors, appointments) {
        SortKeepsConsistent(parse, doctors, appointments);
      }
      appointments := SortByDatetime(appointments);
      r := appointments;
    }

    /**
     * `get_upcoming_appointments`: a fresh list of the records whose datetime
     * string is not below `nowIso`, sorted stably by datetime string.
     */
    method GetUpcomingAppointments(nowIso: string) returns (r: seq<Appointment>)
      ensures SortedByDatetime(r)
      ensures forall x {:trigger multiset(r)[x]} ::
        multiset(r)[x] == if StrLe(nowIso, x.datetime) then multiset(appointments)[x] else 0
      ensures SameKeyOrder(r, Filter(appointments, IsUpcoming(nowIso)))
    {
      var upcoming := Filter(appointments, IsUpcoming(nowIso));
      r := SortByDatetime(upcoming);
      SortIsSorted(upcoming);
      forall key
        ensures Filter(r, HasDatetime(key)) == Filter(upcoming, HasDatetime(key))
      {
        SortIsStable(upcoming, key);
      }
    }
  }
}
