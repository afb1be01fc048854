/**
 * The records the scheduler keeps: doctors (seeded outside the scheduler,
 * read-only to it) and appointments (the JSON objects it appends and
 * deletes). A datetime is kept as the raw ISO-8601 text the caller gave;
 * it is turned into an instant only by the parser the scheduler holds.
 */
module Records {
  import opened Wrappers

  datatype Doctor = Doctor(doctorId: int, name: string, specialty: string)

  datatype Appointment = Appointment(
    appointmentId: string,
    doctorId: int,
    patientName: string,
    datetime: string,
    phoneNumber: string,
    status: string)

  /** The only status the scheduler ever writes; a cancellation deletes the record. */
  const Scheduled: string := "scheduled"

  /**
   * `datetime.fromisoformat`: an ISO-8601 string to an instant, counted in
   * microseconds (the resolution of Python's datetime) from 0001-01-01T00:00:00,
   * or None where Python raises ValueError.
   */
  type Parser = string -> Option<int>

  const Minute: int := 60 * 1000000

  /** `datetime.min`, 0001-01-01T00:00:00. */
  const MinInstant: int := 0

  /** `datetime.max`, 9999-12-31T23:59:59.999999: 3652059 days of 86400 seconds, less one microsecond. */
  const MaxInstant: int := 3652059 * 86400 * 1000000 - 1

  /** The half-width of the exclusion window around an existing booking. */
  const Gap: int := 29 * Minute
}
