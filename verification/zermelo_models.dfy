/** One appointment record as the timetable service returns it (decoding left out). */
module ZermeloModels {

  datatype Appointment = Appointment(
    id: int,
    start: int,
    end: int,
    subjects: seq<string>,
    teachers: seq<string>,
    locations: seq<string>,
    changeDescription: string,
    cancelled: bool)

  /** The ways a timetable fetch can fail: the service's own errors plus transport and decoding. */
  datatype FetchError =
    | InvalidUrl
    | AuthenticationFailed
    | NetworkError(message: string)
    | InvalidResponse
    | TokenExpired
    | DecodingFailed
}
