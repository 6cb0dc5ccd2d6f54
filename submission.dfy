/** The guest's form submission as backend/pdfHandler.js reads it. String
    fields hold "" where the JavaScript value is missing or falsy. */
module Submissions {
  import opened Wrappers
  import opened Dates

  /** `data.centers`: either an array of center names or a single value. */
  datatype CentersField = Listed(names: seq<string>) | Scalar(name: string)

  /** A date field that is used with a fallback (`data.guestFillingDate || new Date()`):
      `Missing` when the field is falsy, otherwise what the JavaScript date
      parser makes of it (`None` for an unparseable value). */
  datatype DateInput = Missing | Given(parsed: Option<CalendarDate>)

  /** A decoded signature image. `embeddable` says whether pdf-lib's
      `embedPng` accepts the bytes (it throws on corrupt or empty data). */
  datatype Signature = Signature(embeddable: bool)

  datatype Submission = Submission(
    firstName: string,
    middleName: string,
    lastName: string,
    name: string,                   // legacy combined name
    fullName: string,               // optional display name sent by the front end
    dobText: string,                // `data.dob` as sent
    dob: Option<CalendarDate>,      // `new Date(data.dob)`, None when invalid
    email: string,
    phone: string,
    parentName: string,
    centers: CentersField,
    center: string,
    guestFillingDate: DateInput,
    parentGuardianDate: DateInput,
    flags: set<string>,             // the keys `k` with `data[k] === true`
    signature: Option<Signature>,   // `data.signature`, decoded
    guardianSignature: Option<Signature>)

  /** The centers as `buildPacketBuffers` sees them: the array itself, or
      `[data.centers].filter(Boolean)` for a single value. */
  function CenterList(c: CentersField): (r: seq<string>)
    ensures c.Listed? ==> r == c.names
    ensures c.Scalar? ==> |r| == (if c.name == "" then 0 else 1)
    ensures c.Scalar? ==> forall k :: 0 <= k < |r| ==> r[k] == c.name
  {
    match c
    case Listed(ns) => ns
    case Scalar(s) => if s != "" then [s] else []
  }
}
