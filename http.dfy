/** What a handler sends back, and the answer of the mail relay. */
module Http {

  /** `res.status(204).send('')`, the GET status page (`res.status(200).send(html)`),
      or `res.status(s).json({success, message})`. */
  datatype Response =
    | NoContent
    | StatusPage
    | Json(status: int, success: bool, message: string)

  function StatusOf(r: Response): (status: int) {
    match r
    case NoContent => 204
    case StatusPage => 200
    case Json(status, _, _) => status
  }

  /** How `sendMail` settles: it resolves, or it rejects with an error message. */
  datatype SendOutcome = Sent | Rejected(message: string)

  const MethodNotAllowed: string := "Method not allowed"
  const MissingRequired: string := "Missing required fields"
  const InvalidEmail: string := "Invalid email"
}
