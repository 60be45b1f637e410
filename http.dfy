/** The JSON responses the intake and administration endpoints send, with
    their HTTP status codes. */
module Http {
  import opened JsonValue

  /** The `acknowledgement` object of a successful submission. */
  datatype Acknowledgement = Acknowledgement(complaintId: nat, ghmcId: string, subject: Json,
                                             category: Json, priority: Json)

  datatype Body =
    | ErrorBody(error: string)             // {"error": ...}
    | LocationErrorBody                    // {"status": "error", "error": "Location data is required ..."}
    | SubmittedBody(ack: Acknowledgement)  // {"status": "success", "message": ..., "acknowledgement": ...}
    | DatabaseErrorBody                    // {"error": "Database error", "details": ...}
    | SuccessBody(message: string)         // {"status": "success", "message": ...}
    | StatusErrorBody(message: string)     // {"status": "error", "message": str(e)}
    | UnhandledError                       // an exception nothing catches: Flask's own error page

  datatype Response = Response(status: nat, body: Body)

  /** What Flask sends when an exception escapes the view function. */
  const Unhandled: Response := Response(500, UnhandledError)
}
