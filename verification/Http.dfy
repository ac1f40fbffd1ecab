/** What a contact handler receives and what it produces: the request body,
    the outbound mail it hands to the provider, and the JSON response. */
module Http {
  import opened Wrappers
  import opened ContactSchema

  /** The request body: either it is not JSON at all (`req.json()` throws) or
      it carries the form fields. */
  datatype Body = Unparseable | Json(request: Request)

  /** How an email body is written: plain text or HTML. */
  datatype Content = TextBody(text: string) | HtmlBody(html: string)

  /** One email handed to the mail provider. */
  datatype Message = Message(from: string, to: string, subject: string, content: Content)

  /** What became of one provider call: it resolved, or the promise rejected. */
  datatype SendOutcome = Sent | Rejected

  /** The `error` member of a JSON response: a fixed text, the schema's issues,
      or the exception thrown when the body was not JSON. */
  datatype ErrorBody = Said(text: string) | SchemaIssues(issues: seq<Issue>) | NotJson

  /** A JSON response. `success` is `None` when the body has no `success`
      member; `settled` holds the per-message send outcomes the body reports. */
  datatype Response = Response(
    status: int,
    success: Option<bool>,
    error: Option<ErrorBody>,
    settled: seq<SendOutcome>)

  /** A handler's whole effect: the response and the mail it handed over, in order. */
  datatype Handled = Handled(response: Response, sent: seq<Message>)
}
