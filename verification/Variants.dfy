/** The two contact handlers side by side: the same body can fare differently. */
module Variants {
  import opened Wrappers
  import opened JsText
  import opened ContactSchema
  import opened Http
  import PostmarkRoute
  import ResendRoute

  /** A non-empty honeypot of whitespace alone, with a name, email and
      package present and non-empty: the Postmark handler's schema rejects it
      with a 500 and sends nothing, the Resend handler sends the notice. */
  lemma BlankHoneyDiverges(req: Request, validEmail: string -> bool, c: SendOutcome, a: SendOutcome, outcome: SendOutcome)
    requires req.honey.Some? && req.honey.value != "" && AllWhitespace(req.honey.value)
    requires Truthy(req.name) && Truthy(req.email) && Truthy(req.package)
    ensures PostmarkRoute.Post(Json(req), validEmail, c, a).response.status == 500
    ensures PostmarkRoute.Post(Json(req), validEmail, c, a).sent == []
    ensures ResendRoute.Post(Json(req), outcome).sent == [ResendRoute.Notice(req)]
  {
    FilledHoneyRejected(req, validEmail);
    ResendRoute.WhitespaceHoneyNotSpam(req);
  }

  /** Spam with valid fields: Postmark answers 500 from its schema, Resend 400
      "Spam detected"; neither sends anything. */
  lemma SpamDiverges(validEmail: string -> bool, c: SendOutcome, a: SendOutcome, outcome: SendOutcome)
    requires validEmail("jane@x.com")
    ensures var req := Request(Some("Jane"), Some("jane@x.com"), Some("standard"), None, Some("buy-now"));
      && PostmarkRoute.Post(Json(req), validEmail, c, a) == Handled(Response(500, Some(false),
           Some(SchemaIssues([Issue(Honey, TooLong(0), None)])), []), [])
      && ResendRoute.Post(Json(req), outcome) == Handled(Response(400, None, Some(Said(ResendRoute.SpamError)), []), [])
  {
    var req := Request(Some("Jane"), Some("jane@x.com"), Some("standard"), None, Some("buy-now"));
    assert Issues(req, validEmail) == [Issue(Honey, TooLong(0), None)];
    ResendRoute.SpamIff(req);
    assert !IsWhitespace(req.honey.value[0]);
  }

  /** A non-empty email the schema does not take for an address, in a request
      that is not spam and has a name and package: the Postmark schema rejects
      it and sends nothing, the Resend handler has no format check and sends
      the notice. */
  lemma MalformedEmailDiverges(req: Request, validEmail: string -> bool, c: SendOutcome, a: SendOutcome, outcome: SendOutcome)
    requires Truthy(req.email) && !validEmail(req.email.value)
    requires Truthy(req.name) && Truthy(req.package)
    requires !ResendRoute.IsSpam(req)
    ensures PostmarkRoute.Post(Json(req), validEmail, c, a).response.status == 500
    ensures PostmarkRoute.Post(Json(req), validEmail, c, a).sent == []
    ensures ResendRoute.Post(Json(req), outcome).sent == [ResendRoute.Notice(req)]
  {
  }
}
