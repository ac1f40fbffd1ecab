/** The Resend variant of `POST /api/contact`: a trimmed honeypot check, a
    truthiness check of the required fields, and one notice to the operator. */
module ResendRoute {
  import opened Wrappers
  import opened JsText
  import opened ContactSchema
  import opened Http

  const Sender := "Real Estate Inquiries <support@stephaniekayephotography.com>"
  const OperatorAddress := "stephanie@stephaniekayephotography.com"
  const SpamError := "Spam detected"
  const MissingError := "Missing required fields"
  const SendError := "Failed to send email"

  /** `honey && honey.trim() !== ""`. */
  predicate IsSpam(req: Request) {
    Truthy(req.honey) && Trim(req.honey.value) != ""
  }

  /** `!name || !email || !selectedPackage`. */
  predicate MissingRequired(req: Request) {
    !Truthy(req.name) || !Truthy(req.email) || !Truthy(req.package)
  }

  function NoticeHtml(name: string, email: string, package: string, questions: Option<string>): string {
    "\n        <h2>New Contact Form Submission</h2>\n        <p><strong>Name:</strong> " + name
    + "</p>\n        <p><strong>Email:</strong> " + email
    + "</p>\n        <p><strong>Package:</strong> " + package
    + "</p>\n        <p><strong>Message:</strong><br>" + OrElse(questions, "N/A")
    + "</p>\n      "
  }

  /** The one message this variant sends, to the operator. */
  function Notice(req: Request): (m: Message)
    requires !MissingRequired(req)
    ensures m.from == Sender && m.to == OperatorAddress
    ensures m.subject == "New inquiry from " + req.name.value
    ensures m.content.HtmlBody?
  {
    Message(Sender, OperatorAddress, "New inquiry from " + req.name.value,
      HtmlBody(NoticeHtml(req.name.value, req.email.value, req.package.value, req.questions)))
  }

  /** `POST`. `outcome` is what the provider call comes to. */
  function Post(body: Body, outcome: SendOutcome): (out: Handled)
    ensures body.Unparseable? ==> out == Handled(Response(500, None, Some(Said(SendError)), []), [])
    ensures body.Json? && IsSpam(body.request) ==>
      out == Handled(Response(400, None, Some(Said(SpamError)), []), [])
    ensures body.Json? && !IsSpam(body.request) && MissingRequired(body.request) ==>
      out == Handled(Response(400, None, Some(Said(MissingError)), []), [])
    ensures body.Json? && !IsSpam(body.request) && !MissingRequired(body.request) ==>
      && |out.sent| == 1
      && out.sent[0].to == OperatorAddress
      && out.sent[0].from == Sender
      && out.sent == [Notice(body.request)]
      && (outcome.Sent? <==> out.response == Response(200, Some(true), None, []))
      && (outcome.Rejected? <==> out.response == Response(500, None, Some(Said(SendError)), []))
  {
    match body
    case Unparseable =>
      Handled(Response(500, None, Some(Said(SendError)), []), [])
    case Json(req) =>
      if IsSpam(req) then
        Handled(Response(400, None, Some(Said(SpamError)), []), [])
      else if MissingRequired(req) then
        Handled(Response(400, None, Some(Said(MissingError)), []), [])
      else
        var sent := [Notice(req)];
        match outcome
        case Sent => Handled(Response(200, Some(true), None, []), sent)
        case Rejected => Handled(Response(500, None, Some(Said(SendError)), []), sent)
  }

  /** Spam exactly when the honeypot holds a character that is not whitespace. */
  lemma SpamIff(req: Request)
    ensures IsSpam(req) <==> req.honey.Some? && !AllWhitespace(req.honey.value)
  {
    if req.honey.Some? {
      TrimEmptyIff(req.honey.value);
    }
  }

  /** A honeypot of whitespace alone is not spam here. */
  lemma WhitespaceHoneyNotSpam(req: Request)
    requires req.honey.Some? && AllWhitespace(req.honey.value)
    ensures !IsSpam(req)
  {
    SpamIff(req);
  }

  /** The honeypot is checked first: a honeypot with any character that is not
      whitespace gets "Spam detected" whatever the other fields hold, required
      ones missing included, and nothing is sent. */
  lemma SpamCheckedFirst(req: Request, outcome: SendOutcome)
    requires req.honey.Some? && !AllWhitespace(req.honey.value)
    ensures Post(Json(req), outcome) == Handled(Response(400, None, Some(Said(SpamError)), []), [])
  {
    SpamIff(req);
  }

  /** The required-field check against the schema's rules: a name and package
      pass it exactly when the schema would accept them, while the email need
      only be non-empty. */
  lemma MissingRequiredMatchesSchema(req: Request, validEmail: string -> bool)
    ensures !MissingRequired(req) <==>
      Accepts(req, Name, validEmail) && Accepts(req, Package, validEmail) && Truthy(req.email)
  {
    if req.name.Some? && |req.name.value| >= 1 { assert req.name.value != ""; }
    if req.package.Some? && |req.package.value| >= 1 { assert req.package.value != ""; }
  }

  /** No email-format check: a request that is not spam and has a non-empty
      name, email and package is sent on as the notice, whatever the email
      looks like and whatever `questions` holds. */
  lemma NoEmailFormatCheck(req: Request, outcome: SendOutcome)
    requires !IsSpam(req)
    requires req.name.Some? && req.name.value != ""
    requires req.email.Some? && req.email.value != ""
    requires req.package.Some? && req.package.value != ""
    ensures Post(Json(req), outcome).sent == [Notice(req)]
  {
  }

  /** The submitter gets nothing: whatever the body, every message sent goes
      to the operator, and at most one is sent. */
  lemma OnlyOperatorNotified(body: Body, outcome: SendOutcome)
    ensures |Post(body, outcome).sent| <= 1
    ensures forall m :: m in Post(body, outcome).sent ==> m.to == OperatorAddress
  {
  }

  /** The notice lists the name, the email, the package and the questions,
      or "N/A" when there are none. */
  lemma NoticeContents(req: Request)
    requires !MissingRequired(req)
    ensures var t := Notice(req).content.html;
      && Contains(t, req.name.value)
      && Contains(t, req.email.value)
      && Contains(t, req.package.value)
      && Contains(t, if Truthy(req.questions) then req.questions.value else "N/A")
  {
    var name, email, package := req.name.value, req.email.value, req.package.value;
    var q := OrElse(req.questions, "N/A");
    var s1 := "\n        <h2>New Contact Form Submission</h2>\n        <p><strong>Name:</strong> " + name;
    var s2 := s1 + "</p>\n        <p><strong>Email:</strong> ";
    var s3 := s2 + email;
    var s4 := s3 + "</p>\n        <p><strong>Package:</strong> ";
    var s5 := s4 + package;
    var s6 := s5 + "</p>\n        <p><strong>Message:</strong><br>";
    var s7 := s6 + q;
    var t := s7 + "</p>\n      ";
    assert Notice(req).content.html == t;
    ContainsSelf(name);
    ContainsInBack("\n        <h2>New Contact Form Submission</h2>\n        <p><strong>Name:</strong> ", name, name);
    ContainsInFront(s1, "</p>\n        <p><strong>Email:</strong> ", name);
    ContainsInFront(s2, email, name);
    ContainsInFront(s3, "</p>\n        <p><strong>Package:</strong> ", name);
    ContainsInFront(s4, package, name);
    ContainsInFront(s5, "</p>\n        <p><strong>Message:</strong><br>", name);
    ContainsInFront(s6, q, name);
    ContainsInFront(s7, "</p>\n      ", name);
    ContainsSelf(email);
    ContainsInBack(s2, email, email);
    ContainsInFront(s3, "</p>\n        <p><strong>Package:</strong> ", email);
    ContainsInFront(s4, package, email);
    ContainsInFront(s5, "</p>\n        <p><strong>Message:</strong><br>", email);
    ContainsInFront(s6, q, email);
    ContainsInFront(s7, "</p>\n      ", email);
    ContainsSelf(package);
    ContainsInBack(s4, package, package);
    ContainsInFront(s5, "</p>\n        <p><strong>Message:</strong><br>", package);
    ContainsInFront(s6, q, package);
    ContainsInFront(s7, "</p>\n      ", package);
    ContainsSelf(q);
    ContainsInBack(s6, q, q);
    ContainsInFront(s7, "</p>\n      ", q);
  }
}
