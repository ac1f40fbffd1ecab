/** The Postmark variant of `POST /api/contact`: schema validation, a
    honeypot branch, a confirmation copy to the submitter and a notice to the
    admin, both dispatched with `Promise.allSettled`. */
module PostmarkRoute {
  import opened Wrappers
  import opened JsText
  import opened ContactSchema
  import opened Http

  const Sender := "support@stephaniekayephotography.com"
  const AdminAddress := "nathan@stephaniekayephotography.com"
  const ClientSubject := "\U{1F4F8} Thanks for contacting Stephanie Kaye Photography!"

  function ClientText(d: ContactData): string {
    "Hi " + d.name + ",\n\nThank you for reaching out about the " + d.package
    + " package.\nWe\U{2019}ll be in touch soon!"
  }

  function AdminText(d: ContactData): string {
    "Name: " + d.name + "\nEmail: " + d.email + "\nPackage: " + d.package
    + "\nQuestions: " + OrElse(d.questions, "None")
  }

  /** `clientEmail`: the confirmation copy sent to the submitter. */
  function ClientEmail(d: ContactData): (m: Message)
    ensures m.from == Sender && m.to == d.email && m.subject == ClientSubject
    ensures m.content.TextBody?
  {
    Message(Sender, d.email, ClientSubject, TextBody(ClientText(d)))
  }

  /** `adminEmail`: the notice sent to the admin. */
  function AdminEmail(d: ContactData): (m: Message)
    ensures m.from == Sender && m.to == AdminAddress
    ensures m.subject == "New inquiry from " + d.name
    ensures m.content.TextBody?
  {
    Message(Sender, AdminAddress, "New inquiry from " + d.name, TextBody(AdminText(d)))
  }

  /** `POST`. `validEmail` is the schema's email check; `clientSent` and
      `adminSent` are what the two provider calls come to. */
  function Post(body: Body, validEmail: string -> bool, clientSent: SendOutcome, adminSent: SendOutcome)
    : (out: Handled)
    ensures body.Unparseable? ==> out == Handled(Response(500, Some(false), Some(NotJson), []), [])
    ensures body.Json? && !Conforms(body.request, validEmail) ==>
      && out.response.status == 500
      && out.response.success == Some(false)
      && out.response.error == Some(SchemaIssues(Issues(body.request, validEmail)))
      && out.sent == []
    ensures body.Json? && Conforms(body.request, validEmail) ==>
      && out.response == Response(200, Some(true), None, [clientSent, adminSent])
      && |out.sent| == 2
      && out.sent[0].to == body.request.email.value
      && out.sent[1].to == AdminAddress
  {
    match body
    case Unparseable =>
      Handled(Response(500, Some(false), Some(NotJson), []), [])
    case Json(req) =>
      match Validate(req, validEmail)
      case Failure(issues) =>
        Handled(Response(500, Some(false), Some(SchemaIssues(issues)), []), [])
      case Success(parsed) =>
        if Truthy(parsed.honey) then
          Handled(Response(200, Some(true), None, []), [])
        else
          Handled(Response(200, Some(true), None, [clientSent, adminSent]),
                  [ClientEmail(parsed), AdminEmail(parsed)])
  }

  /** A submission with a non-empty honeypot never leads to a send; the schema
      rejects it, so the response is the schema failure and not the silent 200. */
  lemma HoneyNeverSends(req: Request, validEmail: string -> bool, c: SendOutcome, a: SendOutcome)
    requires Truthy(req.honey)
    ensures Post(Json(req), validEmail, c, a).sent == []
    ensures Post(Json(req), validEmail, c, a).response.status == 500
  {
  }

  /** The silent-success branch is dead: no body gets a 200 without both messages. */
  lemma SilentSuccessUnreachable(body: Body, validEmail: string -> bool, c: SendOutcome, a: SendOutcome)
    ensures Post(body, validEmail, c, a).response.status == 200 ==> |Post(body, validEmail, c, a).sent| == 2
  {
  }

  /** A 200 exactly when the body is JSON the schema accepts, whatever the sends come to. */
  lemma SuccessIff(body: Body, validEmail: string -> bool, c: SendOutcome, a: SendOutcome)
    ensures Post(body, validEmail, c, a).response.success == Some(true)
      <==> body.Json? && Conforms(body.request, validEmail)
  {
  }

  /** Both messages come from the one verified sender; the client copy has a
      fixed subject and mentions the name and the package. */
  lemma ClientCopyContents(req: Request, validEmail: string -> bool, c: SendOutcome, a: SendOutcome)
    requires Conforms(req, validEmail)
    ensures var sent := Post(Json(req), validEmail, c, a).sent;
      && sent[0].from == Sender && sent[1].from == Sender
      && sent[0].subject == ClientSubject
      && Contains(sent[0].content.text, req.name.value)
      && Contains(sent[0].content.text, req.package.value)
  {
    var d := Validate(req, validEmail).value;
    ContainsMiddle("Hi ", d.name, ",\n\nThank you for reaching out about the " + d.package
      + " package.\nWe\U{2019}ll be in touch soon!");
    assert ClientText(d) == "Hi " + d.name + (",\n\nThank you for reaching out about the " + d.package
      + " package.\nWe\U{2019}ll be in touch soon!");
    ContainsMiddle("Hi " + d.name + ",\n\nThank you for reaching out about the ", d.package,
      " package.\nWe\U{2019}ll be in touch soon!");
  }

  /** The admin notice names the submitter in its subject and mentions the
      name, the email, the package and the questions, or "None" when there are none. */
  lemma AdminNoticeContents(req: Request, validEmail: string -> bool, c: SendOutcome, a: SendOutcome)
    requires Conforms(req, validEmail)
    ensures var m := Post(Json(req), validEmail, c, a).sent[1];
      && m.subject == "New inquiry from " + req.name.value
      && Contains(m.content.text, req.name.value)
      && Contains(m.content.text, req.email.value)
      && Contains(m.content.text, req.package.value)
      && Contains(m.content.text, if Truthy(req.questions) then req.questions.value else "None")
  {
    var d := Validate(req, validEmail).value;
    var q := OrElse(d.questions, "None");
    var s1 := "Name: " + d.name;
    var s2 := s1 + "\nEmail: ";
    var s3 := s2 + d.email;
    var s4 := s3 + "\nPackage: ";
    var s5 := s4 + d.package;
    var s6 := s5 + "\nQuestions: ";
    assert AdminText(d) == s6 + q;
    ContainsSelf(d.name);
    ContainsInBack("Name: ", d.name, d.name);
    ContainsInFront(s1, "\nEmail: ", d.name);
    ContainsInFront(s2, d.email, d.name);
    ContainsInFront(s3, "\nPackage: ", d.name);
    ContainsInFront(s4, d.package, d.name);
    ContainsInFront(s5, "\nQuestions: ", d.name);
    ContainsInFront(s6, q, d.name);
    ContainsSelf(d.email);
    ContainsInBack(s2, d.email, d.email);
    ContainsInFront(s3, "\nPackage: ", d.email);
    ContainsInFront(s4, d.package, d.email);
    ContainsInFront(s5, "\nQuestions: ", d.email);
    ContainsInFront(s6, q, d.email);
    ContainsSelf(d.package);
    ContainsInBack(s4, d.package, d.package);
    ContainsInFront(s5, "\nQuestions: ", d.package);
    ContainsInFront(s6, q, d.package);
    ContainsSelf(q);
    ContainsInBack(s6, q, q);
  }

  /** A well-formed submission with an empty honeypot: a 200 and two messages,
      to the operator and to the submitter. */
  lemma WellFormedScenario(validEmail: string -> bool, c: SendOutcome, a: SendOutcome)
    requires validEmail("jane@x.com")
    ensures var out := Post(Json(Request(Some("Jane"), Some("jane@x.com"), Some("standard"), Some(""), Some(""))), validEmail, c, a);
      && out.response.status == 200
      && [out.sent[0].to, out.sent[1].to] == ["jane@x.com", AdminAddress]
  {
  }

  /** An empty name, a malformed email and an empty package: a 500 whose body
      carries the three field issues in schema order, and nothing is sent. */
  lemma ThreeFieldErrorsAnswer(validEmail: string -> bool, c: SendOutcome, a: SendOutcome)
    requires !validEmail("bad")
    ensures Post(Json(Request(Some(""), Some("bad"), Some(""), None, None)), validEmail, c, a)
      == Handled(Response(500, Some(false), Some(SchemaIssues([
           Issue(Name, TooShort(1), Some(NameMessage)),
           Issue(Email, NotAnEmail, Some(EmailMessage)),
           Issue(Package, TooShort(1), Some(PackageMessage))])), []), [])
  {
    ThreeFieldIssues(validEmail);
  }
}
