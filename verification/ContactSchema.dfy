/** The contact form's field schema (`contactFormSchema`): which submissions it
    accepts, which issues it reports for the rest, and what it hands back. */
module ContactSchema {
  import opened Wrappers
  import opened JsText

  /** The five fields of a submission, in the order the schema declares them. */
  datatype Field = Name | Email | Package | Questions | Honey

  /** A field's place in the schema's declaration order. */
  function Position(f: Field): nat {
    match f
    case Name => 0
    case Email => 1
    case Package => 2
    case Questions => 3
    case Honey => 4
  }

  /** A submission as read from the request body: each field may be absent. */
  datatype Request = Request(
    name: Option<string>,
    email: Option<string>,
    package: Option<string>,
    questions: Option<string>,
    honey: Option<string>)

  /** A submission the schema accepted: the three required fields are present. */
  datatype ContactData = ContactData(
    name: string,
    email: string,
    package: string,
    questions: Option<string>,
    honey: Option<string>)

  /** Which rule a field broke: it was missing altogether, shorter than the
      minimum, not an email address, or longer than the maximum. */
  datatype IssueKind = Missing | TooShort(minimum: nat) | NotAnEmail | TooLong(maximum: nat)

  /** One reported problem. `declared` is the message written on the field's
      schema line; it is `None` where the library's own default text is used. */
  datatype Issue = Issue(field: Field, kind: IssueKind, declared: Option<string>)

  const NameMessage := "Name is required"
  const EmailMessage := "Valid email is required"
  const PackageMessage := "Package selection is required"

  /** Whether the schema line for field `f` accepts the value `req` holds for
      it. `validEmail` stands for the library's email-address check. */
  predicate Accepts(req: Request, f: Field, validEmail: string -> bool) {
    match f
    case Name => req.name.Some? && |req.name.value| >= 1
    case Email => req.email.Some? && validEmail(req.email.value)
    case Package => req.package.Some? && |req.package.value| >= 1
    case Questions => true
    case Honey => req.honey.None? || req.honey.value == ""
  }

  /** The request passes every field's rule. */
  predicate Conforms(req: Request, validEmail: string -> bool) {
    && Accepts(req, Name, validEmail)
    && Accepts(req, Email, validEmail)
    && Accepts(req, Package, validEmail)
    && Accepts(req, Questions, validEmail)
    && Accepts(req, Honey, validEmail)
  }

  /** A required string with at least one character (`z.string().min(1, message)`). */
  function MinOneIssues(f: Field, v: Option<string>, message: string): (r: seq<Issue>)
    ensures |r| <= 1
    ensures forall k :: 0 <= k < |r| ==> r[k].field == f
    ensures r == [] <==> v.Some? && |v.value| >= 1
  {
    if v.None? then [Issue(f, Missing, None)]
    else if |v.value| < 1 then [Issue(f, TooShort(1), Some(message))]
    else []
  }

  /** A required email address (`z.string().email(message)`). */
  function EmailIssues(v: Option<string>, validEmail: string -> bool): (r: seq<Issue>)
    ensures |r| <= 1
    ensures forall k :: 0 <= k < |r| ==> r[k].field == Email
    ensures r == [] <==> v.Some? && validEmail(v.value)
  {
    if v.None? then [Issue(Email, Missing, None)]
    else if !validEmail(v.value) then [Issue(Email, NotAnEmail, Some(EmailMessage))]
    else []
  }

  /** An optional string of at most zero characters (`z.string().max(0).optional()`). */
  function HoneyIssues(v: Option<string>): (r: seq<Issue>)
    ensures |r| <= 1
    ensures forall k :: 0 <= k < |r| ==> r[k].field == Honey
    ensures r == [] <==> v.None? || v.value == ""
  {
    if v.Some? && |v.value| > 0 then [Issue(Honey, TooLong(0), None)] else []
  }

  /** Every issue the schema reports for `req`, in field order. `questions`
      is an optional string and contributes none. */
  function Issues(req: Request, validEmail: string -> bool): (r: seq<Issue>)
    ensures forall j, k :: 0 <= j < k < |r| ==> Position(r[j].field) < Position(r[k].field)
    ensures forall k :: 0 <= k < |r| ==> r[k].field != Questions
  {
    var a := MinOneIssues(Name, req.name, NameMessage);
    var b := EmailIssues(req.email, validEmail);
    var c := MinOneIssues(Package, req.package, PackageMessage);
    var d := HoneyIssues(req.honey);
    var r := a + b + c + d;
    assert forall k :: 0 <= k < |r| ==>
        Position(r[k].field) == (if k < |a| then 0 else if k < |a| + |b| then 1 else if k < |a| + |b| + |c| then 2 else 4)
    by {
      forall k | 0 <= k < |r|
        ensures Position(r[k].field) ==
          (if k < |a| then 0 else if k < |a| + |b| then 1 else if k < |a| + |b| + |c| then 2 else 4)
      {
        if k < |a| { assert r[k] == a[k]; }
        else if k < |a| + |b| { assert r[k] == b[k - |a|]; }
        else if k < |a| + |b| + |c| { assert r[k] == c[k - |a| - |b|]; }
        else { assert r[k] == d[k - |a| - |b| - |c|]; }
      }
    }
    r
  }

  /** The issues name exactly the fields whose rule fails. */
  lemma IssuesNameFailingFields(req: Request, validEmail: string -> bool)
    ensures forall f: Field ::
      !Accepts(req, f, validEmail) <==>
      exists k :: 0 <= k < |Issues(req, validEmail)| && Issues(req, validEmail)[k].field == f
  {
    var a := MinOneIssues(Name, req.name, NameMessage);
    var b := EmailIssues(req.email, validEmail);
    var c := MinOneIssues(Package, req.package, PackageMessage);
    var d := HoneyIssues(req.honey);
    var all := Issues(req, validEmail);
    assert all == a + b + c + d;
    forall f: Field
      ensures !Accepts(req, f, validEmail) <==> exists k :: 0 <= k < |all| && all[k].field == f
    {
      if !Accepts(req, f, validEmail) {
        match f
        case Name => assert all[0] == a[0];
        case Email => assert all[|a|] == b[0];
        case Package => assert all[|a| + |b|] == c[0];
        case Honey => assert all[|a| + |b| + |c|] == d[0];
      } else {
        forall k | 0 <= k < |all| ensures all[k].field != f {
          if k < |a| { assert all[k] == a[k]; }
          else if k < |a| + |b| { assert all[k] == b[k - |a|]; }
          else if k < |a| + |b| + |c| { assert all[k] == c[k - |a| - |b|]; }
          else { assert all[k] == d[k - |a| - |b| - |c|]; }
        }
      }
    }
  }

  /** `contactFormSchema.safeParse`: the parsed data when every field passes,
      otherwise every issue found. */
  function Validate(req: Request, validEmail: string -> bool): (r: Result<ContactData, seq<Issue>>)
    ensures r.Success? <==> Conforms(req, validEmail)
    ensures r.Success? ==>
      && Some(r.value.name) == req.name
      && Some(r.value.email) == req.email
      && Some(r.value.package) == req.package
      && r.value.questions == req.questions
      && r.value.honey == req.honey
    ensures r.Failure? ==> |r.error| > 0
    ensures r.Failure? ==> forall f: Field ::
      !Accepts(req, f, validEmail) <==> exists k :: 0 <= k < |r.error| && r.error[k].field == f
  {
    IssuesNameFailingFields(req, validEmail);
    var issues := Issues(req, validEmail);
    if issues == [] then
      assert Accepts(req, Name, validEmail) && Accepts(req, Email, validEmail)
        && Accepts(req, Package, validEmail) && Accepts(req, Honey, validEmail);
      Success(ContactData(req.name.value, req.email.value, req.package.value, req.questions, req.honey))
    else
      assert !Accepts(req, issues[0].field, validEmail);
      Failure(issues)
  }

  /** The accepted data, read back as a request. */
  function AsRequest(d: ContactData): Request {
    Request(Some(d.name), Some(d.email), Some(d.package), d.questions, d.honey)
  }

  /** Validating what the schema accepted accepts it again, unchanged. */
  lemma ValidateIdempotent(req: Request, validEmail: string -> bool)
    requires Validate(req, validEmail).Success?
    ensures Validate(AsRequest(Validate(req, validEmail).value), validEmail) == Validate(req, validEmail)
  {
  }

  /** An empty name, package or email is reported with the message declared on
      its schema line; a missing required field is reported as missing. */
  lemma DeclaredMessages(req: Request, validEmail: string -> bool)
    ensures req.name == Some("") ==> Issues(req, validEmail)[0] == Issue(Name, TooShort(1), Some(NameMessage))
    ensures req.name.None? ==> Issues(req, validEmail)[0] == Issue(Name, Missing, None)
    ensures req.email.Some? && !validEmail(req.email.value) ==>
      Issue(Email, NotAnEmail, Some(EmailMessage)) in Issues(req, validEmail)
    ensures req.package == Some("") ==>
      Issue(Package, TooShort(1), Some(PackageMessage)) in Issues(req, validEmail)
  {
    var a := MinOneIssues(Name, req.name, NameMessage);
    var b := EmailIssues(req.email, validEmail);
    var c := MinOneIssues(Package, req.package, PackageMessage);
    assert Issues(req, validEmail) == a + b + c + HoneyIssues(req.honey);
    if req.email.Some? && !validEmail(req.email.value) {
      assert Issues(req, validEmail)[|a|] == b[0];
    }
    if req.package == Some("") {
      assert Issues(req, validEmail)[|a| + |b|] == c[0];
    }
  }

  /** `questions` never decides the verdict: any value, or none, gives the
      same acceptance, and an accepted one is passed through as it was. */
  lemma QuestionsNeverReject(req: Request, questions: Option<string>, validEmail: string -> bool)
    ensures Validate(req.(questions := questions), validEmail).Success? == Validate(req, validEmail).Success?
    ensures Validate(req.(questions := questions), validEmail).Success? ==>
      Validate(req.(questions := questions), validEmail).value.questions == questions
  {
  }

  /** The name rule does not trim: a name of whitespace alone, which trims to
      nothing, is a valid name. */
  lemma BlankNameAccepted(req: Request, validEmail: string -> bool)
    requires req.name.Some? && |req.name.value| > 0 && AllWhitespace(req.name.value)
    ensures Accepts(req, Name, validEmail)
    ensures Trim(req.name.value) == ""
  {
    TrimEmptyIff(req.name.value);
  }

  /** The package rule does not restrict the value to the offered packages:
      any non-empty string passes. */
  lemma AnyPackageAccepted(req: Request, validEmail: string -> bool)
    requires req.package.Some? && req.package.value != ""
    ensures Accepts(req, Package, validEmail)
  {
  }

  /** Any honeypot value with a character in it is rejected, whitespace alone
      included: `max(0)` does not trim. */
  lemma FilledHoneyRejected(req: Request, validEmail: string -> bool)
    requires req.honey.Some? && req.honey.value != ""
    ensures Validate(req, validEmail).Failure?
    ensures Issue(Honey, TooLong(0), None) in Validate(req, validEmail).error
  {
    var r := Issues(req, validEmail);
    assert r[|r| - 1] == Issue(Honey, TooLong(0), None);
  }

  /** An empty name, a malformed email and an empty package give three issues,
      one per field, in schema order. */
  lemma ThreeFieldIssues(validEmail: string -> bool)
    requires !validEmail("bad")
    ensures Validate(Request(Some(""), Some("bad"), Some(""), None, None), validEmail)
      == Failure([Issue(Name, TooShort(1), Some(NameMessage)),
                  Issue(Email, NotAnEmail, Some(EmailMessage)),
                  Issue(Package, TooShort(1), Some(PackageMessage))])
  {
    var req := Request(Some(""), Some("bad"), Some(""), None, None);
    assert MinOneIssues(Name, req.name, NameMessage) == [Issue(Name, TooShort(1), Some(NameMessage))];
    assert EmailIssues(req.email, validEmail) == [Issue(Email, NotAnEmail, Some(EmailMessage))];
    assert HoneyIssues(req.honey) == [];
    assert Issues(req, validEmail) == [Issue(Name, TooShort(1), Some(NameMessage)),
      Issue(Email, NotAnEmail, Some(EmailMessage)), Issue(Package, TooShort(1), Some(PackageMessage))];
  }
}
