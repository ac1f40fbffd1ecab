# Real-estate photography site: contact handling and gallery, in Dafny

This project models the logic of a marketing site for a real-estate photography
business. It covers two parts.

- **Contact submissions.** `contactFormSchema` checks the form fields. There are two
  `POST /api/contact` handlers, and they are modelled side by side without being
  reconciled:
  - The Postmark handler validates the body with the schema. It then builds a
    confirmation copy for the submitter and a notice for the admin, and dispatches
    both with `Promise.allSettled`.
  - The Resend handler checks a trimmed honeypot first and the required fields
    second. It then sends one HTML notice to the operator.

  Each handler is a pure function. It takes the request body and the provider
  outcomes, and returns the JSON response together with the messages it handed to
  the provider.
- **Gallery.** This covers the category filter over the portfolio items, the filter
  buttons' labels and the page state that opens and closes the lightbox. It also
  covers the lightbox modal's current index, which the previous and next buttons
  move round the list cyclically. The filter and the page are stated for any list
  of items; the item counts and the stale-lightbox example are about the site's
  twelve items. The lightbox lemmas hold for any image list.

Modules:
- `Wrappers` holds Option and Result.
- `JsText` holds the JavaScript string semantics the code relies on: truthiness, `||`,
  `trim` and upper-casing the first character. It also holds `Contains`, a helper the
  proofs use to say that a message text mentions a value.
- `ContactSchema` holds the schema.
- `Http` holds the body, message and response records.
- `PostmarkRoute` and `ResendRoute` hold the two handlers.
- `Variants` compares the two handlers.
- `PortfolioData`, `Portfolio` and `Lightbox` model the gallery.

Modelling choices:
- zod's email-address check is treated as the abstract predicate `validEmail:
  string -> bool`, a parameter of every member that needs it.
- A provider call is an input `SendOutcome`: `Sent` if it resolved, `Rejected` if its
  promise rejected.
- Issue messages. Where a schema line declares a message, the issue carries it. zod's
  default texts are carried as `None`. That covers a missing field and the honeypot's
  `max(0)`.
- JavaScript's `%` truncates toward zero. It is written out as `Lightbox.JsRem`.
- The page state is the selected filter plus, while `lightboxIndex` is set, that index
  and the mounted modal's own `currentIndex`. The modal's `useState` takes
  `startIndex` only when it mounts, so a later click in the grid changes
  `lightboxIndex` but not `currentIndex`.
- While the modal shows an image, its `fixed inset-0` overlay (LightboxModal.tsx:25)
  covers the grid, so grid images cannot be clicked. The filter `<button>`s stay in the
  tab order, because there is no focus trap, so they can still be activated from the
  keyboard. The page model allows `Select` in every state.

Facts about the two handlers:
- A schema failure in the Postmark handler throws inside the `try`, reaches the catch
  block and gets a 500 with `success: false`.
- The Postmark schema rejects any non-empty honeypot before the handler's own
  honeypot branch runs. That branch, a silent 200, is dead code
  (`PostmarkRoute.SilentSuccessUnreachable`).
- The Resend handler sends one message, to the operator; the submitter gets none.

## Model

| member | source | states |
|---|---|---|
| JsText.TrimStart | src/app/api/contact/route.tsx:12 | the result is a suffix of the input, everything dropped is whitespace, and the result does not start with whitespace |
| JsText.TrimEnd | src/app/api/contact/route.tsx:12 | the result is a prefix of the input, everything dropped is whitespace, and the result does not end with whitespace |
| JsText.Trim | src/app/api/contact/route.tsx:12 | `trim` leaves a contiguous piece of the input with only whitespace on either side of it, and the piece neither starts nor ends with whitespace |
| JsText.TrimEmptyIff | src/app/api/contact/route.tsx:12 | `s.trim()` is `""` if and only if every character of `s` is whitespace |
| JsText.Capitalize | src/components/Portfolio.tsx:64 | the first character upper-cased (ASCII letters only), every later character unchanged, so the length is kept |
| ContactSchema.MinOneIssues | src/types/contact.ts:4-6 | a `min(1)` field has no issue exactly when it is present and non-empty; an issue names that field |
| ContactSchema.EmailIssues | src/types/contact.ts:5 | the email field has no issue exactly when it is present and passes the email check |
| ContactSchema.HoneyIssues | src/types/contact.ts:8 | the honeypot has no issue exactly when it is absent or `""` |
| ContactSchema.Issues | src/types/contact.ts:3-9 | issues come in the schema's field order, at most one per field, and `questions` never has one |
| ContactSchema.IssuesNameFailingFields | src/types/contact.ts:3-9 | a field appears among the reported issues if and only if its rule (`Accepts`) rejects the request |
| ContactSchema.Validate | src/types/contact.ts:3-9 | success exactly when all five rules accept; on success every field is passed through unchanged; on failure the issues are non-empty and name exactly the failing fields |
| ContactSchema.ValidateIdempotent | src/types/contact.ts:3-9 | validating the accepted data again yields the same data |
| ContactSchema.DeclaredMessages | src/types/contact.ts:4-6 | an empty name, an empty package and a malformed email carry their declared messages; a missing name is reported as missing |
| ContactSchema.QuestionsNeverReject | src/types/contact.ts:7 | changing `questions` never changes acceptance, and an accepted value is passed through |
| ContactSchema.BlankNameAccepted | src/types/contact.ts:4 | any non-empty name of whitespace alone passes, although it trims to `""` |
| ContactSchema.AnyPackageAccepted | src/types/contact.ts:6 | any non-empty package passes, including one outside the offered three |
| ContactSchema.FilledHoneyRejected | src/types/contact.ts:8 | any non-empty honeypot, whitespace alone included, makes validation fail with the honeypot's `max(0)` issue |
| ContactSchema.ThreeFieldIssues | src/types/contact.ts:4-6 | empty name, malformed email and empty package give exactly three issues, in field order, with their messages |
| PostmarkRoute.ClientEmail | src/app/api/contact/route.ts:23-31 | the confirmation copy goes from the support address to the submitter's email, with the fixed subject, as plain text |
| PostmarkRoute.AdminEmail | src/app/api/contact/route.ts:34-42 | the notice goes from the support address to the admin, with the subject "New inquiry from" and the name, as plain text |
| PostmarkRoute.Post | src/app/api/contact/route.ts:10-65 | a non-JSON body gives 500 with `success:false` and no mail; a schema failure gives 500 with `success:false`, the schema's own issues as the error, and no mail; an accepted body gives 200 `success:true` with both settled outcomes, whatever they are, and two messages: first to the submitter, then to the admin |
| PostmarkRoute.HoneyNeverSends | src/app/api/contact/route.ts:15-20 | a truthy honeypot never leads to a send, and the answer is the schema's 500 |
| PostmarkRoute.SilentSuccessUnreachable | src/app/api/contact/route.ts:18-20 | no body gets a 200 without both messages, so the silent-success branch is dead |
| PostmarkRoute.SuccessIff | src/app/api/contact/route.ts:15-53 | `success:true` if and only if the body is JSON the schema accepts |
| PostmarkRoute.ClientCopyContents | src/app/api/contact/route.ts:23-42 | both messages use the one sender address; the client copy has the fixed subject and mentions the name and the package |
| PostmarkRoute.AdminNoticeContents | src/app/api/contact/route.ts:34-42 | the admin subject names the submitter; the body mentions the name, the email, the package and the questions, or "None" when there are none |
| PostmarkRoute.ThreeFieldErrorsAnswer | src/app/api/contact/route.ts:15-64 | empty name, malformed email and empty package: the answer is a 500 carrying exactly the three field issues in schema order, with nothing sent |
| PostmarkRoute.WellFormedScenario | src/app/api/contact/route.ts:15-53 | a well-formed submission with an empty honeypot gives 200 and messages to the submitter and to the admin |
| ResendRoute.Notice | src/app/api/contact/route.tsx:26-37 | the notice goes from the fixed sender to the operator, with the subject "New inquiry from" and the name, as HTML |
| ResendRoute.Post | src/app/api/contact/route.tsx:6-47 | spam gives 400 "Spam detected" and nothing sent; otherwise a missing field gives 400 "Missing required fields" and nothing sent; otherwise exactly one message is sent, the operator notice built from the request, with 200 `success:true` if and only if it was sent and 500 "Failed to send email" if and only if it was rejected; a non-JSON body gives that 500 too |
| ResendRoute.SpamIff | src/app/api/contact/route.tsx:12 | `IsSpam` holds if and only if the honeypot holds a character that is not whitespace |
| ResendRoute.WhitespaceHoneyNotSpam | src/app/api/contact/route.tsx:12 | any honeypot of whitespace alone is not spam |
| ResendRoute.SpamCheckedFirst | src/app/api/contact/route.tsx:12-21 | any honeypot with a non-whitespace character gets 400 "Spam detected" and no send, whatever the other fields hold, missing required ones included |
| ResendRoute.MissingRequiredMatchesSchema | src/app/api/contact/route.tsx:16 | the truthiness check passes exactly when the schema would accept the name and the package and the email is non-empty |
| ResendRoute.NoEmailFormatCheck | src/app/api/contact/route.tsx:12-37 | any request that is not spam and has a non-empty name, email and package is sent on as the notice, whatever the email's format and whatever `questions` holds |
| ResendRoute.OnlyOperatorNotified | src/app/api/contact/route.tsx:26-37 | at most one message is sent, and every message goes to the operator |
| ResendRoute.NoticeContents | src/app/api/contact/route.tsx:30-36 | the notice mentions the name, the email, the package and the questions, or "N/A" when there are none |
| Variants.BlankHoneyDiverges | src/app/api/contact/route.tsx:12 | for any request with a non-empty, whitespace-only honeypot and non-empty name, email and package: Postmark answers 500 and sends nothing, Resend sends exactly its notice |
| Variants.SpamDiverges | src/app/api/contact/route.ts:15-20 | a spam honeypot: Postmark answers 500 with the honeypot issue, Resend answers 400 "Spam detected"; neither sends |
| Variants.MalformedEmailDiverges | src/app/api/contact/route.tsx:16-21 | for any request that is not spam, with non-empty name and package and a non-empty email the schema's check rejects: Postmark answers 500 and sends nothing, Resend sends exactly its notice |
| PortfolioData.ItemCounts | src/components/data/portfolio.tsx:10-71 | twelve items: five interior and seven exterior |
| PortfolioData.ItemSourcesDistinct | src/components/data/portfolio.tsx:10-71 | no two items share a `src` |
| Portfolio.Label | src/components/Portfolio.tsx:64 | a button's text has its selection name's length, an upper-cased first character and the rest unchanged |
| Portfolio.ButtonLabels | src/components/Portfolio.tsx:54-64 | the three buttons, in the order they are drawn, read "All", "Interior" and "Exterior" |
| Portfolio.KeepCategory | src/components/Portfolio.tsx:15 | every kept item has the category; every source item with it is kept; the result is an order-preserving subsequence; its length is the category's count |
| Portfolio.Filtered | src/components/Portfolio.tsx:12-15 | "all" gives the list unchanged; any view is an order-preserving subsequence holding exactly the items the selection lets through, and a category view is as long as that category's count |
| Portfolio.CategoriesPartition | src/components/Portfolio.tsx:12-15 | the interior and exterior views together hold every item exactly once, by size and by multiset |
| Portfolio.FilteredSizes | src/components/Portfolio.tsx:12-15 | on the site's items "all" gives the list unchanged, interior gives 5 and exterior 7 |
| Portfolio.Step | src/components/Portfolio.tsx:54-111 | a filter button can always be activated and keeps the lightbox as it is; a grid click needs the overlay not drawn and an image at that position, and sets `lightboxIndex` while a mounted modal keeps its `currentIndex`; close and the arrows need the overlay, close unmounts the modal and an arrow moves it as `Lightbox.Press` does |
| Portfolio.OpenLightboxShowsClicked | src/components/Portfolio.tsx:87-111 | when the lightbox opens, the modal is `Lightbox.Mount` of the filtered view at the clicked position, and it shows the clicked image |
| Portfolio.RunKeepsInRange | src/components/Portfolio.tsx:78-111 | any run of events, keyboard included, keeps both lightbox indices positions in the full item list |
| Portfolio.ReachableInRange | src/components/Portfolio.tsx:9-10 | from "all" with the lightbox closed, every reachable state has both indices in range of the full list |
| Portfolio.PointerRunKeepsCoherent | src/components/Portfolio.tsx:54-111 | in any run of pointer events a mounted lightbox shows an image of its current view |
| Portfolio.StaleLightboxAfterFilter | src/components/Portfolio.tsx:105-111 | activating a filter from the keyboard while the modal's index lies past the new view leaves a mounted modal that shows nothing, and a click in the new grid still shows nothing |
| Portfolio.StaleLightboxExample | src/components/Portfolio.tsx:87-111 | on the site's items: clicking image 10 under "all" opens the lightbox on it, and the interior view has only five images |
| Portfolio.StepReset | src/components/Portfolio.tsx:57 | with the corrected filter button, every single event keeps a mounted lightbox showing an image of its view |
| Portfolio.RunResetKeepsCoherent | src/components/Portfolio.tsx:54-111 | with the corrected filter button, every run, keyboard included, keeps a mounted lightbox showing an image of its view |
| Portfolio.ResetReachableShown | src/components/Portfolio.tsx:105-111 | with the corrected filter button, in every reachable state a mounted lightbox shows an image |
| Lightbox.JsRem | src/components/LightboxModal.tsx:17-18 | JavaScript's remainder agrees with the mathematical one on non-negative operands and is non-positive for negative ones |
| Lightbox.Next | src/components/LightboxModal.tsx:18 | stays in [0, n) from an in-range index, advances by one, and wraps `n-1` to `0` |
| Lightbox.Prev | src/components/LightboxModal.tsx:17 | stays in [0, n) from an in-range index, steps back by one, and wraps `0` to `n-1` |
| Lightbox.PrevNextInverse | src/components/LightboxModal.tsx:17-18 | previous undoes next and next undoes previous |
| Lightbox.NextTimes | src/components/LightboxModal.tsx:18 | repeated presses of next stay in range |
| Lightbox.NextTimesOffset | src/components/LightboxModal.tsx:18 | k ≤ n presses of next move the index k places round the ring |
| Lightbox.FullCycle | src/components/LightboxModal.tsx:18 | n presses of next return to the start |
| Lightbox.Mount | src/components/LightboxModal.tsx:15 | the modal keeps the images it was given; it is shown (`Shown`, line 22) exactly when `startIndex` is a position in them, and then it is on the start image |
| Lightbox.Displayed | src/components/LightboxModal.tsx:22 | an image is shown if and only if the index is in range, and it is one of the images |
| Lightbox.MountDisplays | src/components/LightboxModal.tsx:14-22 | the modal's current index is `startIndex`, in range or not; it shows that image when the index is in range and nothing for an empty list or an out-of-range start |
| Lightbox.Press | src/components/LightboxModal.tsx:17-64 | next moves to the following image and wraps the last to the first, previous moves back and wraps the first to the last; the images are kept and an image stays shown; with nothing shown there are no buttons and nothing changes |
| Lightbox.PressAllKeepsShown | src/components/LightboxModal.tsx:17-22 | any run of presses keeps an image shown |
| Lightbox.NextRoundTrip | src/components/LightboxModal.tsx:18 | one press of next per image brings the modal back to its starting state |

## Findings

| source | as written | input that shows it | evidently intended | confidence | as-written member | corrected member |
|---|---|---|---|---|---|---|
| src/components/Portfolio.tsx:57 | a filter change leaves `lightboxIndex` set, and the mounted modal keeps its `currentIndex` (LightboxModal.tsx:15) while receiving the new `filteredItems` | under "all" click image 10, then activate Interior from the keyboard (five images): the overlay vanishes, and clicking any interior image leaves the modal at index 10, showing nothing | a filter change closes the lightbox, so a mounted modal always shows an image of its view | medium, not executed | Portfolio.StaleLightboxAfterFilter | Portfolio.RunResetKeepsCoherent |

## Left out

- The mail providers are not modelled. Each Postmark or Resend call is only its outcome,
  `Sent` or `Rejected`. A provider error that resolves instead of rejecting counts as
  `Sent`, because neither handler inspects what the call returns.
- zod's email-address regular expression is not modelled; it is the parameter
  `validEmail`.
- zod's default issue texts, for a missing field and for the honeypot's maximum
  length, are not modelled; they appear as `None`.
- The Postmark handler returns the ZodError's `message` text. That text is a rendering
  of the issues, and the model keeps the issues instead (`SchemaIssues`).
- The two calls under `Promise.allSettled` are modelled as both attempted, with
  independent outcomes and no ordering. Concurrency is not modelled.
- Fields of the request body are optional strings. These cases are outside the model:
  a JSON field that is not a string, a body that is JSON but not an object, and the
  exception `trim` would throw on a non-string honeypot. A body that is not JSON at all
  is modelled (`Unparseable`).
- Logging, `NextResponse` construction and reading environment variables are I/O, and
  are not modelled.
- JsText.Capitalize: upper-cases ASCII letters only, and so keeps the length.
  JavaScript's `toUpperCase` follows full Unicode case mapping, which can change the
  length (`"ß"` becomes `"SS"`). Portfolio.tsx:64 applies it only to the three ASCII
  category names, where the two agree.
- Portfolio.Label: inherits the same ASCII-only upper-casing from `JsText.Capitalize`.
- String lengths count Unicode scalar values, while JavaScript counts UTF-16 units. The
  schema only compares lengths with 0 and 1, and the two counts agree on those
  comparisons.
- Presentation is not modelled: the animation variants with their random offsets,
  markup, styling, scrolling, the other page sections and the toasts.
- The client-side form (src/components/Contact.tsx) is not part of this model. It only
  repeats the same schema and wires it to the UI.
- The form context holder (src/context/ContactFormContext.tsx) is not part of this
  model. The form never reads its value.
- The keydown-only `lightbox-modal.tsx` is not part of this model.
- Every item's category is one of interior or exterior by construction. The `Category`
  datatype has only those two values, so no lemma is needed.
- Pointer and focus handling beyond the overlay is not modelled: the grid images are
  `div`s with a click handler and are reached by the pointer alone, and the Escape key
  does nothing in this modal.
- The page model is stated for any item list. The site passes `portfolioItems`
  (`PortfolioData.Items`), and only the counts and the stale-lightbox example are
  stated on that list.
