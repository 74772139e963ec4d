/** The contact form's client-side gate: `validateForm` over the trimmed name,
    e-mail and message, and the submit handler's trimming of the raw fields. */
module ContactForm {
  import opened JsText
  import Email

  /** The three rules, one per field, each with its own notification. */
  datatype FormRule = NameGiven | EmailWellFormed | MessageLongEnough

  /** `validateForm`'s outcome: the boolean it returns, together with the one
      rule whose error notification it showed when it returns false. */
  datatype Validation = Valid | Invalid(failed: FormRule)

  /** The kinds `showNotification` distinguishes by colour and icon. */
  datatype NotificationKind = Success | Error | Info

  datatype Notification = Notification(message: string, kind: NotificationKind)

  const MinMessageLength: nat := 10

  /** The order in which `validateForm` checks the rules. */
  const Rules: seq<FormRule> := [NameGiven, EmailWellFormed, MessageLongEnough]

  /** Whether one rule holds of the (already trimmed) fields. */
  predicate Passes(rule: FormRule, name: string, email: string, message: string) {
    match rule
    case NameGiven => |name| > 0
    case EmailWellFormed => Email.IsValidEmail(email)
    case MessageLongEnough => Utf16Length(message) >= MinMessageLength
  }

  /** The position of a rule in `Rules`. */
  function Rank(rule: FormRule): (k: nat)
    ensures k < |Rules| && Rules[k] == rule
  {
    match rule
    case NameGiven => 0
    case EmailWellFormed => 1
    case MessageLongEnough => 2
  }

  /** `validateForm`: the first rule that fails, each guard written as the
      source writes it, falsy-string test included. */
  function ValidateForm(name: string, email: string, message: string): (r: Validation)
    ensures r.Valid? <==> forall k | 0 <= k < |Rules| :: Passes(Rules[k], name, email, message)
    ensures r.Invalid? ==> !Passes(r.failed, name, email, message)
    ensures r.Invalid? ==> forall k | 0 <= k < Rank(r.failed) :: Passes(Rules[k], name, email, message)
  {
    if name == "" then
      assert !Passes(Rules[0], name, email, message);
      Invalid(NameGiven)
    else if email == "" || !Email.IsValidEmail(email) then
      assert !Passes(Rules[1], name, email, message);
      Invalid(EmailWellFormed)
    else if message == "" || Utf16Length(message) < MinMessageLength then
      assert !Passes(Rules[2], name, email, message);
      Invalid(MessageLongEnough)
    else
      Valid
  }

  /** The error notification `validateForm` shows when a rule fails. */
  function ErrorNotification(rule: FormRule): (n: Notification)
    ensures n.kind == Error
  {
    match rule
    case NameGiven => Notification("Please enter your name", Error)
    case EmailWellFormed => Notification("Please enter a valid email address", Error)
    case MessageLongEnough => Notification("Please enter a message (at least 10 characters)", Error)
  }

  /** The notifications one call of `validateForm` shows: none when it accepts,
      exactly one, the first failing rule's, when it refuses. */
  function ValidationNotifications(name: string, email: string, message: string): (ns: seq<Notification>)
    ensures |ns| <= 1
    ensures |ns| == 0 <==> ValidateForm(name, email, message).Valid?
    ensures |ns| == 1 ==> ns[0] == ErrorNotification(ValidateForm(name, email, message).failed)
  {
    match ValidateForm(name, email, message)
    case Valid => []
    case Invalid(rule) => [ErrorNotification(rule)]
  }

  /** The submit handler's gate: the raw field values are trimmed before they
      reach `validateForm`, so white space around a field never counts, and a
      name of white space alone is refused as missing whatever the other fields
      hold. */
  function SubmitValidation(rawName: string, rawEmail: string, rawMessage: string): (r: Validation)
    ensures r.Valid? <==>
      |Trim(rawName)| > 0 && Email.IsValidEmail(Trim(rawEmail)) && Utf16Length(Trim(rawMessage)) >= MinMessageLength
    ensures AllWhitespace(rawName) ==> r == Invalid(NameGiven)
  {
    TrimBlank(rawName);
    ValidateForm(Trim(rawName), Trim(rawEmail), Trim(rawMessage))
  }

  /** A rule's verdict settles the outcome: the form is refused with rule `rule`
      exactly when that rule fails and every earlier one passes. */
  lemma FirstFailingRule(name: string, email: string, message: string, rule: FormRule)
    ensures ValidateForm(name, email, message) == Invalid(rule) <==>
      (!Passes(rule, name, email, message) &&
       forall k | 0 <= k < Rank(rule) :: Passes(Rules[k], name, email, message))
  {
  }

  /** The `!email` and `!message` halves of the guards add nothing: an empty
      e-mail is malformed and an empty message is too short. */
  lemma EmptyFieldsFailTheirRules(name: string)
    ensures !Passes(EmailWellFormed, name, "", "")
    ensures !Passes(MessageLongEnough, name, "", "")
  {
  }

  /** Validation is insensitive to re-trimming: the submit gate gives the same
      verdict on fields that were trimmed already. */
  lemma SubmitGateStable(rawName: string, rawEmail: string, rawMessage: string)
    ensures SubmitValidation(Trim(rawName), Trim(rawEmail), Trim(rawMessage))
         == SubmitValidation(rawName, rawEmail, rawMessage)
  {
    TrimIdempotent(rawName);
    TrimIdempotent(rawEmail);
    TrimIdempotent(rawMessage);
  }
}
