/** The contact form: five fields with declarative validators, plus the CSRF
    token every form of the site carries. Validation checks every field and
    collects one error per failing field; the form is valid only when no field
    has an error. */
module Forms {
  import opened Wrappers
  import opened Models

  /** Python's `str.isspace`: the characters `str.strip()` removes. */
  predicate IsSpace(c: char) {
    || c == ' ' || '\t' <= c <= '\r' || '\U{1C}' <= c <= '\U{1F}'
    || c == '\U{85}' || c == '\U{A0}' || c == '\U{1680}'
    || '\U{2000}' <= c <= '\U{200A}' || c == '\U{2028}' || c == '\U{2029}'
    || c == '\U{202F}' || c == '\U{205F}' || c == '\U{3000}'
  }

  /** The data-required validator rejects a value that is empty or made only
      of whitespace. */
  predicate Blank(s: string) {
    forall i :: 0 <= i < |s| ==> IsSpace(s[i])
  }

  const CategoryChoices: seq<string> := ["general", "technical", "feedback", "other"]
  const MinMessageLength: nat := 10
  const MaxMessageLength: nat := 500

  /** What the browser posted. A category or subscribe key that is absent from
      the form data is `None`; `csrfValid` is the outcome of the session-signed
      token check, which is not modelled. */
  datatype ContactInput = ContactInput(
    name: string,
    email: string,
    category: Option<string>,
    message: string,
    subscribe: Option<string>,
    csrfValid: bool)

  datatype Field = NameField | EmailField | CategoryField | MessageField | SubscribeField | CsrfField

  const AllFields: set<Field> :=
    {NameField, EmailField, CategoryField, MessageField, SubscribeField, CsrfField}

  datatype FieldError =
    | NameRequired
    | EmailRequired
    | EmailInvalid
    | NotAValidChoice
    | MessageRequired
    | MessageLength
    | CsrfInvalid

  /** The message shown beside the field. */
  function ErrorText(e: FieldError): string {
    match e
    case NameRequired => "⚠️ 请告诉我您的称呼"
    case EmailRequired => "⚠️ 邮箱是联系您的关键"
    case EmailInvalid => "⚠️ 这看起来不是一个有效的邮箱地址"
    case NotAValidChoice => "Not a valid choice."
    case MessageRequired => "⚠️ 请写下您想说的话"
    case MessageLength => "⚠️ 留言内容请控制在10到500个字符之间"
    case CsrfInvalid => "The CSRF token is missing."
  }

  /** The select field keeps its default 'general' when the key is absent. */
  function CategoryData(input: ContactInput): string {
    input.category.GetOr(DefaultCategory)
  }

  /** A checkbox is False when absent or when its value is 'false' or empty. */
  function SubscribeData(raw: Option<string>): bool {
    raw.Some? && raw.value != "false" && raw.value != ""
  }

  /** The first failing validator of one field; the data-required validator
      stops the chain, so a blank field reports only that it is required. */
  function ErrorFor(input: ContactInput, f: Field, isEmail: string -> bool): Option<FieldError> {
    match f
    case NameField =>
      if Blank(input.name) then Some(NameRequired) else None
    case EmailField =>
      if Blank(input.email) then Some(EmailRequired)
      else if !isEmail(input.email) then Some(EmailInvalid)
      else None
    case CategoryField =>
      if CategoryData(input) in CategoryChoices then None else Some(NotAValidChoice)
    case MessageField =>
      if Blank(input.message) then Some(MessageRequired)
      else if |input.message| < MinMessageLength || |input.message| > MaxMessageLength then Some(MessageLength)
      else None
    case SubscribeField =>
      None
    case CsrfField =>
      if input.csrfValid then None else Some(CsrfInvalid)
  }

  /** `form.errors`: every field with its error, none left out. */
  function Errors(input: ContactInput, isEmail: string -> bool): (e: map<Field, FieldError>)
    ensures e.Keys <= AllFields
  {
    map f | f in AllFields && ErrorFor(input, f, isEmail).Some? :: ErrorFor(input, f, isEmail).value
  }

  /** The rules of the form, field by field. `isEmail` is the email-shape
      validator, taken as given. */
  predicate Validates(input: ContactInput, isEmail: string -> bool) {
    && !Blank(input.name)
    && !Blank(input.email) && isEmail(input.email)
    && CategoryData(input) in CategoryChoices
    && !Blank(input.message)
    && MinMessageLength <= |input.message| <= MaxMessageLength
    && input.csrfValid
  }

  /** The form is valid exactly when no field reports an error. */
  lemma ValidatesIffNoErrors(input: ContactInput, isEmail: string -> bool)
    ensures Validates(input, isEmail) <==> Errors(input, isEmail) == map[]
  {
    var e := Errors(input, isEmail);
    if !Validates(input, isEmail) {
      var f :| f in AllFields && ErrorFor(input, f, isEmail).Some?;
      assert f in e;
    }
  }

  /** A non-blank message is accepted exactly when its length lies in
      [10, 500]; so 9 and 501 characters are both rejected. */
  lemma MessageLengthWindow(input: ContactInput, isEmail: string -> bool)
    requires !Blank(input.message)
    ensures ErrorFor(input, MessageField, isEmail) == None <==> 10 <= |input.message| <= 500
    ensures |input.message| == 9 || |input.message| == 501 ==>
              && Errors(input, isEmail)[MessageField] == MessageLength
              && ErrorText(Errors(input, isEmail)[MessageField]) == "⚠️ 留言内容请控制在10到500个字符之间"
  {
  }

  /** An empty name is rejected with the name error, whatever the other
      fields hold. */
  lemma EmptyNameRejected(input: ContactInput, isEmail: string -> bool)
    requires input.name == ""
    ensures !Validates(input, isEmail)
    ensures NameField in Errors(input, isEmail) && Errors(input, isEmail)[NameField] == NameRequired
    ensures ErrorText(Errors(input, isEmail)[NameField]) == "⚠️ 请告诉我您的称呼"
  {
  }

  /** When the email-shape validator accepts only strings containing '@',
      an address without '@' is rejected; an empty one is reported as
      missing rather than malformed. */
  lemma EmailWithoutAtRejected(input: ContactInput, isEmail: string -> bool)
    requires forall s :: isEmail(s) ==> '@' in s
    requires '@' !in input.email
    ensures !Validates(input, isEmail)
    ensures EmailField in Errors(input, isEmail)
    ensures input.email == "" ==> Errors(input, isEmail)[EmailField] == EmailRequired
  {
    if !Blank(input.email) {
      assert !isEmail(input.email);
    }
  }

  /** The subscribe box has no validator: whatever it holds, it never
      reports an error and never decides validity. */
  lemma SubscribeUnconstrained(input: ContactInput, raw: Option<string>, isEmail: string -> bool)
    ensures SubscribeField !in Errors(input, isEmail)
    ensures Validates(input.(subscribe := raw), isEmail) == Validates(input, isEmail)
  {
  }

  /** A missing category is the default 'general', which is a valid choice;
      any category outside the four choices is rejected. */
  lemma CategoryRule(input: ContactInput, isEmail: string -> bool)
    ensures input.category == None ==> CategoryField !in Errors(input, isEmail)
    ensures input.category.Some? && input.category.value !in CategoryChoices ==>
              !Validates(input, isEmail) && Errors(input, isEmail)[CategoryField] == NotAValidChoice
  {
  }

  /** The values the form hands to the handler after validation. */
  datatype ContactData = ContactData(
    name: string,
    email: string,
    category: string,
    message: string,
    subscribe: bool)

  function Cleaned(input: ContactInput): (d: ContactData)
    ensures input.category == None ==> d.category == "general"
    ensures input.subscribe == None ==> !d.subscribe
  {
    ContactData(input.name, input.email, CategoryData(input), input.message,
                SubscribeData(input.subscribe))
  }

  /** Whatever passes the form has a message of 10 to 500 characters and one
      of the four categories. */
  lemma CleanedWellFormed(input: ContactInput, isEmail: string -> bool)
    requires Validates(input, isEmail)
    ensures 10 <= |Cleaned(input).message| <= 500
    ensures Cleaned(input).category in CategoryChoices
    ensures !Blank(Cleaned(input).name) && !Blank(Cleaned(input).email)
  {
  }
}
