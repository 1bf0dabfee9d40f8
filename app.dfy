/** The request handlers of the site: the contact form, registration, login
    and logout, the owner's listing, deletion, the profile page, and the JSON
    API (list, create, delete). They act on one `Site` object holding the two
    tables and the login session of the caller. */
module App {
  import opened Wrappers
  import opened Models
  import opened Forms
  import opened Queries

  /** The login state of the caller. */
  datatype Session = Anonymous | Authenticated(userId: nat)

  /** The owner given to a new submission: the caller's id when logged in. */
  function OwnerOf(s: Session): (owner: Option<nat>)
    ensures owner.Some? <==> s.Authenticated?
    ensures s.Authenticated? ==> owner.value == s.userId
  {
    match s
    case Anonymous => None
    case Authenticated(u) => Some(u)
  }

  // ---------------------------------------------------------------------
  // Where a successful login goes

  datatype Destination = Home | NextPage(path: string)

  /** The `next` check as written: any non-empty value starting with '/'. */
  function NextTargetAsWritten(next: Option<string>): Destination {
    if next.Some? && next.value != "" && next.value[0] == '/' then NextPage(next.value) else Home
  }

  /** The check as written accepts a protocol-relative URL, which the browser
      resolves against another host: the open redirect it means to prevent. */
  lemma NextTargetAsWrittenAcceptsOtherHost()
    ensures NextTargetAsWritten(Some("//evil.example")) == NextPage("//evil.example")
  {
  }

  /** A path on this site: one leading '/', not followed by a second '/' or
      by a backslash (which browsers read as '/'). */
  predicate LocalPath(p: string) {
    |p| >= 1 && p[0] == '/' && (|p| == 1 || (p[1] != '/' && p[1] != '\\'))
  }

  /** The corrected `next` check: only a local path is followed. */
  function NextTarget(next: Option<string>): Destination {
    if next.Some? && LocalPath(next.value) then NextPage(next.value) else Home
  }

  /** The corrected check follows `next` exactly when it is a local path,
      so a login never redirects to another host; every value it follows
      the check as written would have followed too. */
  lemma NextTargetOnlyLocal(next: Option<string>)
    ensures NextTarget(next).NextPage? <==> next.Some? && LocalPath(next.value)
    ensures NextTarget(next).NextPage? ==> NextTarget(next).path == next.value
    ensures NextTarget(next).NextPage? ==> NextTargetAsWritten(next) == NextTarget(next)
    ensures next.None? || next.value == "" ==> NextTarget(next) == Home
  {
  }

  // ---------------------------------------------------------------------
  // The message preview in the API create response

  const PreviewLength: nat := 50

  function Preview(message: string): string {
    if |message| > PreviewLength then message[..PreviewLength] + "..." else message
  }

  /** A short message is shown whole; a longer one is cut to its first 50
      characters and marked with "...", so a preview never exceeds 53. */
  lemma PreviewShape(message: string)
    ensures |message| <= 50 ==> Preview(message) == message
    ensures |message| > 50 ==>
              (|Preview(message)| == 53 && Preview(message)[..50] == message[..50]
               && Preview(message)[50..] == "...")
    ensures |Preview(message)| <= 53
  {
  }

  // ---------------------------------------------------------------------
  // The JSON body of an API create request

  /** A key of the JSON object: absent, null, or present with a value. */
  datatype JsonField<T> = Missing | Null | Value(v: T)

  datatype JsonObject = JsonObject(
    name: JsonField<string>,
    email: JsonField<string>,
    message: JsonField<string>,
    category: JsonField<string>,
    subscribe: JsonField<bool>)

  /** The request body: not declared as JSON, declared but unparsable, a JSON
      value that is not an object, or an object. */
  datatype ApiBody = NotJson | MalformedJson | NonObjectJson | Object(obj: JsonObject)

  datatype RequiredField = NameKey | EmailKey | MessageKey

  const RequiredFields: seq<RequiredField> := [NameKey, EmailKey, MessageKey]

  function KeyText(f: RequiredField): string {
    match f
    case NameKey => "name"
    case EmailKey => "email"
    case MessageKey => "message"
  }

  function Lookup(obj: JsonObject, f: RequiredField): JsonField<string> {
    match f
    case NameKey => obj.name
    case EmailKey => obj.email
    case MessageKey => obj.message
  }

  /** `data.get(field)` is truthy: present and a non-empty string. */
  predicate Truthy(v: JsonField<string>) {
    v.Value? && v.v != ""
  }

  /** `data.get('category', 'general')`; a null reaches the ORM as None and
      the column default fills it in. */
  function CategoryArgument(v: JsonField<string>): Option<string> {
    match v
    case Missing => Some(DefaultCategory)
    case Null => None
    case Value(c) => Some(c)
  }

  /** `data.get('subscribe', False)`, likewise. */
  function SubscribeArgument(v: JsonField<bool>): Option<bool> {
    match v
    case Missing => Some(DefaultSubscribe)
    case Null => None
    case Value(b) => Some(b)
  }

  /** The required-field loop: the first of name, email, message (in that
      order) that is missing or falsy, or None when all three are there. */
  method FindMissingField(obj: JsonObject) returns (missing: Option<RequiredField>)
    ensures missing.None? <==> forall i :: 0 <= i < |RequiredFields| ==> Truthy(Lookup(obj, RequiredFields[i]))
    ensures missing.Some? ==> exists i :: 0 <= i < |RequiredFields| && RequiredFields[i] == missing.value
                                && !Truthy(Lookup(obj, missing.value))
                                && forall j :: 0 <= j < i ==> Truthy(Lookup(obj, RequiredFields[j]))
  {
    for i := 0 to |RequiredFields|
      invariant forall j :: 0 <= j < i ==> Truthy(Lookup(obj, RequiredFields[j]))
    {
      if !Truthy(Lookup(obj, RequiredFields[i])) {
        return Some(RequiredFields[i]);
      }
    }
    return None;
  }

  // ---------------------------------------------------------------------
  // Handler outcomes (the page or the JSON the handler answers with)

  datatype ContactRequest = ContactGet | ContactPost(input: ContactInput)

  datatype ContactOutcome =
    | ContactPage(errors: map<Field, FieldError>)   // the form again, with its errors
    | ContactSaved(id: nat)                          // redirect to the listing

  datatype RegisterRequest =
    | RegisterGet
    | RegisterPost(username: string, email: string, formValid: bool)

  datatype RegisterOutcome =
    | RegisterAlreadySignedIn   // redirect home
    | RegisterPage              // the form again
    | Registered(userId: nat)   // signed in, redirect home
    | RegisterConflict          // the unique constraint fails the commit: server error

  datatype LoginRequest =
    | LoginGet
    | LoginPost(email: string, password: string, remember: bool, formValid: bool, next: Option<string>)

  datatype LoginOutcome =
    | LoginAlreadySignedIn                          // redirect home
    | LoginPage                                     // the form again
    | InvalidCredentials                            // one generic error, redirect to login
    | SignedIn(userId: nat, destination: Destination)

  datatype ListOutcome = ListSignInRequired | Listed(rows: seq<Submission>)

  datatype DeleteOutcome =
    | DeleteNotFound
    | DeleteForbidden
    | DeleteServerError   // an anonymous caller has no `id` attribute
    | Deleted(id: nat)

  datatype ProfileOutcome = ProfileSignInRequired | ProfileShown(user: User, submissionCount: nat)

  datatype ApiCreateOutcome =
    | ApiNotJson                          // 400
    | ApiMalformedJson                    // 400, raised while parsing
    | ApiNotAnObject                      // 500, `data.get` on a non-object
    | ApiMissingField(field: RequiredField)  // 400
    | ApiCreated(id: nat, name: string, category: string, messagePreview: string, submittedAt: int)  // 201

  function ApiCreateStatus(o: ApiCreateOutcome): int {
    match o
    case ApiNotJson => 400
    case ApiMalformedJson => 400
    case ApiNotAnObject => 500
    case ApiMissingField(_) => 400
    case ApiCreated(_, _, _, _, _) => 201
  }

  function ApiErrorMessage(o: ApiCreateOutcome): string
    requires o.ApiNotJson? || o.ApiMissingField?
  {
    if o.ApiNotJson? then "请求的内容类型必须是 application/json"
    else "缺少必填字段: " + KeyText(o.field)
  }

  datatype ApiDeleteOutcome = ApiSignInRequired | ApiNotFound | ApiForbidden | ApiDeleted(id: nat)

  function ApiDeleteStatus(o: ApiDeleteOutcome): int {
    match o
    case ApiSignInRequired => 302
    case ApiNotFound => 404
    case ApiForbidden => 403
    case ApiDeleted(_) => 200
  }

  /** The row `contact` saves for validated form data. */
  function ContactRecord(id: nat, d: ContactData, now: int, owner: Option<nat>): Submission {
    NewSubmission(id, d.name, d.email, Some(d.category), d.message, Some(d.subscribe), now, owner)
  }

  /** The row `api_create_submission` saves for an object that has all three
      required fields. */
  function ApiRecord(id: nat, obj: JsonObject, now: int, owner: Option<nat>): Submission
    requires obj.name.Value? && obj.email.Value? && obj.message.Value?
  {
    NewSubmission(id, obj.name.v, obj.email.v, CategoryArgument(obj.category), obj.message.v,
                  SubscribeArgument(obj.subscribe), now, owner)
  }

  // ---------------------------------------------------------------------
  // The site

  class Site {
    var submissions: map<nat, Submission>
    var nextSubmissionId: nat
    var users: map<nat, User>
    var nextUserId: nat
    var session: Session

    /** Ids are below their counters and match their keys; usernames and
        emails are unique; a submission's owner and the signed-in user exist
        (users are never deleted). */
    ghost predicate Valid()
      reads this
    {
      && KeyedBelow(submissions, nextSubmissionId)
      && (forall k :: k in users ==> k < nextUserId && users[k].id == k)
      && UniqueUsers(users)
      && (forall k :: k in submissions && submissions[k].userId.Some? ==> submissions[k].userId.value in users)
      && (session.Authenticated? ==> session.userId in users)
    }

    /** An empty database; SQLite numbers rows from 1. */
    constructor ()
      ensures Valid()
      ensures submissions == map[] && users == map[] && session == Anonymous
      ensures nextSubmissionId == 1 && nextUserId == 1
    {
      submissions := map[];
      nextSubmissionId := 1;
      users := map[];
      nextUserId := 1;
      session := Anonymous;
    }

    /** `contact`: a posted form that validates adds exactly one row, owned by
        the caller if signed in; anything else shows the form (with the
        errors of a post) and changes nothing. */
    method Contact(request: ContactRequest, isEmail: string -> bool, now: int) returns (outcome: ContactOutcome)
      requires Valid()
      modifies this
      ensures Valid()
      ensures users == old(users) && nextUserId == old(nextUserId) && session == old(session)
      ensures request.ContactPost? && Validates(request.input, isEmail) ==>
                && outcome == ContactSaved(old(nextSubmissionId))
                && submissions == old(submissions)[outcome.id := ContactRecord(outcome.id, Cleaned(request.input), now, OwnerOf(session))]
                && nextSubmissionId == old(nextSubmissionId) + 1
                && outcome.id !in old(submissions)
      ensures !(request.ContactPost? && Validates(request.input, isEmail)) ==>
                && outcome == ContactPage(if request.ContactPost? then Errors(request.input, isEmail) else map[])
                && submissions == old(submissions) && nextSubmissionId == old(nextSubmissionId)
      ensures outcome.ContactSaved? ==>
                && 10 <= |submissions[outcome.id].message| <= 500
                && submissions[outcome.id].category in CategoryChoices
                && submissions[outcome.id].userId == OwnerOf(session)
    {
      if request.ContactPost? && Validates(request.input, isEmail) {
        var id := nextSubmissionId;
        CleanedWellFormed(request.input, isEmail);
        submissions := submissions[id := ContactRecord(id, Cleaned(request.input), now, OwnerOf(session))];
        nextSubmissionId := id + 1;
        outcome := ContactSaved(id);
      } else {
        outcome := ContactPage(if request.ContactPost? then Errors(request.input, isEmail) else map[]);
      }
    }

    /** `register`: a signed-in caller is sent home untouched. A valid post
        adds one user (with the hash of the password) and signs them in,
        unless the username or email is taken, in which case the commit
        fails and nothing changes. */
    method Register(request: RegisterRequest, passwordHash: string, now: int) returns (outcome: RegisterOutcome)
      requires Valid()
      modifies this
      ensures Valid()
      ensures submissions == old(submissions) && nextSubmissionId == old(nextSubmissionId)
      ensures old(session).Authenticated? ==> outcome == RegisterAlreadySignedIn
      ensures old(session).Anonymous? && !(request.RegisterPost? && request.formValid) ==> outcome == RegisterPage
      ensures outcome.Registered? <==>
                old(session).Anonymous? && request.RegisterPost? && request.formValid
                && !Clashes(old(users), request.username, request.email)
      ensures outcome == RegisterConflict <==>
                old(session).Anonymous? && request.RegisterPost? && request.formValid
                && Clashes(old(users), request.username, request.email)
      ensures outcome.Registered? ==>
                && outcome.userId == old(nextUserId) && outcome.userId !in old(users)
                && users == old(users)[outcome.userId := User(outcome.userId, request.username, request.email, passwordHash, Some(now))]
                && nextUserId == old(nextUserId) + 1
                && session == Authenticated(outcome.userId)
      ensures !outcome.Registered? ==> users == old(users) && nextUserId == old(nextUserId) && session == old(session)
    {
      if session.Authenticated? {
        return RegisterAlreadySignedIn;
      }
      if !(request.RegisterPost? && request.formValid) {
        return RegisterPage;
      }
      if Clashes(users, request.username, request.email) {
        return RegisterConflict;
      }
      var id := nextUserId;
      var u := User(id, request.username, request.email, passwordHash, Some(now));
      AddUserKeepsUnique(users, id, u);
      users := users[id := u];
      nextUserId := id + 1;
      session := Authenticated(id);
      outcome := Registered(id);
    }

    /** `login`: a signed-in caller is sent home untouched. A valid post
        signs in the user with that email when the password verifies, and
        goes to a local `next` path or home; an unknown email and a wrong
        password give the same generic error and leave the caller
        anonymous. `verify(hash, password)` is the password library's
        check. */
    method Login(request: LoginRequest, verify: (string, string) -> bool) returns (outcome: LoginOutcome)
      requires Valid()
      modifies this
      ensures Valid()
      ensures submissions == old(submissions) && nextSubmissionId == old(nextSubmissionId)
      ensures users == old(users) && nextUserId == old(nextUserId)
      ensures old(session).Authenticated? ==> outcome == LoginAlreadySignedIn
      ensures old(session).Anonymous? && !(request.LoginPost? && request.formValid) ==> outcome == LoginPage
      ensures outcome == InvalidCredentials <==>
                old(session).Anonymous? && request.LoginPost? && request.formValid
                && forall k :: k in users && users[k].email == request.email ==> !verify(users[k].passwordHash, request.password)
      ensures outcome.SignedIn? <==>
                old(session).Anonymous? && request.LoginPost? && request.formValid
                && exists k :: k in users && users[k].email == request.email && verify(users[k].passwordHash, request.password)
      ensures outcome.SignedIn? ==>
                && request.LoginPost? && outcome.userId in users
                && users[outcome.userId].email == request.email
                && verify(users[outcome.userId].passwordHash, request.password)
                && outcome.destination == NextTarget(request.next)
                && session == Authenticated(outcome.userId)
      ensures !outcome.SignedIn? ==> session == old(session)
    {
      if session.Authenticated? {
        return LoginAlreadySignedIn;
      }
      if !(request.LoginPost? && request.formValid) {
        return LoginPage;
      }
      var found := UserByEmail(users, request.email, nextUserId);
      if found.None? || !verify(users[found.value].passwordHash, request.password) {
        if found.Some? {
          assert UniqueUsers(users);
        }
        return InvalidCredentials;
      }
      session := Authenticated(found.value);
      outcome := SignedIn(found.value, NextTarget(request.next));
    }

    /** `logout`: the caller is anonymous afterwards; no table changes. */
    method Logout()
      requires Valid()
      modifies this
      ensures Valid()
      ensures session == Anonymous
      ensures submissions == old(submissions) && nextSubmissionId == old(nextSubmissionId)
      ensures users == old(users) && nextUserId == old(nextUserId)
    {
      session := Anonymous;
    }

    /** `submissions`: an anonymous caller is sent to the login page; a
        signed-in caller sees exactly their own rows, newest first. */
    method Submissions() returns (outcome: ListOutcome)
      requires Valid()
      ensures session.Anonymous? <==> outcome == ListSignInRequired
      ensures outcome.Listed? ==>
                && outcome.rows == Listing(submissions, nextSubmissionId, OwnedBy(session.userId))
                && NewestFirstOrdered(outcome.rows)
                && (forall r :: r in outcome.rows <==> r in submissions.Values && r.userId == Some(session.userId))
                && |outcome.rows| == |SelectedIds(submissions, OwnedBy(session.userId))|
    {
      if session.Anonymous? {
        return ListSignInRequired;
      }
      ListingCorrect(submissions, nextSubmissionId, OwnedBy(session.userId));
      outcome := Listed(Listing(submissions, nextSubmissionId, OwnedBy(session.userId)));
    }

    /** `delete_submission` (no sign-in guard): a missing id is reported as
        not found, a row of someone else as forbidden; an anonymous caller
        reaching the owner comparison fails with a server error. In those
        cases nothing changes. Otherwise exactly that row is removed. */
    method DeleteSubmission(id: nat) returns (outcome: DeleteOutcome)
      requires Valid()
      modifies this
      ensures Valid()
      ensures users == old(users) && nextUserId == old(nextUserId) && session == old(session)
      ensures nextSubmissionId == old(nextSubmissionId)
      ensures id !in old(submissions) ==> outcome == DeleteNotFound
      ensures id in old(submissions) && session.Anonymous? ==> outcome == DeleteServerError
      ensures id in old(submissions) && session.Authenticated? && old(submissions)[id].userId != Some(session.userId) ==>
                outcome == DeleteForbidden
      ensures outcome.Deleted? <==>
                id in old(submissions) && session.Authenticated? && old(submissions)[id].userId == Some(session.userId)
      ensures outcome.Deleted? ==> outcome.id == id && submissions == old(submissions) - {id}
      ensures !outcome.Deleted? ==> submissions == old(submissions)
    {
      if id !in submissions {
        return DeleteNotFound;
      }
      if session.Anonymous? {
        return DeleteServerError;
      }
      if submissions[id].userId != Some(session.userId) {
        return DeleteForbidden;
      }
      submissions := submissions - {id};
      outcome := Deleted(id);
    }

    /** `api_get_submissions`: every row, newest first, as dictionaries, with
        a count equal to the number of rows returned and of rows stored. */
    method ApiGetSubmissions() returns (count: nat, data: seq<map<string, DictValue>>)
      requires Valid()
      ensures count == |data| == |submissions|
      ensures var rows := Listing(submissions, nextSubmissionId, Everyone);
                && NewestFirstOrdered(rows)
                && (forall r :: r in rows <==> r in submissions.Values)
                && |rows| == |data|
                && (forall i :: 0 <= i < |data| ==> data[i] == ToDict(rows[i]))
    {
      var rows := Listing(submissions, nextSubmissionId, Everyone);
      ListingCorrect(submissions, nextSubmissionId, Everyone);
      assert SelectedIds(submissions, Everyone) == submissions.Keys;
      data := seq(|rows|, i requires 0 <= i < |rows| => ToDict(rows[i]));
      count := |data|;
    }

    /** `api_create_submission`: a body not declared as JSON, or one lacking
        a truthy name, email or message (the first one missing is named), is
        answered with 400 and changes nothing; an unparsable body gives 400
        and a non-object 500, likewise. Otherwise one row is added with the
        category and subscribe defaults, owned by the caller if signed in,
        and the answer carries its id and a preview of the message. */
    method ApiCreateSubmission(body: ApiBody, now: int) returns (outcome: ApiCreateOutcome)
      requires Valid()
      modifies this
      ensures Valid()
      ensures users == old(users) && nextUserId == old(nextUserId) && session == old(session)
      ensures body.NotJson? ==> outcome == ApiNotJson
      ensures body.MalformedJson? ==> outcome == ApiMalformedJson
      ensures body.NonObjectJson? ==> outcome == ApiNotAnObject
      ensures body.Object? && !Truthy(body.obj.name) ==> outcome == ApiMissingField(NameKey)
      ensures body.Object? && Truthy(body.obj.name) && !Truthy(body.obj.email) ==> outcome == ApiMissingField(EmailKey)
      ensures body.Object? && Truthy(body.obj.name) && Truthy(body.obj.email) && !Truthy(body.obj.message) ==>
                outcome == ApiMissingField(MessageKey)
      ensures outcome.ApiCreated? <==>
                body.Object? && Truthy(body.obj.name) && Truthy(body.obj.email) && Truthy(body.obj.message)
      ensures outcome.ApiCreated? ==>
                var row := ApiRecord(outcome.id, body.obj, now, OwnerOf(session));
                && outcome.id == old(nextSubmissionId) && outcome.id !in old(submissions)
                && submissions == old(submissions)[outcome.id := row]
                && nextSubmissionId == old(nextSubmissionId) + 1
                && outcome == ApiCreated(row.id, row.name, row.category, Preview(row.message), now)
                && (body.obj.category.Missing? || body.obj.category.Null? ==> row.category == "general")
                && (body.obj.subscribe.Missing? || body.obj.subscribe.Null? ==> !row.subscribe)
      ensures !outcome.ApiCreated? ==> submissions == old(submissions) && nextSubmissionId == old(nextSubmissionId)
      ensures ApiCreateStatus(outcome) == 400 <==>
                body.NotJson? || body.MalformedJson?
                || (body.Object? && !(Truthy(body.obj.name) && Truthy(body.obj.email) && Truthy(body.obj.message)))
      ensures ApiCreateStatus(outcome) == 500 <==> body.NonObjectJson?
      ensures body.NotJson? ==> ApiErrorMessage(outcome) == "请求的内容类型必须是 application/json"
      ensures body.Object? && !Truthy(body.obj.name) ==> ApiErrorMessage(outcome) == "缺少必填字段: name"
    {
      if body.NotJson? {
        return ApiNotJson;
      }
      if body.MalformedJson? {
        return ApiMalformedJson;
      }
      if body.NonObjectJson? {
        return ApiNotAnObject;
      }
      var obj := body.obj;
      var missing := FindMissingField(obj);
      if missing.Some? {
        return ApiMissingField(missing.value);
      }
      assert Truthy(Lookup(obj, RequiredFields[0])) && Truthy(Lookup(obj, RequiredFields[1]))
             && Truthy(Lookup(obj, RequiredFields[2]));
      var id := nextSubmissionId;
      var row := ApiRecord(id, obj, now, OwnerOf(session));
      submissions := submissions[id := row];
      nextSubmissionId := id + 1;
      outcome := ApiCreated(row.id, row.name, row.category, Preview(row.message), now);
    }

    /** `profile`: an anonymous caller is sent to the login page; otherwise
        the user and the number of rows they own, which is the length of
        their listing. */
    method Profile() returns (outcome: ProfileOutcome)
      requires Valid()
      ensures session.Anonymous? <==> outcome == ProfileSignInRequired
      ensures outcome.ProfileShown? ==>
                && outcome.user == users[session.userId]
                && outcome.submissionCount == |SelectedIds(submissions, OwnedBy(session.userId))|
                && outcome.submissionCount == |Listing(submissions, nextSubmissionId, OwnedBy(session.userId))|
    {
      if session.Anonymous? {
        return ProfileSignInRequired;
      }
      ListingCount(submissions, nextSubmissionId, OwnedBy(session.userId));
      outcome := ProfileShown(users[session.userId], |SelectedIds(submissions, OwnedBy(session.userId))|);
    }

    /** `api_delete_submission`: an anonymous caller is redirected to the
        login page (302); a missing id gives 404 and another owner's row 403,
        both changing nothing; otherwise exactly that row is removed (200). */
    method ApiDeleteSubmission(id: nat) returns (outcome: ApiDeleteOutcome)
      requires Valid()
      modifies this
      ensures Valid()
      ensures users == old(users) && nextUserId == old(nextUserId) && session == old(session)
      ensures nextSubmissionId == old(nextSubmissionId)
      ensures session.Anonymous? ==> outcome == ApiSignInRequired
      ensures session.Authenticated? && id !in old(submissions) ==> outcome == ApiNotFound
      ensures session.Authenticated? && id in old(submissions) && old(submissions)[id].userId != Some(session.userId) ==>
                outcome == ApiForbidden
      ensures outcome.ApiDeleted? <==>
                session.Authenticated? && id in old(submissions) && old(submissions)[id].userId == Some(session.userId)
      ensures outcome.ApiDeleted? ==> outcome.id == id && submissions == old(submissions) - {id}
      ensures !outcome.ApiDeleted? ==> submissions == old(submissions)
      ensures ApiDeleteStatus(outcome) == 200 <==> submissions != old(submissions)
      ensures ApiDeleteStatus(outcome) == 404 <==> session.Authenticated? && id !in old(submissions)
    {
      if session.Anonymous? {
        return ApiSignInRequired;
      }
      if id !in submissions {
        return ApiNotFound;
      }
      if submissions[id].userId != Some(session.userId) {
        return ApiForbidden;
      }
      submissions := submissions - {id};
      outcome := ApiDeleted(id);
    }
  }

  /** A client of the API: a create succeeds exactly when the body is an
      object with a truthy name, email and message; the row it stores is the
      posted one, and the list that follows holds its view exactly once. */
  method ApiCreateThenList(site: Site, body: ApiBody, now: int)
      returns (created: ApiCreateOutcome, data: seq<map<string, DictValue>>)
    requires site.Valid()
    modifies site
    ensures site.Valid()
    ensures created.ApiCreated? <==>
              body.Object? && Truthy(body.obj.name) && Truthy(body.obj.email) && Truthy(body.obj.message)
    ensures created.ApiCreated? ==>
              && created.id in site.submissions
              && site.submissions[created.id] == ApiRecord(created.id, body.obj, now, OwnerOf(site.session))
              && multiset(data)[ToDict(site.submissions[created.id])] == 1
  {
    created := site.ApiCreateSubmission(body, now);
    var count;
    count, data := site.ApiGetSubmissions();
    if created.ApiCreated? {
      var rows := Listing(site.submissions, site.nextSubmissionId, Everyone);
      assert data == Views(rows);
      ListingViewOnce(site.submissions, site.nextSubmissionId, Everyone, site.submissions[created.id]);
    }
  }
}
