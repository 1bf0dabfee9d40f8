/** The two tables of the contact-form site (`user` and `contact_submission`),
    the column defaults applied when a row is inserted, the uniqueness rule on
    users, and the dictionary view of a submission that the JSON API returns. */
module Models {
  import opened Wrappers

  /** A row of `contact_submission`. name, email and message are NOT NULL
      columns, so they are plain strings; `user_id` is nullable, so an
      anonymous submission has `userId == None`. `submitted_at` is a nullable
      column whose default is the insertion time. */
  datatype Submission = Submission(
    id: nat,
    name: string,
    email: string,
    category: string,
    message: string,
    subscribe: bool,
    submittedAt: Option<int>,
    userId: Option<nat>)

  /** A row of `user`; the password is kept only as the opaque hash that the
      password library produced. */
  datatype User = User(
    id: nat,
    username: string,
    email: string,
    passwordHash: string,
    memberSince: Option<int>)

  const DefaultCategory: string := "general"
  const DefaultSubscribe: bool := false

  /** The row the ORM inserts for a new submission. An attribute left unset,
      or set to None, is omitted from the INSERT, so the column default fires:
      category becomes 'general', subscribe becomes False and submitted_at
      becomes the insertion time `now`. */
  function NewSubmission(id: nat, name: string, email: string, category: Option<string>,
                         message: string, subscribe: Option<bool>, now: int,
                         owner: Option<nat>): (s: Submission)
    ensures s.id == id && s.userId == owner && s.submittedAt == Some(now)
    ensures s.name == name && s.email == email && s.message == message
    ensures category == None ==> s.category == "general"
    ensures category != None ==> s.category == category.value
    ensures subscribe == None ==> !s.subscribe
    ensures subscribe != None ==> s.subscribe == subscribe.value
  {
    Submission(id, name, email, category.GetOr(DefaultCategory), message,
               subscribe.GetOr(DefaultSubscribe), Some(now), owner)
  }

  /** No two users share a username, and no two share an email
      (both columns are declared unique). */
  predicate UniqueUsers(users: map<nat, User>) {
    forall a, b :: a in users && b in users && a != b ==>
      users[a].username != users[b].username && users[a].email != users[b].email
  }

  /** True when a new user with this username or email would violate one of
      the two unique constraints. */
  predicate Clashes(users: map<nat, User>, username: string, email: string) {
    exists k :: k in users && (users[k].username == username || users[k].email == email)
  }

  lemma AddUserKeepsUnique(users: map<nat, User>, id: nat, u: User)
    requires UniqueUsers(users)
    requires id !in users
    requires !Clashes(users, u.username, u.email)
    ensures UniqueUsers(users[id := u])
  {
    var m := users[id := u];
    forall a, b | a in m && b in m && a != b
      ensures m[a].username != m[b].username && m[a].email != m[b].email
    {
      if a == id {
        assert b in users;
      } else if b == id {
        assert a in users;
      }
    }
  }

  /** A value of the dictionary `to_dict` returns. `IsoTimestamp(t)` stands for
      the ISO-8601 text of the timestamp `t`. */
  datatype DictValue =
    | IntValue(i: int)
    | StrValue(s: string)
    | BoolValue(b: bool)
    | IsoTimestamp(t: int)
    | NoneValue

  const DictKeys: set<string> :=
    {"id", "name", "email", "category", "message", "subscribe", "submitted_at"}

  /** `to_dict`: exactly seven keys; the owner is not part of the view. */
  function ToDict(s: Submission): (d: map<string, DictValue>)
    ensures d.Keys == DictKeys
  {
    map[
      "id" := IntValue(s.id),
      "name" := StrValue(s.name),
      "email" := StrValue(s.email),
      "category" := StrValue(s.category),
      "message" := StrValue(s.message),
      "subscribe" := BoolValue(s.subscribe),
      "submitted_at" := match s.submittedAt
                        case Some(t) => IsoTimestamp(t)
                        case None => NoneValue
    ]
  }

  /** Reads a submission back from its dictionary view; the owner, which the
      view leaves out, is supplied by the caller. */
  function FromDict(d: map<string, DictValue>, owner: Option<nat>): Option<Submission> {
    if DictKeys <= d.Keys
       && d["id"].IntValue? && d["id"].i >= 0
       && d["name"].StrValue? && d["email"].StrValue? && d["category"].StrValue?
       && d["message"].StrValue? && d["subscribe"].BoolValue?
       && (d["submitted_at"].IsoTimestamp? || d["submitted_at"].NoneValue?)
    then
      Some(Submission(d["id"].i, d["name"].s, d["email"].s, d["category"].s,
                      d["message"].s, d["subscribe"].b,
                      if d["submitted_at"].IsoTimestamp? then Some(d["submitted_at"].t) else None,
                      owner))
    else
      None
  }

  /** The view loses nothing but the owner: every field, including the
      presence or absence of the timestamp, is recovered from it. */
  lemma ToDictRoundTrip(s: Submission)
    ensures FromDict(ToDict(s), s.userId) == Some(s)
  {
  }

  /** Two submissions with the same owner and the same view are the same row. */
  lemma ToDictInjective(a: Submission, b: Submission)
    requires a.userId == b.userId
    requires ToDict(a) == ToDict(b)
    ensures a == b
  {
    ToDictRoundTrip(a);
    ToDictRoundTrip(b);
  }

  /** The views of a sequence of rows, in order. */
  function Views(rows: seq<Submission>): (v: seq<map<string, DictValue>>)
    ensures |v| == |rows|
    ensures forall i :: 0 <= i < |rows| ==> v[i] == ToDict(rows[i])
  {
    if rows == [] then [] else [ToDict(rows[0])] + Views(rows[1..])
  }

  /** When no other row of `rows` has the same view as `r`, the view of `r`
      occurs in the views as often as `r` occurs in the rows. */
  lemma {:induction false} ViewsCount(rows: seq<Submission>, r: Submission)
    requires forall x :: x in rows && ToDict(x) == ToDict(r) ==> x == r
    ensures multiset(Views(rows))[ToDict(r)] == multiset(rows)[r]
  {
    if rows != [] {
      assert rows == [rows[0]] + rows[1..];
      ViewsCount(rows[1..], r);
      assert Views(rows) == [ToDict(rows[0])] + Views(rows[1..]);
    }
  }
}
