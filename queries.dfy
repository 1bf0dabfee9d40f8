/** The queries the handlers run against the two tables: a scan of the
    submission table in id order, the owner filter, the "newest first"
    ordering, the owner count, and the user lookup by email. */
module Queries {
  import opened Wrappers
  import opened Models

  /** Every key is below the id counter and every row carries its own key as
      its id; the scans below rely on both. */
  predicate KeyedBelow(m: map<nat, Submission>, n: nat) {
    forall k :: k in m ==> k < n && m[k].id == k
  }

  /** The rows whose id lies below `n`, in ascending id order. */
  function AllRows(m: map<nat, Submission>, n: nat): seq<Submission> {
    if n == 0 then []
    else AllRows(m, n - 1) + (if n - 1 in m then [m[n - 1]] else [])
  }

  lemma {:induction false} AllRowsContents(m: map<nat, Submission>, n: nat)
    requires forall k :: k in m ==> m[k].id == k
    ensures forall k :: k in m && k < n ==> m[k] in AllRows(m, n)
    ensures forall r :: r in AllRows(m, n) ==> r.id < n && r.id in m && m[r.id] == r
    ensures forall i, j :: 0 <= i < j < |AllRows(m, n)| ==> AllRows(m, n)[i].id < AllRows(m, n)[j].id
  {
    if n > 0 {
      AllRowsContents(m, n - 1);
    }
  }

  /** Which rows a listing shows: every row, or the rows of one owner. */
  datatype Scope = Everyone | OwnedBy(user: nat)

  predicate InScope(r: Submission, scope: Scope) {
    scope.Everyone? || r.userId == Some(scope.user)
  }

  /** The `filter_by(user_id=...)` part of a query. */
  function Select(rows: seq<Submission>, scope: Scope): (r: seq<Submission>)
    ensures forall x :: x in r <==> x in rows && InScope(x, scope)
    ensures |r| <= |rows|
  {
    if rows == [] then []
    else (if InScope(rows[0], scope) then [rows[0]] else []) + Select(rows[1..], scope)
  }

  lemma {:induction false} SelectAppend(a: seq<Submission>, b: seq<Submission>, scope: Scope)
    ensures Select(a + b, scope) == Select(a, scope) + Select(b, scope)
  {
    if a == [] {
      assert a + b == b;
    } else {
      assert (a + b)[1..] == a[1..] + b;
      SelectAppend(a[1..], b, scope);
    }
  }

  /** The ids a scope picks out of the table, as a set. */
  function SelectedIds(m: map<nat, Submission>, scope: Scope): set<nat> {
    set k | k in m && InScope(m[k], scope)
  }

  function SelectedIdsBelow(m: map<nat, Submission>, scope: Scope, n: nat): set<nat> {
    set k | k in m && k < n && InScope(m[k], scope)
  }

  lemma SelectedIdsBelowStep(m: map<nat, Submission>, scope: Scope, n: nat)
    requires n > 0
    ensures n - 1 in m && InScope(m[n - 1], scope) ==>
              |SelectedIdsBelow(m, scope, n)| == |SelectedIdsBelow(m, scope, n - 1)| + 1
    ensures !(n - 1 in m && InScope(m[n - 1], scope)) ==>
              SelectedIdsBelow(m, scope, n) == SelectedIdsBelow(m, scope, n - 1)
  {
    var below := SelectedIdsBelow(m, scope, n - 1);
    if n - 1 in m && InScope(m[n - 1], scope) {
      assert SelectedIdsBelow(m, scope, n) == below + {n - 1};
    }
  }

  lemma {:induction false} SelectCount(m: map<nat, Submission>, scope: Scope, n: nat)
    ensures |Select(AllRows(m, n), scope)| == |SelectedIdsBelow(m, scope, n)|
  {
    if n > 0 {
      SelectCount(m, scope, n - 1);
      var tail := if n - 1 in m then [m[n - 1]] else [];
      SelectAppend(AllRows(m, n - 1), tail, scope);
      SelectedIdsBelowStep(m, scope, n);
      assert |Select(tail, scope)| == if n - 1 in m && InScope(m[n - 1], scope) then 1 else 0;
    } else {
      assert SelectedIdsBelow(m, scope, n) == {};
    }
  }

  /** `a` may precede `b` in a newest-first listing. A larger timestamp is
      newer, and the database sorts a missing timestamp below every present
      one, so in descending order rows without one come last. */
  predicate AtLeastAsNew(a: Submission, b: Submission) {
    match (a.submittedAt, b.submittedAt)
    case (_, None) => true
    case (None, Some(_)) => false
    case (Some(x), Some(y)) => x >= y
  }

  /** `order_by(submitted_at.desc())`: newest first. */
  predicate NewestFirstOrdered(s: seq<Submission>) {
    forall i, j :: 0 <= i < j < |s| ==> AtLeastAsNew(s[i], s[j])
  }

  function InsertByTime(x: Submission, s: seq<Submission>): seq<Submission> {
    if s == [] || AtLeastAsNew(x, s[0]) then [x] + s
    else [s[0]] + InsertByTime(x, s[1..])
  }

  /** The model's ordering: newest first, rows with equal timestamps kept in
      the order they were scanned. */
  function NewestFirst(s: seq<Submission>): seq<Submission> {
    if s == [] then [] else InsertByTime(s[0], NewestFirst(s[1..]))
  }

  lemma {:induction false} InsertByTimeCorrect(x: Submission, s: seq<Submission>)
    requires NewestFirstOrdered(s)
    ensures multiset(InsertByTime(x, s)) == multiset(s) + multiset{x}
    ensures NewestFirstOrdered(InsertByTime(x, s))
  {
    if s == [] || AtLeastAsNew(x, s[0]) {
      var r := [x] + s;
      forall i, j | 0 <= i < j < |r| ensures AtLeastAsNew(r[i], r[j]) {
        if i == 0 && j > 1 {
          assert AtLeastAsNew(s[0], s[j - 1]);
        }
      }
    } else {
      InsertByTimeCorrect(x, s[1..]);
      var t := InsertByTime(x, s[1..]);
      assert s == [s[0]] + s[1..];
      var r := [s[0]] + t;
      assert x in multiset(t);
      forall i, j | 0 <= i < j < |r| ensures AtLeastAsNew(r[i], r[j]) {
        if i == 0 {
          assert r[j] in multiset(t);
          assert r[j] in s[1..] || r[j] == x;
          if r[j] != x {
            var k :| 0 <= k < |s[1..]| && s[1..][k] == r[j];
            assert AtLeastAsNew(s[0], s[k + 1]);
          }
        }
      }
    }
  }

  lemma {:induction false} NewestFirstCorrect(s: seq<Submission>)
    ensures multiset(NewestFirst(s)) == multiset(s)
    ensures NewestFirstOrdered(NewestFirst(s))
  {
    if s != [] {
      NewestFirstCorrect(s[1..]);
      InsertByTimeCorrect(s[0], NewestFirst(s[1..]));
      assert s == [s[0]] + s[1..];
    }
  }

  /** A listing: the rows of `scope`, newest first. */
  function Listing(m: map<nat, Submission>, n: nat, scope: Scope): seq<Submission> {
    NewestFirst(Select(AllRows(m, n), scope))
  }

  lemma ListingMembers(m: map<nat, Submission>, n: nat, scope: Scope, r: Submission)
    requires KeyedBelow(m, n)
    ensures r in Listing(m, n, scope) <==> r in m.Values && InScope(r, scope)
  {
    var rows := Select(AllRows(m, n), scope);
    NewestFirstCorrect(rows);
    assert r in Listing(m, n, scope) <==> r in multiset(rows);
    AllRowsContents(m, n);
    if r in m.Values {
      var k :| k in m && m[k] == r;
      assert m[k] in AllRows(m, n);
    }
  }

  lemma ListingCount(m: map<nat, Submission>, n: nat, scope: Scope)
    requires KeyedBelow(m, n)
    ensures |Listing(m, n, scope)| == |SelectedIds(m, scope)|
  {
    var rows := Select(AllRows(m, n), scope);
    NewestFirstCorrect(rows);
    SelectCount(m, scope, n);
    assert SelectedIdsBelow(m, scope, n) == SelectedIds(m, scope);
    calc {
      |Listing(m, n, scope)|;
      |multiset(Listing(m, n, scope))|;
      |multiset(rows)|;
      |rows|;
    }
  }

  /** A listing holds exactly the rows of its scope, each once (as many rows
      as the scope has ids), newest first. */
  lemma ListingCorrect(m: map<nat, Submission>, n: nat, scope: Scope)
    requires KeyedBelow(m, n)
    ensures NewestFirstOrdered(Listing(m, n, scope))
    ensures forall r :: r in Listing(m, n, scope) <==> r in m.Values && InScope(r, scope)
    ensures |Listing(m, n, scope)| == |SelectedIds(m, scope)|
  {
    NewestFirstCorrect(Select(AllRows(m, n), scope));
    forall r ensures r in Listing(m, n, scope) <==> r in m.Values && InScope(r, scope) {
      ListingMembers(m, n, scope, r);
    }
    ListingCount(m, n, scope);
  }

  predicate IdsIncreasing(s: seq<Submission>) {
    forall i, j :: 0 <= i < j < |s| ==> s[i].id < s[j].id
  }

  lemma {:induction false} SelectKeepsIdsIncreasing(rows: seq<Submission>, scope: Scope)
    requires IdsIncreasing(rows)
    ensures IdsIncreasing(Select(rows, scope))
  {
    if rows != [] {
      SelectKeepsIdsIncreasing(rows[1..], scope);
      var rest := Select(rows[1..], scope);
      forall x | x in rest ensures rows[0].id < x.id {
        var k :| 0 <= k < |rows[1..]| && rows[1..][k] == x;
        assert rows[k + 1] == x;
      }
    }
  }

  lemma {:induction false} IdsIncreasingOnce(s: seq<Submission>, r: Submission)
    requires IdsIncreasing(s)
    ensures multiset(s)[r] <= 1
  {
    if s != [] {
      assert s == [s[0]] + s[1..];
      IdsIncreasingOnce(s[1..], r);
      if r == s[0] {
        assert r !in s[1..];
      }
    }
  }

  /** Every row of a scope appears in its listing exactly once. */
  lemma ListingOnce(m: map<nat, Submission>, n: nat, scope: Scope, r: Submission)
    requires KeyedBelow(m, n)
    requires r in m.Values && InScope(r, scope)
    ensures multiset(Listing(m, n, scope))[r] == 1
  {
    var rows := Select(AllRows(m, n), scope);
    AllRowsContents(m, n);
    SelectKeepsIdsIncreasing(AllRows(m, n), scope);
    IdsIncreasingOnce(rows, r);
    NewestFirstCorrect(rows);
    ListingMembers(m, n, scope, r);
  }

  /** The views of a listing show each row of its scope exactly once: rows
      differ in their ids, and the view carries the id. */
  lemma ListingViewOnce(m: map<nat, Submission>, n: nat, scope: Scope, r: Submission)
    requires KeyedBelow(m, n)
    requires r in m.Values && InScope(r, scope)
    ensures multiset(Views(Listing(m, n, scope)))[ToDict(r)] == 1
  {
    var rows := Listing(m, n, scope);
    ListingOnce(m, n, scope, r);
    forall x | x in rows && ToDict(x) == ToDict(r) ensures x == r {
      ListingMembers(m, n, scope, x);
      assert ToDict(x)["id"] == IntValue(x.id);
    }
    ViewsCount(rows, r);
  }

  /** `User.query.filter_by(email=...).first()`: the lowest id below `n`
      whose user has that email. */
  function UserByEmail(users: map<nat, User>, email: string, n: nat): (r: Option<nat>)
    ensures r.Some? ==> r.value < n && r.value in users && users[r.value].email == email
    ensures r.None? ==> forall k :: k in users && k < n ==> users[k].email != email
  {
    if n == 0 then None
    else
      var earlier := UserByEmail(users, email, n - 1);
      if earlier.Some? then earlier
      else if n - 1 in users && users[n - 1].email == email then Some(n - 1)
      else None
  }
}
