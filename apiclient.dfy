/** The browser-side API client: the retry loop every request goes through,
    and the mapping from a failed result to the message shown to the user.
    The network is not modelled; what each attempt ends with is given. */
module ApiClient {
  import opened Wrappers

  /** The JSON body of a response, as far as the client reads it. */
  datatype Body = Body(status: Option<string>, message: Option<string>)

  // ---------------------------------------------------------------------
  // getFriendlyMessage

  const NetworkMessage: string := "网络连接失败，请检查您的网络连接"
  const SessionExpiredMessage: string := "登录已过期，请重新登录"
  const ForbiddenMessage: string := "权限不足，无法执行此操作"
  const NotFoundMessage: string := "请求的资源不存在"
  const ServerErrorMessage: string := "服务器内部错误，请稍后重试"
  const FallbackMessage: string := "操作失败，请稍后重试"

  /** `data && data.message`: a body whose message is present and non-empty. */
  predicate HasBackendMessage(data: Option<Body>) {
    data.Some? && data.value.message.Some? && data.value.message.value != ""
  }

  /** `getFriendlyMessage`: fixed messages for status 0, 401, 403, 404 and
      every status from 500 up; otherwise the backend's message if it sent
      one, else a generic one. */
  function FriendlyMessage(status: int, data: Option<Body>): string {
    if status == 0 then NetworkMessage
    else if status == 401 then SessionExpiredMessage
    else if status == 403 then ForbiddenMessage
    else if status == 404 then NotFoundMessage
    else if status >= 500 then ServerErrorMessage
    else if HasBackendMessage(data) then data.value.message.value
    else FallbackMessage
  }

  /** The statuses the client answers with a fixed message. */
  predicate FixedStatus(status: int) {
    status == 0 || status == 401 || status == 403 || status == 404 || status >= 500
  }

  /** A fixed status is answered with its own message whatever the body
      says: the backend's message never overrides it. */
  lemma FixedStatusIgnoresBody(status: int, d1: Option<Body>, d2: Option<Body>)
    requires FixedStatus(status)
    ensures FriendlyMessage(status, d1) == FriendlyMessage(status, d2)
    ensures status == 0 ==> FriendlyMessage(status, d1) == NetworkMessage
    ensures status == 401 ==> FriendlyMessage(status, d1) == SessionExpiredMessage
    ensures status == 403 ==> FriendlyMessage(status, d1) == ForbiddenMessage
    ensures status == 404 ==> FriendlyMessage(status, d1) == NotFoundMessage
    ensures status >= 500 ==> FriendlyMessage(status, d1) == ServerErrorMessage
  {
  }

  /** Any other status shows the backend's message when it sent a non-empty
      one, and the generic message otherwise. */
  lemma OtherStatusUsesBody(status: int, data: Option<Body>)
    requires !FixedStatus(status)
    ensures HasBackendMessage(data) ==> FriendlyMessage(status, data) == data.value.message.value
    ensures !HasBackendMessage(data) ==> FriendlyMessage(status, data) == FallbackMessage
  {
  }

  // ---------------------------------------------------------------------
  // _request

  const DefaultRetries: int := 2
  const BackoffBaseMs: nat := 1000

  /** How one attempt ends: a response with its status and parsed body, the
      abort raised by the timeout, or any other error (no connection, a body
      that is not JSON). */
  datatype Attempt = Responded(status: int, body: Body) | AbortError | OtherError

  /** What `_request` resolves to. `Answered` carries `ok`, `status`, `data`
      and `retried`; `GaveUp` has status 0 and an error body; `NoResult` is
      the `undefined` of a loop that never runs (a negative retry count). */
  datatype RequestResult =
    | Answered(ok: bool, status: int, data: Body, retried: bool)
    | GaveUp(timedOut: bool)
    | NoResult

  const TimeoutText: string := "请求超时"
  const ConnectionText: string := "网络连接失败"

  /** The status and body a caller hands to `getFriendlyMessage`. */
  function ResultStatus(r: RequestResult): int
    requires !r.NoResult?
  {
    if r.Answered? then r.status else 0
  }

  function ResultData(r: RequestResult): Body
    requires !r.NoResult?
  {
    if r.Answered? then r.data
    else Body(Some("error"), Some(if r.timedOut then TimeoutText else ConnectionText))
  }

  function Pow2(k: nat): (p: nat)
    ensures p >= 1
  {
    if k == 0 then 1 else 2 * Pow2(k - 1)
  }

  /** The wait before the retry that follows failed attempt `k`. */
  function Backoff(k: nat): nat {
    Pow2(k) * BackoffBaseMs
  }

  /** The result of the loop from attempt number `attempt` on, with `outcome(k)`
      the end of attempt `k`. */
  function RunFrom(retries: int, outcome: nat -> Attempt, attempt: nat): RequestResult
    decreases retries - attempt
  {
    if attempt > retries then NoResult
    else match outcome(attempt)
      case Responded(s, b) => Answered(200 <= s <= 299, s, b, attempt > 0)
      case AbortError => GaveUp(true)
      case OtherError => if attempt == retries then GaveUp(false) else RunFrom(retries, outcome, attempt + 1)
  }

  /** The waits the loop performs from attempt `attempt` on. */
  function WaitsFrom(retries: int, outcome: nat -> Attempt, attempt: nat): seq<nat>
    decreases retries - attempt
  {
    if attempt >= retries || !outcome(attempt).OtherError? then []
    else [Backoff(attempt)] + WaitsFrom(retries, outcome, attempt + 1)
  }

  /** The number of fetches the loop starts from attempt `attempt` on. */
  function AttemptsFrom(retries: int, outcome: nat -> Attempt, attempt: nat): nat
    decreases retries - attempt
  {
    if attempt > retries then 0
    else if attempt == retries || !outcome(attempt).OtherError? then 1
    else 1 + AttemptsFrom(retries, outcome, attempt + 1)
  }

  /** The loop of `_request`. `waits` records the delays it waits before
      retrying; `attempts` counts the fetches it starts. */
  method Request(retries: int, outcome: nat -> Attempt) returns (result: RequestResult, waits: seq<nat>, attempts: nat)
    ensures result == RunFrom(retries, outcome, 0)
    ensures waits == WaitsFrom(retries, outcome, 0)
    ensures attempts == AttemptsFrom(retries, outcome, 0)
  {
    var attempt: nat := 0;
    waits := [];
    while attempt <= retries
      invariant RunFrom(retries, outcome, 0) == RunFrom(retries, outcome, attempt)
      invariant WaitsFrom(retries, outcome, 0) == waits + WaitsFrom(retries, outcome, attempt)
      invariant AttemptsFrom(retries, outcome, 0) == attempt + AttemptsFrom(retries, outcome, attempt)
      invariant attempt > 0 ==> attempt <= retries
      decreases retries - attempt
    {
      match outcome(attempt)
      case Responded(s, b) =>
        return Answered(200 <= s <= 299, s, b, attempt > 0), waits, attempt + 1;
      case AbortError =>
        return GaveUp(true), waits, attempt + 1;
      case OtherError =>
        if attempt == retries {
          return GaveUp(false), waits, attempt + 1;
        }
        waits := waits + [Backoff(attempt)];
        attempt := attempt + 1;
    }
    return NoResult, waits, attempt;
  }

  /** At most `retries + 1` fetches, and a wait between each two of them
      only. */
  lemma {:induction false} AttemptsBounded(retries: int, outcome: nat -> Attempt, attempt: nat)
    requires attempt <= retries
    ensures 1 <= AttemptsFrom(retries, outcome, attempt) <= retries + 1 - attempt
    ensures |WaitsFrom(retries, outcome, attempt)| == AttemptsFrom(retries, outcome, attempt) - 1
    decreases retries - attempt
  {
    if attempt < retries && outcome(attempt).OtherError? {
      AttemptsBounded(retries, outcome, attempt + 1);
    }
  }

  /** A negative retry count starts no fetch and resolves to nothing. */
  lemma NegativeRetriesNoResult(retries: int, outcome: nat -> Attempt)
    requires retries < 0
    ensures RunFrom(retries, outcome, 0) == NoResult
    ensures AttemptsFrom(retries, outcome, 0) == 0 && WaitsFrom(retries, outcome, 0) == []
  {
  }

  /** The wait after failed attempt `attempt + i` is 2^(attempt+i) seconds. */
  lemma {:induction false} WaitsDouble(retries: int, outcome: nat -> Attempt, attempt: nat)
    ensures forall i :: 0 <= i < |WaitsFrom(retries, outcome, attempt)| ==>
              WaitsFrom(retries, outcome, attempt)[i] == Backoff(attempt + i)
    decreases retries - attempt
  {
    if attempt < retries && outcome(attempt).OtherError? {
      WaitsDouble(retries, outcome, attempt + 1);
    }
  }

  function Sum(s: seq<nat>): nat {
    if s == [] then 0 else s[0] + Sum(s[1..])
  }

  /** Waiting after attempts attempt, attempt+1, ... up to n of them adds up
      to (2^n - 1) * 2^attempt seconds. */
  lemma {:induction false} TotalWait(retries: int, outcome: nat -> Attempt, attempt: nat)
    ensures Sum(WaitsFrom(retries, outcome, attempt)) ==
              (Pow2(|WaitsFrom(retries, outcome, attempt)|) - 1) * Backoff(attempt)
    decreases retries - attempt
  {
    if attempt < retries && outcome(attempt).OtherError? {
      var rest := WaitsFrom(retries, outcome, attempt + 1);
      TotalWait(retries, outcome, attempt + 1);
      assert Backoff(attempt + 1) == 2 * Backoff(attempt);
      assert WaitsFrom(retries, outcome, attempt)[1..] == rest;
      assert Pow2(|rest| + 1) == 2 * Pow2(|rest|);
    }
  }

  /** A response ends the loop at once; `retried` is true exactly when it was
      not the first attempt. */
  lemma {:induction false} AnsweredRetriedIffLater(retries: int, outcome: nat -> Attempt, attempt: nat)
    requires RunFrom(retries, outcome, attempt).Answered?
    ensures RunFrom(retries, outcome, attempt).retried <==> attempt + AttemptsFrom(retries, outcome, attempt) > 1
    decreases retries - attempt
  {
    if outcome(attempt).OtherError? {
      AnsweredRetriedIffLater(retries, outcome, attempt + 1);
    }
  }

  /** An abort ends the loop at once, with the timeout text: no retry. */
  lemma AbortEndsAtOnce(retries: int, outcome: nat -> Attempt, attempt: nat)
    requires attempt <= retries && outcome(attempt).AbortError?
    ensures RunFrom(retries, outcome, attempt) == GaveUp(true)
    ensures AttemptsFrom(retries, outcome, attempt) == 1 && WaitsFrom(retries, outcome, attempt) == []
    ensures ResultStatus(GaveUp(true)) == 0 && ResultData(GaveUp(true)).message == Some(TimeoutText)
  {
  }

  /** When every attempt fails with another error, the loop makes all
      `retries + 1` attempts and gives up with the connection text. */
  lemma {:induction false} ExhaustedGivesUp(retries: int, outcome: nat -> Attempt, attempt: nat)
    requires attempt <= retries
    requires forall k :: attempt <= k <= retries ==> outcome(k).OtherError?
    ensures RunFrom(retries, outcome, attempt) == GaveUp(false)
    ensures AttemptsFrom(retries, outcome, attempt) == retries + 1 - attempt
    decreases retries - attempt
  {
    if attempt < retries {
      ExhaustedGivesUp(retries, outcome, attempt + 1);
    }
  }

  /** With the default of two retries a request makes at most three
      attempts and waits at most 1 + 2 = 3 seconds in all. */
  lemma DefaultRequestBounds(outcome: nat -> Attempt)
    ensures AttemptsFrom(DefaultRetries, outcome, 0) <= 3
    ensures Sum(WaitsFrom(DefaultRetries, outcome, 0)) <= 3000
  {
    AttemptsBounded(DefaultRetries, outcome, 0);
    TotalWait(DefaultRetries, outcome, 0);
    var n := |WaitsFrom(DefaultRetries, outcome, 0)|;
    assert n <= 2;
    assert Pow2(n) <= 4 by {
      if n == 2 { assert Pow2(2) == 4; } else if n == 1 { assert Pow2(1) == 2; }
    }
  }

  /** Whatever made the loop give up, the message shown to the user is the
      network one: status 0 wins over the timeout text in the body. */
  lemma GiveUpShownAsNetworkFailure(r: RequestResult)
    requires r.GaveUp?
    ensures FriendlyMessage(ResultStatus(r), Some(ResultData(r))) == NetworkMessage
  {
  }
}
