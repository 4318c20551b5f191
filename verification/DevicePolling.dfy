/**
 Device-code polling (section 3.5 of RFC 8628): wait, ask, and on `slow_down` wait
 five seconds more from then on, until the flow's time budget is spent. Times are
 in seconds; the clock never goes back and a sleep lasts at least as long as asked.
 */
module DevicePolling {
  import opened Wrappers

  /** What one call of the token endpoint brings back. */
  datatype Response =
    | Token(accessToken: string)
    | MalformedToken
    | ErrorBody(code: string)
    | UnreadableError(status: int)
    | NetworkFailure

  datatype PollError =
    | AuthorizationPending
    | SlowDown
    | AccessDenied
    | ExpiredToken
    | Protocol

  function Classify(code: string): PollError {
    if code == "authorization_pending" then AuthorizationPending
    else if code == "slow_down" then SlowDown
    else if code == "access_denied" then AccessDenied
    else if code == "expired_token" then ExpiredToken
    else Protocol
  }

  /** `_request_token`: a token, or what it raises. */
  function Request(response: Response): Result<string, PollError> {
    match response
    case Token(t) => Ok(t)
    case ErrorBody(code) => Err(Classify(code))
    case _ => Err(Protocol)
  }

  /** The loop goes on after this response. */
  predicate Continues(response: Response) {
    response == ErrorBody("authorization_pending") || IsSlowDown(response)
  }

  predicate IsSlowDown(response: Response) { response == ErrorBody("slow_down") }

  function SlowDowns(responses: seq<Response>): nat {
    if responses == [] then 0
    else SlowDowns(responses[..|responses| - 1]) + if IsSlowDown(responses[|responses| - 1]) then 1 else 0
  }

  /** The sum of the waits before the first `n` requests, as the protocol prescribes them. */
  function Waited(interval: nat, responses: seq<Response>, n: nat): nat
    requires n <= |responses| + 1
  {
    if n == 0 then 0 else Waited(interval, responses, n - 1) + interval + 5 * SlowDowns(responses[..n - 1])
  }

  /** Widened waits add up: after `m` slow-downs among `k` responses the waits before the next
      request come to at least k intervals and 5 * (0 + 1 + ... + (m - 1)) seconds. */
  lemma {:induction false} WaitedAtLeast(interval: nat, responses: seq<Response>)
    ensures var k, m := |responses|, SlowDowns(responses);
      Waited(interval, responses, k) >= k * interval + 5 * (m * (m - 1) / 2)
    decreases |responses|
  {
    if responses == [] {
    } else {
      var init := responses[..|responses| - 1];
      WaitedAtLeast(interval, init);
      WaitedPrefix(interval, responses, init, |init|);
      Triangle(SlowDowns(init));
      assert (|init| + 1) * interval == |init| * interval + interval;
    }
  }

  lemma Triangle(m: nat)
    ensures (m + 1) * m / 2 == m * (m - 1) / 2 + m
  {
    assert (m + 1) * m == m * (m - 1) + 2 * m;
  }

  lemma {:induction false} WaitedPrefix(interval: nat, responses: seq<Response>, init: seq<Response>, n: nat)
    requires init <= responses && n <= |init| + 1
    ensures Waited(interval, responses, n) == Waited(interval, init, n)
  {
    if n == 0 {
    } else {
      WaitedPrefix(interval, responses, init, n - 1);
      assert responses[..n - 1] == init[..n - 1];
    }
  }

  /** The waits the protocol prescribes before each request that got one of these responses. */
  ghost predicate WaitsOk(interval: nat, waits: seq<int>, responses: seq<Response>) {
    |waits| == |responses| && forall k | 0 <= k < |waits| :: waits[k] == interval + 5 * SlowDowns(responses[..k])
  }

  /** So the first wait is the interval asked for, and each later one is longer than the one before by
      five seconds if `slow_down` came in between, and otherwise as long. */
  lemma WaitsIff(interval: nat, waits: seq<int>, responses: seq<Response>)
    ensures WaitsOk(interval, waits, responses) <==>
              && |waits| == |responses| && (waits != [] ==> waits[0] == interval)
              && forall k | 0 <= k < |waits| - 1 ::
                   waits[k + 1] == waits[k] + if responses[k] == ErrorBody("slow_down") then 5 else 0
  {
    if |waits| == |responses| {
      SlowDownsSteps(responses);
      if waits != [] && waits[0] == interval
         && forall k | 0 <= k < |waits| - 1 ::
              waits[k + 1] == waits[k] + if IsSlowDown(responses[k]) then 5 else 0 {
        WaitsFollow(interval, waits, responses, |waits|);
      }
    }
  }

  lemma SlowDownsSteps(responses: seq<Response>)
    ensures forall k | 0 <= k < |responses| ::
              SlowDowns(responses[..k + 1]) == SlowDowns(responses[..k]) + if IsSlowDown(responses[k]) then 1 else 0
    ensures SlowDowns(responses[..0]) == 0
  {
    forall k | 0 <= k < |responses|
      ensures SlowDowns(responses[..k + 1]) == SlowDowns(responses[..k]) + if IsSlowDown(responses[k]) then 1 else 0
    {
      assert responses[..k + 1][..k] == responses[..k];
    }
  }

  lemma {:induction false} WaitsFollow(interval: nat, waits: seq<int>, responses: seq<Response>, n: nat)
    requires |waits| == |responses| && n <= |waits| && (waits != [] ==> waits[0] == interval)
    requires forall k | 0 <= k < |waits| - 1 ::
               waits[k + 1] == waits[k] + if IsSlowDown(responses[k]) then 5 else 0
    ensures forall k | 0 <= k < n :: waits[k] == interval + 5 * SlowDowns(responses[..k])
  {
    SlowDownsSteps(responses);
    if n > 1 {
      WaitsFollow(interval, waits, responses, n - 1);
      assert waits[n - 1] == waits[n - 2] + if IsSlowDown(responses[n - 2]) then 5 else 0;
    }
  }

  ghost predicate AllContinue(responses: seq<Response>) { forall k | 0 <= k < |responses| :: Continues(responses[k]) }

  /** The time budget is larger than the least time the requests before the last one took. */
  ghost predicate WithinBudget(interval: nat, responses: seq<Response>, expiresIn: int) {
    responses != [] ==>
      var n, m := |responses|, SlowDowns(responses[..|responses| - 1]);
      (n - 1) * interval + 5 * (m * (m - 1) / 2) < expiresIn
  }

  /** The poll so far, `elapsed` seconds in: every wait was as prescribed, no response ended it,
      and the budget was kept. */
  ghost predicate Polling(interval: nat, waits: seq<int>, responses: seq<Response>, elapsed: int, expiresIn: int) {
    && WaitsOk(interval, waits, responses) && AllContinue(responses)
    && elapsed >= Waited(interval, responses, |responses|)
    && WithinBudget(interval, responses, expiresIn)
  }

  lemma SlowDownsGrow(responses: seq<Response>, response: Response)
    ensures SlowDowns(responses + [response]) == SlowDowns(responses) + if IsSlowDown(response) then 1 else 0
  {
    assert (responses + [response])[..|responses|] == responses;
  }

  lemma RoundWaits(interval: nat, waits: seq<int>, responses: seq<Response>, response: Response)
    requires WaitsOk(interval, waits, responses)
    ensures WaitsOk(interval, waits + [interval + 5 * SlowDowns(responses)], responses + [response])
  {
    var longer := responses + [response];
    forall k | 0 <= k <= |responses| ensures longer[..k] == responses[..k] {}
  }

  lemma RoundBudget(interval: nat, responses: seq<Response>, elapsed: int, expiresIn: int, response: Response)
    requires elapsed >= Waited(interval, responses, |responses|) && elapsed < expiresIn
    ensures WithinBudget(interval, responses + [response], expiresIn)
  {
    assert (responses + [response])[..|responses|] == responses;
    WaitedAtLeast(interval, responses);
  }

  lemma RoundWaited(interval: nat, responses: seq<Response>, response: Response)
    ensures Waited(interval, responses + [response], |responses| + 1)
            == Waited(interval, responses, |responses|) + interval + 5 * SlowDowns(responses)
  {
    var longer := responses + [response];
    assert longer[..|responses|] == responses;
    WaitedPrefix(interval, longer, responses, |responses|);
  }

  lemma RoundContinues(responses: seq<Response>, response: Response)
    requires AllContinue(responses)
    ensures AllContinue(responses + [response]) <==> Continues(response)
    ensures (responses + [response])[..|responses|] == responses
  {
    assert (responses + [response])[|responses|] == response;
  }

  /** One more round, begun within the budget: a wait as prescribed, and a response. */
  lemma Round(interval: nat, waits: seq<int>, responses: seq<Response>, elapsed: int, expiresIn: int,
              wait: int, response: Response, elapsed': int)
    requires Polling(interval, waits, responses, elapsed, expiresIn) && elapsed < expiresIn
    requires wait == interval + 5 * SlowDowns(responses) && elapsed' >= elapsed + wait
    ensures WaitsOk(interval, waits + [wait], responses + [response])
    ensures WithinBudget(interval, responses + [response], expiresIn)
    ensures AllContinue(responses + [response]) <==> Continues(response)
    ensures Continues(response) ==>
              Polling(interval, waits + [wait], responses + [response], elapsed', expiresIn)
    ensures (responses + [response])[..|responses|] == responses
  {
    RoundWaits(interval, waits, responses, response);
    RoundBudget(interval, responses, elapsed, expiresIn, response);
    RoundWaited(interval, responses, response);
    RoundContinues(responses, response);
  }

  /** The errors the loop swallows are exactly the two that mean "ask again". */
  lemma ContinuesIff(response: Response)
    ensures Continues(response) <==>
              Request(response) == Err(AuthorizationPending) || Request(response) == Err(SlowDown)
    ensures IsSlowDown(response) <==> Request(response) == Err(SlowDown)
  {
  }

  /** Why the interval must be positive: at zero, any number of requests fits into no time. */
  lemma {:induction false} ZeroIntervalUnbounded(n: nat) returns (responses: seq<Response>)
    ensures |responses| == n && AllContinue(responses) && SlowDowns(responses) == 0 && Waited(0, responses, n) == 0
  {
    if n == 0 { return []; }
    var fewer := ZeroIntervalUnbounded(n - 1);
    responses := fewer + [ErrorBody("authorization_pending")];
    assert responses[..n - 1] == fewer;
    WaitedPrefix(0, responses, fewer, n - 1);
  }

  /** What each response means: a token is the token, four error codes have errors of their own, and
      everything else is a protocol error. */
  lemma RequestIff(response: Response, token: string)
    ensures Request(response) == Ok(token) <==> response == Token(token)
    ensures Request(response) == Err(AuthorizationPending) <==> response == ErrorBody("authorization_pending")
    ensures Request(response) == Err(SlowDown) <==> response == ErrorBody("slow_down")
    ensures Request(response) == Err(AccessDenied) <==> response == ErrorBody("access_denied")
    ensures Request(response) == Err(ExpiredToken) <==> response == ErrorBody("expired_token")
  {
  }

  /** The last response is this one. */
  predicate EndsWith(responses: seq<Response>, response: Response) {
    responses != [] && responses[|responses| - 1] == response
  }

  /** How a finished poll ended is read off its last response: with that token, with the refusal or the
      expiry that it names, or with the expiry of the budget when it still said to ask again. */
  lemma EndedAs(responses: seq<Response>, outcome: Result<string, PollError>, token: string)
    requires if AllContinue(responses) then outcome == Err(ExpiredToken)
             else AllContinue(responses[..|responses| - 1]) && outcome == Request(responses[|responses| - 1])
    ensures outcome == Ok(token) <==> EndsWith(responses, Token(token))
    ensures outcome == Err(AccessDenied) <==> EndsWith(responses, ErrorBody("access_denied"))
    ensures outcome == Err(ExpiredToken) <==> AllContinue(responses) || EndsWith(responses, ErrorBody("expired_token"))
    ensures outcome == Err(Protocol) <==>
              && !AllContinue(responses) && !responses[|responses| - 1].Token?
              && !EndsWith(responses, ErrorBody("access_denied")) && !EndsWith(responses, ErrorBody("expired_token"))
  {
    if AllContinue(responses) {
      if responses != [] { assert Continues(responses[|responses| - 1]); }
    } else {
      var last := responses[|responses| - 1];
      RequestIff(last, token);
      ContinuesIff(last);
      assert !Continues(last);
    }
  }

  /** The world outside the loop. Any clock and any server: `delay` is how long passes at each
      step beyond what is asked, `answer` what each request brings. */
  class Session {
    const delay: nat -> nat
    const answer: nat -> Response
    var now: int
    var steps: nat
    var waits: seq<int>
    var responses: seq<Response>

    constructor (now: int, delay: nat -> nat, answer: nat -> Response)
      ensures this.now == now && waits == [] && responses == [] && this.delay == delay && this.answer == answer
    {
      this.now, this.delay, this.answer, steps, waits, responses := now, delay, answer, 0, [], [];
    }

    method Pass(seconds: nat)
      modifies this`now, this`steps
      ensures now >= old(now) + seconds
    {
      now, steps := now + seconds + delay(steps), steps + 1;
    }

    method Clock() returns (t: int)
      modifies this`now, this`steps
      ensures t == now >= old(now)
    {
      Pass(0);
      t := now;
    }

    method Sleep(seconds: nat)
      modifies this`now, this`steps, this`waits
      ensures now >= old(now) + seconds && waits == old(waits) + [seconds]
    {
      Pass(seconds);
      waits := waits + [seconds];
    }

    method Post() returns (response: Response)
      modifies this`now, this`steps, this`responses
      ensures now >= old(now) && responses == old(responses) + [response] && response == answer(|old(responses)|)
    {
      Pass(0);
      response := answer(|responses|);
      responses := responses + [response];
    }

    /** Ends for every clock and server, with a token exactly when the last response carried one.
        Each wait is the initial interval and five seconds for every `slow_down` before it. With n
        requests sent, m of the first n - 1 answered `slow_down`, the time budget is larger than
        (n - 1) * interval + 5 * m * (m - 1) / 2. A zero interval bounds nothing: a poll
        that no response has told to wait is watched for `limit` requests, and the answer is then
        None. */
    method PollForToken(interval: nat, expiresIn: int, limit: nat) returns (r: Option<Result<string, PollError>>)
      requires waits == [] && responses == []
      modifies this
      ensures WaitsOk(interval, waits, responses) && WithinBudget(interval, responses, expiresIn)
      ensures r.None? ==> interval == 0 && SlowDowns(responses) == 0 && |responses| == limit && AllContinue(responses)
      ensures r.Some? ==>
                if AllContinue(responses) then r.value == Err(ExpiredToken) && now >= old(now) + expiresIn
                else AllContinue(responses[..|responses| - 1]) && r.value == Request(responses[|responses| - 1])
    {
      var t := Clock();
      var deadline := t + expiresIn;
      var wait: nat := interval;
      ghost var start := now;
      while wait > 0 || |responses| < limit
        invariant old(now) <= start <= now && start == deadline - expiresIn
        invariant Polling(interval, waits, responses, now - start, expiresIn)
        invariant wait == interval + 5 * SlowDowns(responses)
        invariant wait == 0 ==> |responses| <= limit
        decreases wait == 0, if wait > 0 then deadline - now else limit - |responses|
      {
        t := Clock();
        if t >= deadline { return Some(Err(ExpiredToken)); }
        ghost var before, waited := responses, waits;
        Sleep(wait);
        var response := Post();
        Round(interval, waited, before, t - start, expiresIn, wait, response, now - start);
        SlowDownsGrow(before, response);
        ContinuesIff(response);
        var outcome := Request(response);
        if outcome.Ok? { return Some(outcome); }
        match outcome.error {
          case AuthorizationPending =>
          case SlowDown => wait := wait + 5;
          case _ => return Some(outcome);
        }
      }
      r := None;
    }
  }
}
