/** The parts of the Turnitin client (the `TurnitinService` class) that
    only interpret what Turnitin answers: the cookie string and the session
    id inside it, the submission TRN, and the four bounded polling and
    retry loops. Every request is an input: a `Fetch` that either raised,
    with the text of the exception, or carries the already-decoded answer;
    the k-th answer inside a loop is `answer(k)`. */
module ServiceProtocol {
  import opened Wrappers
  import opened Text

  // Values of `TurnitinWebConstants`
  const SessionId: string := "session-id"
  const LegacySessionId: string := "legacy-session-id"
  const CookieSeparator: string := "; "
  /** The number of metadata polls. */
  const MaxRetries: nat := 180
  /** The pause between two metadata polls (sleeping is not modelled). */
  const RetryDelayMs: nat := 2000

  /** The bounds of the AI job creation and of the two report polls. */
  const AiJobAttempts: nat := 3
  const AiReportPolls: nat := 30
  const DownloadUrlPolls: nat := 30

  // ---------------------------------------------------------------------
  // get_cookies

  const CookieFailure: string := "获取 Cookie 失败: "
  const BadCookieFormat: string := "无效的 Cookie 格式"

  /** `get_cookies` outside DEBUG mode; `answer` is what the cookie
      endpoint answered, after `raise_for_status`. Every failure surfaces
      as one `IOError`. */
  function GetCookies(answer: Fetch<string>): (r: Result<string, string>)
    ensures r.Err? ==> StartsWith(r.error, CookieFailure)
  {
    match answer
    case Raised(e) => Err(CookieFailure + e)
    case Got(text) =>
      var c := Strip(text);
      if c == "" || !Contains(c, SessionId) || !Contains(c, LegacySessionId) then
        Err(CookieFailure + BadCookieFormat)
      else
        Ok(c)
  }

  /** Of the three checks only the last one decides: a cookie string naming
      `legacy-session-id` is non-empty and names `session-id` too. An
      accepted cookie is the stripped answer, with no white space left at
      either end. */
  lemma CookieAccepted(text: string)
    ensures GetCookies(Got(text)).Ok? <==> Contains(Strip(text), LegacySessionId)
    ensures GetCookies(Got(text)).Ok? ==>
              GetCookies(Got(text)).value == Strip(text) && Strip(Strip(text)) == Strip(text)
  {
    var c := Strip(text);
    if Contains(c, LegacySessionId) {
      var i :| 0 <= i <= |c| && StartsWith(c[i..], LegacySessionId);
      assert LegacySessionId[7..] == SessionId;
      assert c[i + 7..][..|SessionId|] == c[i..][..|LegacySessionId|][7..];
      ContainsAt(c, SessionId, i + 7);
      StripNoSpaces(c);
    }
  }

  // ---------------------------------------------------------------------
  // extract_session_id

  const SessionPrefix: string := SessionId + "="
  const NoSessionId: string := "未找到 session-id"

  /** The first of `parts` that starts with `p`. */
  function FirstWithPrefix(parts: seq<string>, p: string): (r: Option<nat>)
    ensures r.Some? ==> r.value < |parts| && StartsWith(parts[r.value], p)
    ensures r.Some? ==> forall j | 0 <= j < r.value :: !StartsWith(parts[j], p)
    ensures r.None? ==> forall j | 0 <= j < |parts| :: !StartsWith(parts[j], p)
    decreases |parts|
  {
    if parts == [] then None
    else if StartsWith(parts[0], p) then Some(0)
    else match FirstWithPrefix(parts[1..], p)
      case Some(k) => Some(k + 1)
      case None => None
  }

  /** `extract_session_id`: the text after `session-id=` in the first
      `"; "`-separated segment that starts with it. */
  function ExtractSessionId(cookies: string): Result<string, string> {
    var parts := Split(cookies, CookieSeparator);
    match FirstWithPrefix(parts, SessionPrefix)
    case Some(k) => Ok(parts[k][|SessionPrefix|..])
    case None => Err(NoSessionId)
  }

  /** For a cookie string made of segments free of ';', the session id is
      read from the first segment that starts with `session-id=`, and it is
      an error when there is none. */
  lemma SessionIdOfSegments(segments: seq<string>)
    requires |segments| >= 1
    requires forall k | 0 <= k < |segments| :: NoChar(segments[k], ';')
    ensures ExtractSessionId(Join(segments, CookieSeparator)) ==
              match FirstWithPrefix(segments, SessionPrefix)
              case Some(k) => Ok(segments[k][|SessionPrefix|..])
              case None => Err(NoSessionId)
  {
    assert CookieSeparator[0] == ';';
    SplitJoin(segments, CookieSeparator);
  }

  /** `legacy-session-id=` segments never match, so the session id is
      never read from the legacy cookie. */
  lemma LegacyNeverMatches(segment: string)
    ensures StartsWith(segment, LegacySessionId + "=") ==> !StartsWith(segment, SessionPrefix)
  {
    if StartsWith(segment, LegacySessionId + "=") {
      assert segment[0] == (LegacySessionId + "=")[0] == 'l';
    }
  }

  // ---------------------------------------------------------------------
  // _extract_submission_trn

  const OidPrefix: string := "oid:1:"
  const NoTrn: string := "无法提取 submission-trn"

  /** What `sws_launch_token` answers: the keys of
      `payload.config.submissions`, in order (none when a level is
      missing), and `token`. */
  datatype LaunchToken = LaunchToken(submissions: seq<string>, token: Option<string>)

  datatype Trn = Trn(trn: string, token: Option<string>)

  /** `_extract_submission_trn`: from the first submission key that starts
      with `oid:1:`, the text `key.split('oid:1:')[1]`. */
  function ExtractSubmissionTrn(answer: Fetch<LaunchToken>): Result<Trn, string> {
    match answer
    case Raised(e) => Err(e)
    case Got(launch) =>
      match FirstWithPrefix(launch.submissions, OidPrefix)
      case None => Err(NoTrn)
      case Some(k) =>
        var key := launch.submissions[k];
        SplitAtPrefix(key, OidPrefix);
        Ok(Trn(Split(key, OidPrefix)[1], launch.token))
  }

  /** A TRN is found exactly when some key starts with `oid:1:`; it is
      what follows that prefix in the first such key, up to the next
      `oid:1:` or the end of the key, and it is paired with the launch
      token. */
  lemma TrnFound(launch: LaunchToken)
    ensures ExtractSubmissionTrn(Got(launch)).Ok? <==>
              exists k | 0 <= k < |launch.submissions| :: StartsWith(launch.submissions[k], OidPrefix)
    ensures ExtractSubmissionTrn(Got(launch)).Ok? ==>
              var t := ExtractSubmissionTrn(Got(launch)).value;
              t.token == launch.token && !Contains(t.trn, OidPrefix) &&
              exists k | 0 <= k < |launch.submissions| ::
                StartsWith(launch.submissions[k], OidPrefix + t.trn) &&
                (launch.submissions[k] == OidPrefix + t.trn ||
                 StartsWith(launch.submissions[k][|OidPrefix| + |t.trn|..], OidPrefix)) &&
                forall j | 0 <= j < k :: !StartsWith(launch.submissions[j], OidPrefix)
  {
    match FirstWithPrefix(launch.submissions, OidPrefix)
    case None =>
    case Some(k) =>
      var key := launch.submissions[k];
      SplitAtPrefix(key, OidPrefix);
      var rest := key[|OidPrefix|..];
      var trn := Split(rest, OidPrefix)[0];
      SplitHead(rest, OidPrefix);
      SplitPieces(rest, OidPrefix);
      assert key == OidPrefix + rest;
      assert (OidPrefix + trn) == key[..|OidPrefix| + |trn|];
      assert key[|OidPrefix| + |trn|..] == rest[|trn|..];
  }

  /** A key `oid:1:` + t, with no further `oid:1:` in t and no matching
      key before it, gives back t whatever keys follow. */
  lemma TrnRoundTrip(before: seq<string>, t: string, after: seq<string>, token: Option<string>)
    requires forall k | 0 <= k < |before| :: !StartsWith(before[k], OidPrefix)
    requires !Contains(t, OidPrefix)
    ensures ExtractSubmissionTrn(Got(LaunchToken(before + [OidPrefix + t] + after, token))) == Ok(Trn(t, token))
  {
    var key := OidPrefix + t;
    var keys := before + [key] + after;
    assert key[..|OidPrefix|] == OidPrefix;
    assert FirstWithPrefix(keys, OidPrefix) == Some(|before|) by {
      assert keys == before + ([key] + after);
      FirstPrefixAfter(before, [key] + after, OidPrefix);
    }
    assert keys[|before|] == key;
    SplitAtPrefix(key, OidPrefix);
    assert key[|OidPrefix|..] == t;
    FindSpec(t, OidPrefix);
    SplitNone(t, OidPrefix);
    assert Split(key, OidPrefix)[1] == Split(key, OidPrefix)[1..][0];
  }

  /** Parts that do not match are skipped over. */
  lemma {:induction false} FirstPrefixAfter(before: seq<string>, after: seq<string>, p: string)
    requires forall k | 0 <= k < |before| :: !StartsWith(before[k], p)
    requires after != [] && StartsWith(after[0], p)
    ensures FirstWithPrefix(before + after, p) == Some(|before|)
    decreases |before|
  {
    if before == [] {
      assert before + after == after;
    } else {
      assert (before + after)[1..] == before[1..] + after;
      FirstPrefixAfter(before[1..], after, p);
    }
  }

  // ---------------------------------------------------------------------
  // wait_for_metadata

  const MetadataReady: string := "\"status\":1"
  const MetadataRejected: string := "\"status\":-1"
  const MetadataFailed: string := "元数据获取失败"
  const MetadataTimeout: string := "元数据获取超时"

  /** How a bounded wait ended, and after how many requests. */
  datatype Waited<T> = Waited(result: Result<T, string>, polls: nat)

  /** A metadata answer that neither ends nor fails the wait. */
  predicate MetadataPending(answer: Fetch<string>) {
    answer.Got? && !Contains(answer.value, MetadataReady) && !Contains(answer.value, MetadataRejected)
  }

  /** The metadata wait from poll `k` on. */
  function MetadataWait(answer: nat -> Fetch<string>, k: nat): Waited<()>
    decreases MaxRetries - k
  {
    if k >= MaxRetries then Waited(Err(MetadataTimeout), k)
    else match answer(k)
      case Raised(e) => Waited(Err(e), k + 1)
      case Got(text) =>
        if Contains(text, MetadataReady) then Waited(Ok(()), k + 1)
        else if Contains(text, MetadataRejected) then Waited(Err(MetadataFailed), k + 1)
        else MetadataWait(answer, k + 1)
  }

  /** The wait stops at the first answer that is not pending, after at most
      `MaxRetries` polls: `"status":1` ends it (checked first), `"status":-1`
      fails it, an exception is passed on, and after `MaxRetries` pending
      answers it times out. */
  lemma {:induction false} MetadataWaitShape(answer: nat -> Fetch<string>, k: nat)
    requires k < MaxRetries
    ensures var w := MetadataWait(answer, k);
      k < w.polls <= MaxRetries &&
      (forall j | k <= j < w.polls - 1 :: MetadataPending(answer(j))) &&
      (w.result.Ok? <==> answer(w.polls - 1).Got? && Contains(answer(w.polls - 1).value, MetadataReady)) &&
      (answer(w.polls - 1).Raised? ==> w.result == Err(answer(w.polls - 1).error)) &&
      ((answer(w.polls - 1).Got? && !Contains(answer(w.polls - 1).value, MetadataReady) &&
          Contains(answer(w.polls - 1).value, MetadataRejected)) ==> w.result == Err(MetadataFailed)) &&
      (MetadataPending(answer(w.polls - 1)) ==> w.polls == MaxRetries && w.result == Err(MetadataTimeout))
    decreases MaxRetries - k
  {
    if MetadataPending(answer(k)) && k + 1 < MaxRetries {
      MetadataWaitShape(answer, k + 1);
    }
  }

  /** `wait_for_metadata`, with `answer(k)` the body of the k-th POST. */
  method WaitForMetadata(answer: nat -> Fetch<string>) returns (r: Result<(), string>, polls: nat)
    ensures Waited(r, polls) == MetadataWait(answer, 0)
  {
    var k := 0;
    while k < MaxRetries
      invariant k <= MaxRetries
      invariant MetadataWait(answer, k) == MetadataWait(answer, 0)
    {
      var a := answer(k);
      if a.Raised? {
        return Err(a.error), k + 1;
      }
      if Contains(a.value, MetadataReady) {
        return Ok(()), k + 1;
      } else if Contains(a.value, MetadataRejected) {
        return Err(MetadataFailed), k + 1;
      }
      k := k + 1;
    }
    return Err(MetadataTimeout), MaxRetries;
  }

  // ---------------------------------------------------------------------
  // _generate_ai_report

  const AiJobFailed: string := "Failed to generate AI report: "
  const AiJobExhausted: string := "Failed to generate AI report after 3 attempts: "

  datatype HttpReply = HttpReply(code: int, text: string)

  /** The part of the AI job request that can change between attempts:
      the `authentication` header, and the `sessionToken` of the body's
      `config` and of its `extensions[0].config`. */
  datatype JobRequest = JobRequest(authentication: string, configToken: string, extensionToken: string)

  /** How the job creation ended, the requests posted, in order, and the
      session token the caller's session data holds afterwards. */
  datatype JobOutcome = JobOutcome(result: Result<string, string>, sent: seq<JobRequest>, token: string)

  /** The attempts from `attempt` on, posting with session token `token`;
      `lastText` is the body of the previous answer. `refresh(k)` is the
      new session token fetched after the k-th answer was a 401. */
  function AiJob(post: (nat, JobRequest) -> Fetch<HttpReply>, refresh: nat -> Fetch<string>,
                 authentication: string, token: string, attempt: nat, lastText: string): JobOutcome
    decreases AiJobAttempts - attempt
  {
    if attempt >= AiJobAttempts then JobOutcome(Err(AiJobExhausted + lastText), [], token)
    else
      var request := JobRequest(authentication, token, token);
      match post(attempt, request)
      case Raised(e) => JobOutcome(Err(e), [request], token)
      case Got(reply) =>
        if reply.code == 200 || reply.code == 201 then JobOutcome(Ok(Strip(reply.text)), [request], token)
        else if reply.code != 401 then JobOutcome(Err(AiJobFailed + reply.text), [request], token)
        else if refresh(attempt).Raised? then JobOutcome(Err(refresh(attempt).error), [request], token)
        else
          Prepend([request], AiJob(post, refresh, authentication, refresh(attempt).value, attempt + 1, reply.text))
  }

  /** The outcome `o` of later attempts, after the requests `sent`. */
  function Prepend(sent: seq<JobRequest>, o: JobOutcome): (r: JobOutcome)
    ensures r.result == o.result && r.token == o.token
    ensures |r.sent| == |sent| + |o.sent|
  {
    JobOutcome(o.result, sent + o.sent, o.token)
  }

  lemma PrependOne(request: JobRequest, o: JobOutcome)
    ensures var r := Prepend([request], o);
      r.sent[0] == request &&
      (forall k | 0 <= k < |o.sent| :: r.sent[k + 1] == o.sent[k]) &&
      (o.sent != [] ==> r.sent[|r.sent| - 1] == o.sent[|o.sent| - 1])
  {
    var r := Prepend([request], o);
    assert r.sent[0] == r.sent[..1][0];
    forall k | 0 <= k < |o.sent| ensures r.sent[k + 1] == o.sent[k] {
      assert r.sent[k + 1] == r.sent[1..][k];
    }
  }

  lemma PrependTwice(first: seq<JobRequest>, second: seq<JobRequest>, o: JobOutcome)
    ensures Prepend(first, Prepend(second, o)) == Prepend(first + second, o)
  {
    assert first + (second + o.sent) == (first + second) + o.sent;
  }

  /** The attempt at which the last of the requests `o.sent` was posted,
      the first having been posted at `attempt`, and that request. */
  function LastAttempt(attempt: nat, o: JobOutcome): nat
    requires o.sent != []
  {
    attempt + |o.sent| - 1
  }

  function LastRequest(o: JobOutcome): JobRequest
    requires o.sent != []
  {
    o.sent[|o.sent| - 1]
  }

  lemma PrependLast(request: JobRequest, attempt: nat, o: JobOutcome)
    requires o.sent != []
    ensures Prepend([request], o).sent != []
    ensures LastAttempt(attempt, Prepend([request], o)) == LastAttempt(attempt + 1, o)
    ensures LastRequest(Prepend([request], o)) == LastRequest(o)
  {
    PrependOne(request, o);
  }

  /** The attempt at `attempt` is answered with 401, its refresh succeeds
      and another attempt is left. */
  predicate Retries(post: (nat, JobRequest) -> Fetch<HttpReply>, refresh: nat -> Fetch<string>,
                    authentication: string, token: string, attempt: nat)
  {
    Unauthorized(post(attempt, JobRequest(authentication, token, token))) && refresh(attempt).Got? &&
    attempt + 1 < AiJobAttempts
  }

  /** Without a retry the attempt at `attempt` is the last request posted. */
  lemma AiJobOnce(post: (nat, JobRequest) -> Fetch<HttpReply>, refresh: nat -> Fetch<string>,
                  authentication: string, token: string, attempt: nat, lastText: string)
    requires attempt < AiJobAttempts && !Retries(post, refresh, authentication, token, attempt)
    ensures var o := AiJob(post, refresh, authentication, token, attempt, lastText);
      var request := JobRequest(authentication, token, token);
      var a := post(attempt, request);
      o.sent == [request] &&
      (Unauthorized(a) && refresh(attempt).Got? ==> o.token == refresh(attempt).value) &&
      (!(Unauthorized(a) && refresh(attempt).Got?) ==> o.token == token)
  {
  }

  /** One 401 answer whose refresh succeeded, with attempts left. */
  lemma AiJobRetry(post: (nat, JobRequest) -> Fetch<HttpReply>, refresh: nat -> Fetch<string>,
                   authentication: string, token: string, attempt: nat, lastText: string)
    requires attempt < AiJobAttempts
    requires Unauthorized(post(attempt, JobRequest(authentication, token, token))) && refresh(attempt).Got?
    ensures AiJob(post, refresh, authentication, token, attempt, lastText) ==
      Prepend([JobRequest(authentication, token, token)],
              AiJob(post, refresh, authentication, refresh(attempt).value, attempt + 1,
                    post(attempt, JobRequest(authentication, token, token)).value.text))
  {
  }

  /** An answer that makes the client refresh its token and post again. */
  predicate Unauthorized(answer: Fetch<HttpReply>) {
    answer.Got? && answer.value.code == 401
  }

  /** The `k`-th of the requests `sent` from attempt `attempt` on was
      answered with 401, and the token fetched then is in the next one. */
  predicate Retried(post: (nat, JobRequest) -> Fetch<HttpReply>, refresh: nat -> Fetch<string>,
                    attempt: nat, sent: seq<JobRequest>, k: nat)
    requires k + 1 < |sent|
  {
    Unauthorized(post(attempt + k, sent[k])) && refresh(attempt + k) == Got(sent[k + 1].configToken)
  }

  /** The requests `sent`, the first posted at attempt `attempt`, all keep
      the `authentication` header and carry one session token in both
      `sessionToken` fields, and each one after the first follows a 401
      whose refresh fetched the token it carries. */
  predicate WellSent(post: (nat, JobRequest) -> Fetch<HttpReply>, refresh: nat -> Fetch<string>,
                     authentication: string, attempt: nat, sent: seq<JobRequest>)
  {
    (forall k | 0 <= k < |sent| ::
       sent[k].authentication == authentication && sent[k].configToken == sent[k].extensionToken) &&
    (forall k | 0 <= k < |sent| - 1 :: Retried(post, refresh, attempt, sent, k))
  }

  lemma WellSentRetry(post: (nat, JobRequest) -> Fetch<HttpReply>, refresh: nat -> Fetch<string>,
                      authentication: string, attempt: nat, request: JobRequest, rest: JobOutcome)
    requires request.authentication == authentication && request.configToken == request.extensionToken
    requires WellSent(post, refresh, authentication, attempt + 1, rest.sent) && rest.sent != []
    requires Unauthorized(post(attempt, request)) && refresh(attempt) == Got(rest.sent[0].configToken)
    ensures WellSent(post, refresh, authentication, attempt, Prepend([request], rest).sent)
  {
    var sent := Prepend([request], rest).sent;
    PrependOne(request, rest);
    forall k | 0 <= k < |sent| ensures sent[k].authentication == authentication && sent[k].configToken == sent[k].extensionToken {
      if k > 0 {
        assert sent[k] == rest.sent[k - 1];
      }
    }
    forall k | 0 <= k < |sent| - 1 ensures Retried(post, refresh, attempt, sent, k) {
      if k > 0 {
        assert Retried(post, refresh, attempt + 1, rest.sent, k - 1);
      }
    }
  }

  /** At most three POSTs, the first with the token the creation started
      with in all three places, and all of them well sent. */
  lemma {:induction false} AiJobRequests(post: (nat, JobRequest) -> Fetch<HttpReply>, refresh: nat -> Fetch<string>,
      authentication: string, token: string, attempt: nat, lastText: string)
    requires attempt < AiJobAttempts
    ensures var o := AiJob(post, refresh, authentication, token, attempt, lastText);
      1 <= |o.sent| <= AiJobAttempts - attempt &&
      o.sent[0] == JobRequest(authentication, token, token) &&
      WellSent(post, refresh, authentication, attempt, o.sent)
    decreases AiJobAttempts - attempt, 1
  {
    if Retries(post, refresh, authentication, token, attempt) {
      AiJobRequestsRetry(post, refresh, authentication, token, attempt, lastText);
    } else {
      AiJobOnce(post, refresh, authentication, token, attempt, lastText);
    }
  }

  lemma {:induction false} AiJobRequestsRetry(post: (nat, JobRequest) -> Fetch<HttpReply>, refresh: nat -> Fetch<string>,
      authentication: string, token: string, attempt: nat, lastText: string)
    requires attempt < AiJobAttempts && Retries(post, refresh, authentication, token, attempt)
    ensures var o := AiJob(post, refresh, authentication, token, attempt, lastText);
      1 <= |o.sent| <= AiJobAttempts - attempt &&
      o.sent[0] == JobRequest(authentication, token, token) &&
      WellSent(post, refresh, authentication, attempt, o.sent)
    decreases AiJobAttempts - attempt, 0
  {
    var request := JobRequest(authentication, token, token);
    var renewed := refresh(attempt).value;
    var text := post(attempt, request).value.text;
    AiJobRequests(post, refresh, authentication, renewed, attempt + 1, text);
    var rest := AiJob(post, refresh, authentication, renewed, attempt + 1, text);
    AiJobRetry(post, refresh, authentication, token, attempt, lastText);
    PrependOne(request, rest);
    WellSentRetry(post, refresh, authentication, attempt, request, rest);
  }

  /** The answer to the last POST decides success: 200 and 201 give the
      stripped body as the job id. */
  lemma {:induction false} AiJobSucceeds(post: (nat, JobRequest) -> Fetch<HttpReply>, refresh: nat -> Fetch<string>,
      authentication: string, token: string, attempt: nat, lastText: string)
    requires attempt < AiJobAttempts
    ensures var o := AiJob(post, refresh, authentication, token, attempt, lastText);
      o.sent != [] &&
      var last := LastAttempt(attempt, o);
      var a := post(last, LastRequest(o));
      (o.result.Ok? <==> a.Got? && (a.value.code == 200 || a.value.code == 201)) &&
      (o.result.Ok? ==> o.result.value == Strip(a.value.text))
    decreases AiJobAttempts - attempt, 1
  {
    if Retries(post, refresh, authentication, token, attempt) {
      AiJobSucceedsRetry(post, refresh, authentication, token, attempt, lastText);
    } else {
      AiJobOnce(post, refresh, authentication, token, attempt, lastText);
    }
  }

  lemma {:induction false} AiJobSucceedsRetry(post: (nat, JobRequest) -> Fetch<HttpReply>, refresh: nat -> Fetch<string>,
      authentication: string, token: string, attempt: nat, lastText: string)
    requires attempt < AiJobAttempts && Retries(post, refresh, authentication, token, attempt)
    ensures var o := AiJob(post, refresh, authentication, token, attempt, lastText);
      o.sent != [] &&
      var last := LastAttempt(attempt, o);
      var a := post(last, LastRequest(o));
      (o.result.Ok? <==> a.Got? && (a.value.code == 200 || a.value.code == 201)) &&
      (o.result.Ok? ==> o.result.value == Strip(a.value.text))
    decreases AiJobAttempts - attempt, 0
  {
    var request := JobRequest(authentication, token, token);
    var renewed := refresh(attempt).value;
    var text := post(attempt, request).value.text;
    AiJobSucceeds(post, refresh, authentication, renewed, attempt + 1, text);
    var rest := AiJob(post, refresh, authentication, renewed, attempt + 1, text);
    AiJobRetry(post, refresh, authentication, token, attempt, lastText);
    PrependLast(request, attempt, rest);
  }

  /** Any status other than 200, 201 and 401 fails at once with the body;
      a third 401 fails after its refresh, and a failing refresh or POST
      passes its exception on. */
  lemma {:induction false} AiJobFails(post: (nat, JobRequest) -> Fetch<HttpReply>, refresh: nat -> Fetch<string>,
      authentication: string, token: string, attempt: nat, lastText: string)
    requires attempt < AiJobAttempts
    ensures var o := AiJob(post, refresh, authentication, token, attempt, lastText);
      o.sent != [] &&
      var last := LastAttempt(attempt, o);
      var a := post(last, LastRequest(o));
      (a.Got? && a.value.code != 200 && a.value.code != 201 && a.value.code != 401 ==>
         o.result == Err(AiJobFailed + a.value.text)) &&
      (a.Raised? ==> o.result == Err(a.error)) &&
      (Unauthorized(a) && refresh(last).Raised? ==> o.result == Err(refresh(last).error)) &&
      (Unauthorized(a) && refresh(last).Got? ==>
         last == AiJobAttempts - 1 && o.result == Err(AiJobExhausted + a.value.text))
    decreases AiJobAttempts - attempt, 1
  {
    if Retries(post, refresh, authentication, token, attempt) {
      AiJobFailsRetry(post, refresh, authentication, token, attempt, lastText);
    } else {
      AiJobOnce(post, refresh, authentication, token, attempt, lastText);
    }
  }

  lemma {:induction false} AiJobFailsRetry(post: (nat, JobRequest) -> Fetch<HttpReply>, refresh: nat -> Fetch<string>,
      authentication: string, token: string, attempt: nat, lastText: string)
    requires attempt < AiJobAttempts && Retries(post, refresh, authentication, token, attempt)
    ensures var o := AiJob(post, refresh, authentication, token, attempt, lastText);
      o.sent != [] &&
      var last := LastAttempt(attempt, o);
      var a := post(last, LastRequest(o));
      (a.Got? && a.value.code != 200 && a.value.code != 201 && a.value.code != 401 ==>
         o.result == Err(AiJobFailed + a.value.text)) &&
      (a.Raised? ==> o.result == Err(a.error)) &&
      (Unauthorized(a) && refresh(last).Raised? ==> o.result == Err(refresh(last).error)) &&
      (Unauthorized(a) && refresh(last).Got? ==>
         last == AiJobAttempts - 1 && o.result == Err(AiJobExhausted + a.value.text))
    decreases AiJobAttempts - attempt, 0
  {
    var request := JobRequest(authentication, token, token);
    var renewed := refresh(attempt).value;
    var text := post(attempt, request).value.text;
    AiJobFails(post, refresh, authentication, renewed, attempt + 1, text);
    var rest := AiJob(post, refresh, authentication, renewed, attempt + 1, text);
    AiJobRetry(post, refresh, authentication, token, attempt, lastText);
    PrependLast(request, attempt, rest);
  }

  /** The caller's session data ends with the last token fetched. */
  lemma {:induction false} AiJobToken(post: (nat, JobRequest) -> Fetch<HttpReply>, refresh: nat -> Fetch<string>,
      authentication: string, token: string, attempt: nat, lastText: string)
    requires attempt < AiJobAttempts
    ensures var o := AiJob(post, refresh, authentication, token, attempt, lastText);
      o.sent != [] &&
      var last := LastAttempt(attempt, o);
      var a := post(last, LastRequest(o));
      (Unauthorized(a) && refresh(last).Got? ==> o.token == refresh(last).value) &&
      (!(Unauthorized(a) && refresh(last).Got?) ==> o.token == LastRequest(o).configToken)
    decreases AiJobAttempts - attempt, 1
  {
    if Retries(post, refresh, authentication, token, attempt) {
      AiJobTokenRetry(post, refresh, authentication, token, attempt, lastText);
    } else {
      AiJobOnce(post, refresh, authentication, token, attempt, lastText);
    }
  }

  lemma {:induction false} AiJobTokenRetry(post: (nat, JobRequest) -> Fetch<HttpReply>, refresh: nat -> Fetch<string>,
      authentication: string, token: string, attempt: nat, lastText: string)
    requires attempt < AiJobAttempts && Retries(post, refresh, authentication, token, attempt)
    ensures var o := AiJob(post, refresh, authentication, token, attempt, lastText);
      o.sent != [] &&
      var last := LastAttempt(attempt, o);
      var a := post(last, LastRequest(o));
      (Unauthorized(a) && refresh(last).Got? ==> o.token == refresh(last).value) &&
      (!(Unauthorized(a) && refresh(last).Got?) ==> o.token == LastRequest(o).configToken)
    decreases AiJobAttempts - attempt, 0
  {
    var request := JobRequest(authentication, token, token);
    var renewed := refresh(attempt).value;
    var text := post(attempt, request).value.text;
    AiJobToken(post, refresh, authentication, renewed, attempt + 1, text);
    var rest := AiJob(post, refresh, authentication, renewed, attempt + 1, text);
    AiJobRetry(post, refresh, authentication, token, attempt, lastText);
    PrependLast(request, attempt, rest);
  }

  /** `_generate_ai_report`: `token` is the session token the body starts
      with; the loop rewrites the two `sessionToken` fields of the body in
      place after each 401. */
  method GenerateAiReport(token: string, post: (nat, JobRequest) -> Fetch<HttpReply>, refresh: nat -> Fetch<string>)
    returns (r: Result<string, string>, sent: seq<JobRequest>, latest: string)
    ensures JobOutcome(r, sent, latest) == AiJob(post, refresh, token, token, 0, "")
  {
    var body := JobRequest(token, token, token);
    latest := token;
    sent := [];
    var attempt := 0;
    var lastText := "";
    while attempt < AiJobAttempts
      invariant attempt <= AiJobAttempts
      invariant body == JobRequest(token, latest, latest)
      invariant AiJob(post, refresh, token, token, 0, "") == Prepend(sent, AiJob(post, refresh, token, latest, attempt, lastText))
    {
      ghost var before := sent;
      sent := sent + [body];
      var stop, renewed, text := PostJob(post, refresh, body, attempt, lastText);
      if stop.Some? {
        return stop.value, sent, latest;
      }
      PrependTwice(before, [body], AiJob(post, refresh, token, renewed, attempt + 1, text));
      latest := renewed;
      body := body.(configToken := latest, extensionToken := latest);
      lastText := text;
      attempt := attempt + 1;
    }
    assert sent + [] == sent;
    r := Err(AiJobExhausted + lastText);
  }

  /** One pass of the loop of `_generate_ai_report`: the POST of `body`
      and, after a 401, the token refresh. `stop` is how the creation ends
      here, if it does; otherwise `renewed` is the new token and `text` the
      body of the 401 answer. */
  method PostJob(post: (nat, JobRequest) -> Fetch<HttpReply>, refresh: nat -> Fetch<string>,
                 body: JobRequest, attempt: nat, lastText: string)
    returns (stop: Option<Result<string, string>>, renewed: string, text: string)
    requires attempt < AiJobAttempts && body.configToken == body.extensionToken
    ensures var job := AiJob(post, refresh, body.authentication, body.configToken, attempt, lastText);
      (stop.Some? ==> job == JobOutcome(stop.value, [body], body.configToken)) &&
      (stop.None? ==> job == Prepend([body], AiJob(post, refresh, body.authentication, renewed, attempt + 1, text)))
  {
    var answer := post(attempt, body);
    if answer.Raised? {
      return Some(Err(answer.error)), "", "";
    }
    var reply := answer.value;
    if reply.code == 200 || reply.code == 201 {
      return Some(Ok(Strip(reply.text))), "", "";
    } else if reply.code == 401 {
      var fetched := refresh(attempt);
      if fetched.Raised? {
        return Some(Err(fetched.error)), "", "";
      }
      AiJobRetry(post, refresh, body.authentication, body.configToken, attempt, lastText);
      return None, fetched.value, reply.text;
    } else {
      return Some(Err(AiJobFailed + reply.text)), "", "";
    }
  }

  // ---------------------------------------------------------------------
  // _wait_for_ai_report

  const AiReportFailed: string := "AI 报告生成失败"
  const AiReportTimeout: string := "AI 报告生成超时"

  /** The `status` and `url` of the job's JSON answer. */
  datatype JobState = JobState(status: Option<string>, url: Option<string>)

  predicate JobPending(answer: Fetch<JobState>) {
    answer.Got? && answer.value.status != Some("SUCCESS") && answer.value.status != Some("FAILED")
  }

  /** The AI report wait from poll `k` on; `answer(t, k)` is the k-th
      answer to a poll authenticated with session token `t`. */
  function AiReportWait(token: string, answer: (string, nat) -> Fetch<JobState>, k: nat): Waited<Option<string>>
    decreases AiReportPolls - k
  {
    if k >= AiReportPolls then Waited(Err(AiReportTimeout), k)
    else match answer(token, k)
      case Raised(e) => Waited(Err(e), k + 1)
      case Got(state) =>
        if state.status == Some("SUCCESS") then Waited(Ok(state.url), k + 1)
        else if state.status == Some("FAILED") then Waited(Err(AiReportFailed), k + 1)
        else AiReportWait(token, answer, k + 1)
  }

  /** At most 30 polls; SUCCESS gives the job's url (which may be absent),
      FAILED an error, and 30 pending answers a timeout. */
  lemma {:induction false} AiReportWaitShape(token: string, answer: (string, nat) -> Fetch<JobState>, k: nat)
    requires k < AiReportPolls
    ensures var w := AiReportWait(token, answer, k);
      k < w.polls <= AiReportPolls &&
      var a := answer(token, w.polls - 1);
      (forall j | k <= j < w.polls - 1 :: JobPending(answer(token, j))) &&
      (w.result.Ok? <==> a.Got? && a.value.status == Some("SUCCESS")) &&
      (w.result.Ok? ==> w.result.value == a.value.url) &&
      (a.Raised? ==> w.result == Err(a.error)) &&
      (a.Got? && a.value.status == Some("FAILED") ==> w.result == Err(AiReportFailed)) &&
      (JobPending(a) ==> w.polls == AiReportPolls && w.result == Err(AiReportTimeout))
    decreases AiReportPolls - k
  {
    if JobPending(answer(token, k)) && k + 1 < AiReportPolls {
      AiReportWaitShape(token, answer, k + 1);
    }
  }

  /** `_wait_for_ai_report(job_id, session_token)` */
  method WaitForAiReport(token: string, answer: (string, nat) -> Fetch<JobState>)
    returns (r: Result<Option<string>, string>, polls: nat)
    ensures Waited(r, polls) == AiReportWait(token, answer, 0)
  {
    var k := 0;
    while k < AiReportPolls
      invariant k <= AiReportPolls
      invariant AiReportWait(token, answer, k) == AiReportWait(token, answer, 0)
    {
      var a := answer(token, k);
      if a.Raised? {
        return Err(a.error), k + 1;
      }
      if a.value.status == Some("SUCCESS") {
        return Ok(a.value.url), k + 1;
      } else if a.value.status == Some("FAILED") {
        return Err(AiReportFailed), k + 1;
      }
      k := k + 1;
    }
    return Err(AiReportTimeout), AiReportPolls;
  }

  // ---------------------------------------------------------------------
  // _get_download_url

  const NonAi: string := "nonAi"
  const DownloadUrlFailed: string := "文件下载 URL 获取失败"

  /** The `ready` and `url` of a download ticket's JSON answer. */
  datatype Ticket = Ticket(ready: Option<int>, url: Option<string>)

  predicate TicketPending(answer: Fetch<Ticket>) {
    answer.Got? && answer.value.ready != Some(1)
  }

  /** The ticket polls from poll `k` on. */
  function TicketWait(answer: nat -> Fetch<Ticket>, k: nat): Waited<Option<string>>
    decreases DownloadUrlPolls - k
  {
    if k >= DownloadUrlPolls then Waited(Err(DownloadUrlFailed), k)
    else match answer(k)
      case Raised(e) => Waited(Err(e), k + 1)
      case Got(ticket) =>
        if ticket.ready == Some(1) then Waited(Ok(ticket.url), k + 1)
        else TicketWait(answer, k + 1)
  }

  /** `_get_download_url`: `landing` is the GET of the viewer page,
      `queue` the filter-option PUT and GET and the `queue_pdf` POST,
      `answer(k)` the k-th ticket poll. */
  function DownloadUrl(pdfType: string, landing: Fetch<()>, queue: Fetch<()>, answer: nat -> Fetch<Ticket>): Waited<Option<string>> {
    if landing.Raised? then Waited(Err(landing.error), 0)
    else if pdfType != NonAi then Waited(Err(DownloadUrlFailed), 0)
    else if queue.Raised? then Waited(Err(queue.error), 0)
    else TicketWait(answer, 0)
  }

  /** A url comes only from the `nonAi` kind and only from a ready ticket,
      after at most 30 polls; 30 tickets that are not ready fail. */
  lemma {:induction false} TicketWaitShape(answer: nat -> Fetch<Ticket>, k: nat)
    requires k < DownloadUrlPolls
    ensures var w := TicketWait(answer, k);
      k < w.polls <= DownloadUrlPolls &&
      var a := answer(w.polls - 1);
      (forall j | k <= j < w.polls - 1 :: TicketPending(answer(j))) &&
      (w.result.Ok? <==> a.Got? && a.value.ready == Some(1)) &&
      (w.result.Ok? ==> w.result.value == a.value.url) &&
      (a.Raised? ==> w.result == Err(a.error)) &&
      (TicketPending(a) ==> w.polls == DownloadUrlPolls && w.result == Err(DownloadUrlFailed))
    decreases DownloadUrlPolls - k
  {
    if TicketPending(answer(k)) && k + 1 < DownloadUrlPolls {
      TicketWaitShape(answer, k + 1);
    }
  }

  lemma DownloadUrlOnlyNonAi(pdfType: string, landing: Fetch<()>, queue: Fetch<()>, answer: nat -> Fetch<Ticket>)
    ensures DownloadUrl(pdfType, landing, queue, answer).result.Ok? ==>
              pdfType == NonAi && landing.Got? && queue.Got?
    ensures pdfType != NonAi ==>
              DownloadUrl(pdfType, landing, queue, answer).polls == 0 && DownloadUrl(pdfType, landing, queue, answer).result.Err?
    ensures DownloadUrl(pdfType, landing, queue, answer).polls <= DownloadUrlPolls
  {
    if landing.Got? && pdfType == NonAi && queue.Got? {
      TicketWaitShape(answer, 0);
    }
  }

  /** `_get_download_url(..., pdf_type, ...)` */
  method GetDownloadUrl(pdfType: string, landing: Fetch<()>, queue: Fetch<()>, answer: nat -> Fetch<Ticket>)
    returns (r: Result<Option<string>, string>, polls: nat)
    ensures Waited(r, polls) == DownloadUrl(pdfType, landing, queue, answer)
  {
    if landing.Raised? {
      return Err(landing.error), 0;
    }
    if pdfType == NonAi {
      if queue.Raised? {
        return Err(queue.error), 0;
      }
      var k := 0;
      while k < DownloadUrlPolls
        invariant k <= DownloadUrlPolls
        invariant TicketWait(answer, k) == TicketWait(answer, 0)
      {
        var a := answer(k);
        if a.Raised? {
          return Err(a.error), k + 1;
        }
        if a.value.ready == Some(1) {
          return Ok(a.value.url), k + 1;
        }
        k := k + 1;
      }
    }
    return Err(DownloadUrlFailed), if pdfType == NonAi then DownloadUrlPolls else 0;
  }
}
