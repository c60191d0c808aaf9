/** Fetching one feed: the HTTP outcome, the parse, the item transform, the
    error classification and the retry policy with its back-off schedule; and
    the fan-out over several feeds. The network is a parameter: the outcome
    of each attempt, indexed by the attempt's retry count. */
module JobFetcher {
  import opened Wrappers
  import opened Strings
  import JobTransformer
  import XmlParser
  import opened Seqs

  /** What one HTTP request yields: a response, or a thrown request error
      (timeout, refused connection, ...). */
  datatype HttpOutcome =
    | Response(status: nat, statusText: string, body: XmlParser.Payload)
    | RequestError(message: string)

  /** The outcome of the attempt made with retry count `n`. */
  type Network = nat -> HttpOutcome

  const MaxRetries: nat := 3

  /** The result record `fetchJobsFromUrl` resolves to; it never throws. */
  datatype FetchResult = FetchResult(
    success: bool,
    url: string,
    jobs: seq<JobTransformer.Job>,
    totalFetched: nat,
    error: Option<string>)

  /** The result together with what the retry loop did to get it: how many
      requests were made and the back-off waits between them. */
  datatype FetchReport = FetchReport(result: FetchResult, attempts: nat, delays: seq<nat>)

  function Pow2(n: nat): (r: nat)
    ensures r >= 1
  {
    if n == 0 then 1 else 2 * Pow2(n - 1)
  }

  /** `Math.pow(2, retryCount) * 1000` milliseconds before retry `retryCount + 1`. */
  function BackoffDelay(retryCount: nat): nat {
    Pow2(retryCount) * 1000
  }

  /** Errors whose message mentions parsing are not worth retrying; the test
      is case-sensitive. */
  predicate IsParsingError(message: string) {
    Contains(message, "parse") || Contains(message, "XML")
  }

  /** The message thrown for a response whose status is not 200. */
  function HttpErrorMessage(status: nat, statusText: string): string {
    "HTTP " + NatToString(status) + ": " + statusText
  }

  /** The status-line prefix has neither a 'p' nor an 'X', so the error is a
      parsing error exactly when the server's status text is one. */
  lemma HttpErrorClassification(status: nat, statusText: string)
    ensures IsParsingError(HttpErrorMessage(status, statusText)) <==> IsParsingError(statusText)
  {
    var p := "HTTP " + NatToString(status) + ": ";
    assert HttpErrorMessage(status, statusText) == p + statusText;
    assert 'p' !in p && 'X' !in p by {
      var d := NatToString(status);
      assert p == "HTTP " + d + ": ";
      forall i | 0 <= i < |p| ensures p[i] != 'p' && p[i] != 'X' {
        if 5 <= i < 5 + |d| {
          assert p[i] == d[i - 5] && IsDigit(d[i - 5]);
        }
      }
    }
    ContainsBehindPrefix(p, statusText, "parse");
    ContainsBehindPrefix(p, statusText, "XML");
  }

  /** The number of feed items the transform accepts. */
  function CountAccepted(items: seq<XmlParser.FeedNode>): (n: nat)
    ensures n <= |items|
  {
    if items == [] then 0
    else CountAccepted(items[..|items| - 1])
         + (if JobTransformer.Transformable(XmlParser.ItemOf(items[|items| - 1])) then 1 else 0)
  }

  /** The posting of one feed item, or nothing when its transform throws. */
  function TransformItem(n: XmlParser.FeedNode, url: string, digest: string -> string): (r: Option<JobTransformer.Job>)
    ensures r.Some? <==> JobTransformer.Transformable(XmlParser.ItemOf(n))
    ensures r.Some? ==> r.value.source == url && r.value.isActive
  {
    match JobTransformer.Transform(XmlParser.ItemOf(n), url, digest)
    case Success(job) => Some(job)
    case Failure(_) => None
  }

  /** A present posting as a one-element list, an absent one as none. */
  function Emitted(t: Option<JobTransformer.Job>): seq<JobTransformer.Job> {
    if t.Some? then [t.value] else []
  }

  /** `jobItems.map(transform-or-null).filter(not null)`: the postings of the
      items whose transform did not throw, in feed order. */
  function TransformAll(items: seq<XmlParser.FeedNode>, url: string, digest: string -> string)
    : (r: seq<JobTransformer.Job>)
    ensures |r| == CountAccepted(items)
    ensures forall i :: 0 <= i < |r| ==> r[i].source == url && r[i].isActive
  {
    if items == [] then []
    else TransformAll(items[..|items| - 1], url, digest) + Emitted(TransformItem(items[|items| - 1], url, digest))
  }

  /** One more item adds its posting, if any, at the end. */
  lemma TransformAllSnoc(items: seq<XmlParser.FeedNode>, x: XmlParser.FeedNode, url: string, digest: string -> string)
    ensures TransformAll(items + [x], url, digest) == TransformAll(items, url, digest) + Emitted(TransformItem(x, url, digest))
  {
    var s := items + [x];
    assert s[..|s| - 1] == items && s[|s| - 1] == x;
  }

  /** The transform works item by item: a feed's postings are those of its
      first part followed by those of the rest. */
  lemma {:induction false} TransformAllAppend(a: seq<XmlParser.FeedNode>, b: seq<XmlParser.FeedNode>,
                                              url: string, digest: string -> string)
    ensures TransformAll(a + b, url, digest) == TransformAll(a, url, digest) + TransformAll(b, url, digest)
    decreases |b|
  {
    if b == [] {
      assert a + b == a;
    } else {
      var init, x := b[..|b| - 1], b[|b| - 1];
      assert b == init + [x];
      ConcatAssociative(a, init, [x]);
      TransformAllAppend(a, init, url, digest);
      TransformAllSnoc(a + init, x, url, digest);
      TransformAllSnoc(init, x, url, digest);
      ConcatAssociative(TransformAll(a, url, digest), TransformAll(init, url, digest),
                        Emitted(TransformItem(x, url, digest)));
    }
  }

  /** The statuses the HTTP client resolves with (2xx); it rejects any other. */
  predicate IsSuccessStatus(status: nat) {
    200 <= status < 300
  }

  /** The message the HTTP client rejects a non-2xx response with. */
  function RejectedStatusMessage(status: nat): string {
    "Request failed with status code " + NatToString(status)
  }

  /** A text made of these letters and digits never reads as a parsing error. */
  lemma NoMarkerLetters(s: string)
    requires 'p' !in s && 'X' !in s
    ensures !IsParsingError(s)
  {
    ContainsIffOccurs(s, "parse");
    ContainsIffOccurs(s, "XML");
    forall i: nat ensures !OccursAt(s, "parse", i) && !OccursAt(s, "XML", i) {
      if i < |s| {
        assert s[i] in s;
      }
      if i + 3 <= |s| {
        assert s[i..i + 3][0] == s[i];
      }
      if i + 5 <= |s| {
        assert s[i..i + 5][0] == s[i];
      }
    }
  }

  /** The rejection message names no parse, so it is always retried. */
  lemma RejectedStatusNotParsing(status: nat)
    ensures !IsParsingError(RejectedStatusMessage(status))
  {
    var p := "Request failed with status code ";
    var d := NatToString(status);
    var m := RejectedStatusMessage(status);
    assert m == p + d;
    forall i | 0 <= i < |m| ensures m[i] != 'p' && m[i] != 'X' {
      if i >= |p| {
        assert m[i] == d[i - |p|] && IsDigit(d[i - |p|]);
      }
    }
    NoMarkerLetters(m);
  }

  /** One request: a request error or a non-2xx status (rejected by the HTTP
      client) throws its message; a 2xx status other than 200 throws the
      status line; a 200 body is parsed, its items extracted and transformed. */
  function Attempt(outcome: HttpOutcome, url: string, tk: XmlParser.XmlToolkit, digest: string -> string)
    : (r: Result<seq<JobTransformer.Job>>)
    ensures outcome.RequestError? ==> r == Failure(outcome.message)
    ensures outcome.Response? && !IsSuccessStatus(outcome.status) ==>
              r == Failure(RejectedStatusMessage(outcome.status))
    ensures outcome.Response? && IsSuccessStatus(outcome.status) && outcome.status != 200 ==>
              r == Failure(HttpErrorMessage(outcome.status, outcome.statusText))
    ensures outcome.Response? && outcome.status == 200 ==>
              (r.Failure? <==> XmlParser.ParseXml(outcome.body, tk).Failure?)
    ensures r.Success? ==> forall i :: 0 <= i < |r.value| ==> r.value[i].source == url
  {
    match outcome
    case RequestError(m) => Failure(m)
    case Response(status, text, body) =>
      if !IsSuccessStatus(status) then Failure(RejectedStatusMessage(status))
      else if status != 200 then Failure(HttpErrorMessage(status, text))
      else
        match XmlParser.ParseXml(body, tk)
        case Failure(e) => Failure(e)
        case Success(tree) => Success(TransformAll(XmlParser.ExtractJobs(tree), url, digest))
  }

  /** The retries still allowed at retry count `retryCount`. */
  function RetriesLeft(retryCount: nat): nat {
    if retryCount < MaxRetries then MaxRetries - retryCount else 0
  }

  /** The classified result of the attempt made with retry count `n`. */
  type Attempts = nat -> Result<seq<JobTransformer.Job>>

  /** Attempt number `n` is followed by another: it failed, its error does
      not name parsing, and the retry cap had not been reached. */
  predicate Retried(outcome: Result<seq<JobTransformer.Job>>, n: nat) {
    outcome.Failure? && !IsParsingError(outcome.error) && n < MaxRetries
  }

  /** The retry loop of `fetchJobsFromUrl` over classified attempts: a failed
      attempt is retried after the back-off delay unless its error is a
      parsing error or the retries are used up; the final failure becomes a
      result record, never an exception. */
  function RetryLoop(attempt: Attempts, url: string, retryCount: nat): (r: FetchReport)
    ensures 1 <= r.attempts <= RetriesLeft(retryCount) + 1
    ensures |r.delays| == r.attempts - 1
    ensures forall i :: 0 <= i < |r.delays| ==> r.delays[i] == BackoffDelay(retryCount + i)
    ensures r.result.url == url
    ensures r.result.success <==> r.result.error.None?
    ensures r.result.success ==> r.result.totalFetched == |r.result.jobs|
    ensures !r.result.success ==> r.result.jobs == [] && r.result.totalFetched == 0
    ensures !r.result.success ==>
              attempt(retryCount + r.attempts - 1) == Failure(r.result.error.value)
              && (IsParsingError(r.result.error.value) || r.attempts == RetriesLeft(retryCount) + 1)
    ensures r.result.success ==> attempt(retryCount + r.attempts - 1) == Success(r.result.jobs)
    ensures forall n {:trigger Retried(attempt(n), n)} ::
              retryCount <= n < retryCount + r.attempts - 1 ==> Retried(attempt(n), n)
    decreases RetriesLeft(retryCount)
  {
    match attempt(retryCount)
    case Success(jobs) => FetchReport(FetchResult(true, url, jobs, |jobs|, None), 1, [])
    case Failure(e) =>
      if !IsParsingError(e) && retryCount < MaxRetries then
        var rest := RetryLoop(attempt, url, retryCount + 1);
        var delays := [BackoffDelay(retryCount)] + rest.delays;
        assert forall i :: 0 < i < |delays| ==> delays[i] == rest.delays[i - 1];
        assert forall n {:trigger Retried(attempt(n), n)} ::
          retryCount <= n < retryCount + rest.attempts ==> Retried(attempt(n), n) by {
          forall n | retryCount <= n < retryCount + rest.attempts
            ensures Retried(attempt(n), n)
          {
            if n == retryCount {
              assert attempt(n) == Failure(e);
            }
          }
        }
        FetchReport(rest.result, rest.attempts + 1, delays)
      else
        FetchReport(FetchResult(false, url, [], 0, Some(e)), 1, [])
  }

  /** `fetchJobsFromUrl(url, retryCount)`: each attempt requests the URL,
      checks the status, parses and transforms; the retry loop decides what
      happens after a failure. */
  function FetchFromUrl(url: string, net: Network, tk: XmlParser.XmlToolkit, digest: string -> string,
                        retryCount: nat): (r: FetchReport)
    ensures 1 <= r.attempts <= RetriesLeft(retryCount) + 1
    ensures |r.delays| == r.attempts - 1
    ensures forall i :: 0 <= i < |r.delays| ==> r.delays[i] == BackoffDelay(retryCount + i)
    ensures r.result.url == url
    ensures r.result.success <==> r.result.error.None?
    ensures r.result.success ==> r.result.totalFetched == |r.result.jobs|
    ensures !r.result.success ==> r.result.jobs == [] && r.result.totalFetched == 0
    ensures !r.result.success ==>
              Attempt(net(retryCount + r.attempts - 1), url, tk, digest) == Failure(r.result.error.value)
              && (IsParsingError(r.result.error.value) || r.attempts == RetriesLeft(retryCount) + 1)
    ensures r.result.success ==>
              Attempt(net(retryCount + r.attempts - 1), url, tk, digest) == Success(r.result.jobs)
    ensures forall n {:trigger Retried(Attempt(net(n), url, tk, digest), n)} ::
              retryCount <= n < retryCount + r.attempts - 1 ==> Retried(Attempt(net(n), url, tk, digest), n)
  {
    LastAttemptOf(url, net, tk, digest, retryCount);
    EarlierAttemptsOf(url, net, tk, digest, retryCount);
    RetryLoop(AttemptsOf(url, net, tk, digest), url, retryCount)
  }

  /** The attempts of `fetchJobsFromUrl` against one network, by retry count. */
  function AttemptsOf(url: string, net: Network, tk: XmlParser.XmlToolkit, digest: string -> string): Attempts {
    (n: nat) => Attempt(net(n), url, tk, digest)
  }

  /** The loop's last attempt is the request made with its retry count, and
      its outcome is the fetch's. */
  lemma LastAttemptOf(url: string, net: Network, tk: XmlParser.XmlToolkit, digest: string -> string, retryCount: nat)
    ensures var r := RetryLoop(AttemptsOf(url, net, tk, digest), url, retryCount);
            r.result.success ==> Attempt(net(retryCount + r.attempts - 1), url, tk, digest) == Success(r.result.jobs)
    ensures var r := RetryLoop(AttemptsOf(url, net, tk, digest), url, retryCount);
            !r.result.success ==>
              Attempt(net(retryCount + r.attempts - 1), url, tk, digest) == Failure(r.result.error.value)
  {
    var attempt := AttemptsOf(url, net, tk, digest);
    var r := RetryLoop(attempt, url, retryCount);
    var last := retryCount + r.attempts - 1;
    assert attempt(last) == Attempt(net(last), url, tk, digest);
  }

  /** Every attempt before the loop's last was retried. */
  lemma EarlierAttemptsOf(url: string, net: Network, tk: XmlParser.XmlToolkit, digest: string -> string, retryCount: nat)
    ensures var r := RetryLoop(AttemptsOf(url, net, tk, digest), url, retryCount);
            forall n {:trigger Retried(Attempt(net(n), url, tk, digest), n)} ::
              retryCount <= n < retryCount + r.attempts - 1 ==> Retried(Attempt(net(n), url, tk, digest), n)
  {
    var attempt := AttemptsOf(url, net, tk, digest);
    var r := RetryLoop(attempt, url, retryCount);
    forall n | retryCount <= n < retryCount + r.attempts - 1
      ensures Retried(Attempt(net(n), url, tk, digest), n)
    {
      assert Retried(attempt(n), n);
    }
  }

  /** The public entry point, with the default retry count 0. */
  function FetchJobs(url: string, net: Network, tk: XmlParser.XmlToolkit, digest: string -> string): (r: FetchReport)
    ensures 1 <= r.attempts <= MaxRetries + 1
    ensures r.result.url == url
    ensures r.result.success <==> r.result.error.None?
    ensures r.result.success ==> Attempt(net(r.attempts - 1), url, tk, digest) == Success(r.result.jobs)
    ensures forall n {:trigger Retried(Attempt(net(n), url, tk, digest), n)} ::
              0 <= n < r.attempts - 1 ==> Retried(Attempt(net(n), url, tk, digest), n)
  {
    var r := FetchFromUrl(url, net, tk, digest, 0);
    assert RetriesLeft(0) == MaxRetries;
    r
  }

  /** From a fresh start there are at most four requests, and the waits
      between them are 1000, 2000 and 4000 ms in turn. */
  lemma BackoffSchedule(url: string, net: Network, tk: XmlParser.XmlToolkit, digest: string -> string)
    ensures FetchJobs(url, net, tk, digest).attempts <= MaxRetries + 1
    ensures FetchJobs(url, net, tk, digest).delays == [1000, 2000, 4000][..FetchJobs(url, net, tk, digest).attempts - 1]
  {
    var r := FetchJobs(url, net, tk, digest);
    var d := [1000, 2000, 4000];
    assert BackoffDelay(0) == 1000 && BackoffDelay(1) == 2000 && BackoffDelay(2) == 4000;
    assert |r.delays| <= |d|;
    assert forall i :: 0 <= i < |r.delays| ==> r.delays[i] == d[i];
    assert r.delays == d[..|r.delays|];
  }

  /** A 200 response whose body both parse passes reject ends the fetch at
      once: its error names parsing, so it is never retried. */
  lemma ParseFailureNotRetried(url: string, net: Network, tk: XmlParser.XmlToolkit, digest: string -> string,
                               retryCount: nat)
    requires net(retryCount).Response? && net(retryCount).status == 200
    requires XmlParser.ParseXml(net(retryCount).body, tk).Failure?
    ensures FetchFromUrl(url, net, tk, digest, retryCount).attempts == 1
    ensures FetchFromUrl(url, net, tk, digest, retryCount).result.error
            == Some(XmlParser.ParseXml(net(retryCount).body, tk).error)
  {
    XmlParser.ParseFailureMentionsParse(net(retryCount).body, tk);
  }

  /** A 2xx response other than 200 is retried (while retries remain)
      unless the server's own status text mentions parsing. */
  lemma HttpErrorRetried(url: string, net: Network, tk: XmlParser.XmlToolkit, digest: string -> string,
                         retryCount: nat)
    requires net(retryCount).Response? && IsSuccessStatus(net(retryCount).status) && net(retryCount).status != 200
    requires !IsParsingError(net(retryCount).statusText) && retryCount < MaxRetries
    ensures FetchFromUrl(url, net, tk, digest, retryCount).attempts >= 2
    ensures FetchFromUrl(url, net, tk, digest, retryCount).delays[0] == BackoffDelay(retryCount)
  {
    HttpErrorClassification(net(retryCount).status, net(retryCount).statusText);
  }

  /** A response outside 2xx (a 404 or 500, say) is always retried while
      retries remain, and a fetch that ends on one fails with the HTTP
      client's message. */
  lemma RejectedStatusRetried(url: string, net: Network, tk: XmlParser.XmlToolkit, digest: string -> string,
                              retryCount: nat)
    requires net(retryCount).Response? && !IsSuccessStatus(net(retryCount).status)
    ensures retryCount < MaxRetries ==>
              FetchFromUrl(url, net, tk, digest, retryCount).attempts >= 2
              && FetchFromUrl(url, net, tk, digest, retryCount).delays[0] == BackoffDelay(retryCount)
    ensures retryCount >= MaxRetries ==>
              FetchFromUrl(url, net, tk, digest, retryCount).result.error
              == Some(RejectedStatusMessage(net(retryCount).status))
  {
    RejectedStatusNotParsing(net(retryCount).status);
  }

  // ---- Several feeds ----

  /** How each fetch promise settled. */
  datatype Settled = Fulfilled(value: FetchResult) | Rejected(reason: string)

  /** The failure record for a feed whose promise was rejected. */
  function RejectedResult(url: string, reason: string): (r: FetchResult)
    ensures !r.success && r.url == url && r.jobs == [] && r.totalFetched == 0 && r.error == Some(reason)
  {
    FetchResult(false, url, [], 0, Some(reason))
  }

  /** `fetchFromMultipleSources`: one result per URL, in input order; a
      fulfilled fetch gives its own record, a rejected one a failure record
      carrying that URL. `settled[i]` is how the fetch of `urls[i]` ended. */
  function FetchFromMultipleSources(urls: seq<string>, settled: seq<Settled>): (r: seq<FetchResult>)
    requires |settled| == |urls|
    ensures |r| == |urls|
    ensures forall i :: 0 <= i < |r| && settled[i].Fulfilled? ==> r[i] == settled[i].value
    ensures forall i :: 0 <= i < |r| && settled[i].Rejected? ==> r[i] == RejectedResult(urls[i], settled[i].reason)
  {
    if urls == [] then []
    else
      [match settled[0]
       case Fulfilled(v) => v
       case Rejected(reason) => RejectedResult(urls[0], reason)]
      + FetchFromMultipleSources(urls[1..], settled[1..])
  }

  /** The fulfilled value of a fetch. */
  function SettleFetch(url: string, net: Network, tk: XmlParser.XmlToolkit, digest: string -> string): Settled {
    Fulfilled(FetchJobs(url, net, tk, digest).result)
  }

  /** When every promise settles with its own fetch (the fetch never throws),
      result `i` belongs to URL `i`. */
  lemma FanOutKeepsOrder(urls: seq<string>, nets: seq<Network>, tk: XmlParser.XmlToolkit,
                         digest: string -> string, settled: seq<Settled>)
    requires |nets| == |urls| && |settled| == |urls|
    requires forall i :: 0 <= i < |urls| ==> settled[i] == SettleFetch(urls[i], nets[i], tk, digest)
    ensures forall i :: 0 <= i < |urls| ==> FetchFromMultipleSources(urls, settled)[i].url == urls[i]
  {
  }
}
