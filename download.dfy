/**
 * Page export (src/utils/download.ts). The browser effects are recorded as a
 * trace of events; the network fetch, the body read and the URL parser are
 * inputs.
 */
module Download {
  import opened Wrappers
  import opened Validation

  // ---------------------------------------------------------------------------
  // Decimal rendering of the status code inside the error message

  function DigitChar(d: nat): (c: char)
    requires d < 10
    ensures '0' <= c <= '9' && c as int - '0' as int == d
  {
    "0123456789"[d]
  }

  predicate IsDigits(s: string) {
    forall i :: 0 <= i < |s| ==> '0' <= s[i] <= '9'
  }

  /** A number in decimal, as a template literal prints an integral status code. */
  function Decimal(n: nat): (s: string)
    ensures |s| > 0 && IsDigits(s)
    ensures s[0] == '0' ==> n == 0
    decreases n
  {
    if n < 10 then [DigitChar(n)] else Decimal(n / 10) + [DigitChar(n % 10)]
  }

  /** The value of a string of decimal digits. */
  function DecimalValue(s: string): nat
    requires IsDigits(s)
  {
    if s == [] then 0 else DecimalValue(s[..|s| - 1]) * 10 + (s[|s| - 1] as int - '0' as int)
  }

  /** Reading back the rendered status code gives the status code. */
  lemma {:induction false} DecimalRoundTrip(n: nat)
    ensures DecimalValue(Decimal(n)) == n
    decreases n
  {
    if n >= 10 {
      DecimalRoundTrip(n / 10);
      var s := Decimal(n);
      assert s[..|s| - 1] == Decimal(n / 10);
    }
  }

  // ---------------------------------------------------------------------------
  // The file name

  /** `.replace(/[:.]/g, '-')`: every ':' and every '.' becomes '-'. */
  function SanitizeTimestamp(s: string): (r: string)
    ensures |r| == |s|
    ensures forall i :: 0 <= i < |s| ==> r[i] == (if s[i] == ':' || s[i] == '.' then '-' else s[i])
  {
    if s == [] then []
    else [if s[0] == ':' || s[0] == '.' then '-' else s[0]] + SanitizeTimestamp(s[1..])
  }

  /** The sanitised timestamp has no ':' and no '.', and sanitising it again changes nothing. */
  lemma SanitizeTimestampClean(s: string)
    ensures ':' !in SanitizeTimestamp(s) && '.' !in SanitizeTimestamp(s)
    ensures SanitizeTimestamp(SanitizeTimestamp(s)) == SanitizeTimestamp(s)
  {
    var r := SanitizeTimestamp(s);
    assert forall i :: 0 <= i < |r| ==> r[i] != ':' && r[i] != '.';
  }

  /**
   * The download attribute `${domain}-${timestamp}.html`: the domain and a
   * dash, then the timestamp without ':' or '.', then ".html".
   */
  function DownloadFilename(domain: string, isoTimestamp: string): (f: string)
    ensures |f| == |domain| + |isoTimestamp| + 6
    ensures domain + "-" <= f && f[|f| - 5..] == ".html"
    ensures f[|domain| + 1..|f| - 5] == SanitizeTimestamp(isoTimestamp)
    ensures ':' !in f[|domain| + 1..|f| - 5] && '.' !in f[|domain| + 1..|f| - 5]
  {
    var t := SanitizeTimestamp(isoTimestamp);
    var f := domain + "-" + t + ".html";
    assert f == (domain + "-") + t + ".html";
    assert f[|domain| + 1..|f| - 5] == t;
    SanitizeTimestampClean(isoTimestamp);
    f
  }

  // ---------------------------------------------------------------------------
  // downloadPage

  /** What `response.text()` does: resolve to the page's markup or reject. */
  datatype BodyOutcome = Body(html: string) | BodyRejected(reason: string)

  /** What `fetch(url)` does: reject (network or CORS failure) or deliver a response. */
  datatype FetchOutcome =
    | FetchRejected(reason: string)
    | Responded(status: nat, statusText: string, body: BodyOutcome)

  /** `response.ok`: the status is in the range 200 to 299 (Fetch Standard), that is, in the 2xx class. */
  predicate IsOk(status: nat): (ok: bool)
    ensures ok <==> status / 100 == 2
  {
    200 <= status <= 299
  }

  /** The error downloadPage rethrows: the fetch's own rejection, the non-OK error it raises, or the body read's rejection. */
  datatype DownloadError =
    | FetchFailed(reason: string)
    | HttpError(message: string)
    | BodyFailed(reason: string)

  datatype DownloadOutcome = Downloaded | Failed(error: DownloadError)

  /** The events downloadPage causes, in the order it causes them. */
  datatype Effect =
    | Report(percent: int)            // progressCallback?.(percent)
    | FetchPage(url: string)          // fetch(url)
    | ReadText                        // response.text()
    | CreateObjectUrl(html: string)   // URL.createObjectURL(new Blob([html], {type: 'text/html'}))
    | SetDownloadName(filename: string)
    | AppendLink
    | ClickLink
    | RemoveLink
    | RevokeObjectUrl
    | LogError(error: DownloadError)  // console.error before the rethrow

  const FailedToFetch: string := "Failed to fetch page: "

  /**
   * The message of the error thrown for a non-OK response. It starts with
   * "Failed to fetch page: " and ends with a space and the status text; the
   * digits between them read back as the status code.
   */
  function HttpErrorMessage(status: nat, statusText: string): (m: string)
    ensures FailedToFetch <= m
    ensures |m| > |FailedToFetch| + |statusText| && m[|m| - |statusText| - 1..] == " " + statusText
    ensures var digits := m[|FailedToFetch|..|m| - |statusText| - 1];
      IsDigits(digits) && DecimalValue(digits) == status
  {
    var digits := Decimal(status);
    var m := FailedToFetch + digits + " " + statusText;
    assert m == FailedToFetch + digits + (" " + statusText);
    assert m[|FailedToFetch|..|m| - |statusText| - 1] == digits;
    assert m[|m| - |statusText| - 1..] == " " + statusText;
    DecimalRoundTrip(status);
    m
  }

  /** A 404 response gives a message that names the status. */
  lemma HttpErrorMessage404()
    ensures HttpErrorMessage(404, "Not Found") == "Failed to fetch page: 404 Not Found"
  {
  }

  /** The progress values in a trace, in order. */
  function Reports(trace: seq<Effect>): seq<int> {
    if trace == [] then []
    else (if trace[0].Report? then [trace[0].percent] else []) + Reports(trace[1..])
  }

  /** The trace without its progress reports. */
  function Actions(trace: seq<Effect>): seq<Effect> {
    if trace == [] then []
    else (if trace[0].Report? then [] else [trace[0]]) + Actions(trace[1..])
  }

  lemma {:induction false} ReportsAppend(a: seq<Effect>, b: seq<Effect>)
    ensures Reports(a + b) == Reports(a) + Reports(b)
    ensures Actions(a + b) == Actions(a) + Actions(b)
  {
    if a == [] {
      assert a + b == b;
    } else {
      var ab := a + b;
      assert ab[0] == a[0];
      assert ab[1..] == a[1..] + b;
      ReportsAppend(a[1..], b);
      var h := if a[0].Report? then [a[0].percent] else [];
      assert Reports(ab) == h + Reports(a[1..] + b);
      assert Reports(a) == h + Reports(a[1..]);
      var g := if a[0].Report? then [] else [a[0]];
      assert Actions(ab) == g + Actions(a[1..] + b);
      assert Actions(a) == g + Actions(a[1..]);
    }
  }

  /** A call of the progress callback, when one was supplied: `progressCallback?.(percent)`. */
  function Progress(hasCallback: bool, percent: int): (t: seq<Effect>)
    ensures Reports(t) == (if hasCallback then [percent] else [])
    ensures Actions(t) == []
  {
    if hasCallback then
      assert [Report(percent)][1..] == [];
      [Report(percent)]
    else []
  }

  /** The browser actions that save the page once its markup is known. */
  function SaveSteps(html: string, filename: string): seq<Effect> {
    [CreateObjectUrl(html), SetDownloadName(filename), AppendLink, ClickLink, RemoveLink, RevokeObjectUrl]
  }

  /** The catch block: log the error, then throw it on to the caller. */
  function Caught(trace: seq<Effect>, error: DownloadError): (seq<Effect>, DownloadOutcome) {
    (trace + [LogError(error)], Failed(error))
  }

  /**
   * What downloadPage does, case by case: the events in order and how the
   * returned promise settles. `hasCallback` says whether a progress callback
   * was passed; `fetched` is what the fetch and the body read do; `parseHost`
   * is the URL parser behind extractDomain; `isoTimestamp` is
   * `new Date().toISOString()`.
   */
  function DownloadRun(url: string, hasCallback: bool, fetched: FetchOutcome,
                       parseHost: string -> Option<string>, isoTimestamp: string): (r: (seq<Effect>, DownloadOutcome))
    ensures r.1.Downloaded? <==> fetched.Responded? && IsOk(fetched.status) && fetched.body.Body?
  {
    var fetching := Progress(hasCallback, 10) + [FetchPage(url)];
    match fetched
    case FetchRejected(reason) => Caught(fetching, FetchFailed(reason))
    case Responded(status, statusText, body) =>
      if !IsOk(status) then Caught(fetching, HttpError(HttpErrorMessage(status, statusText)))
      else
        var reading := fetching + Progress(hasCallback, 50) + [ReadText];
        match body
        case BodyRejected(reason) => Caught(reading, BodyFailed(reason))
        case Body(html) =>
          var filename := DownloadFilename(ExtractDomain(url, parseHost), isoTimestamp);
          (reading + Progress(hasCallback, 80) + SaveSteps(html, filename) + Progress(hasCallback, 100), Downloaded)
  }

  /** Appending an action leaves the reports alone and extends the actions. */
  lemma AppendAction(trace: seq<Effect>, event: Effect)
    requires !event.Report?
    ensures Reports(trace + [event]) == Reports(trace)
    ensures Actions(trace + [event]) == Actions(trace) + [event]
  {
    ReportsAppend(trace, [event]);
    assert [event][1..] == [];
  }

  /** Appending a progress call extends the reports and leaves the actions alone. */
  lemma AppendProgress(trace: seq<Effect>, hasCallback: bool, percent: int)
    ensures Reports(trace + Progress(hasCallback, percent)) == Reports(trace) + (if hasCallback then [percent] else [])
    ensures Actions(trace + Progress(hasCallback, percent)) == Actions(trace)
  {
    ReportsAppend(trace, Progress(hasCallback, percent));
  }

  /** Appending the saving steps leaves the reports alone and extends the actions by them. */
  lemma AppendSaveSteps(trace: seq<Effect>, html: string, filename: string)
    ensures Reports(trace + SaveSteps(html, filename)) == Reports(trace)
    ensures Actions(trace + SaveSteps(html, filename)) == Actions(trace) + SaveSteps(html, filename)
  {
    var t := trace;
    AppendAction(t, CreateObjectUrl(html));
    t := t + [CreateObjectUrl(html)];
    AppendAction(t, SetDownloadName(filename));
    t := t + [SetDownloadName(filename)];
    AppendAction(t, AppendLink);
    t := t + [AppendLink];
    AppendAction(t, ClickLink);
    t := t + [ClickLink];
    AppendAction(t, RemoveLink);
    t := t + [RemoveLink];
    AppendAction(t, RevokeObjectUrl);
    AppendEach(trace, CreateObjectUrl(html), SetDownloadName(filename), AppendLink, ClickLink, RemoveLink, RevokeObjectUrl);
    AppendEach(Actions(trace), CreateObjectUrl(html), SetDownloadName(filename), AppendLink, ClickLink, RemoveLink, RevokeObjectUrl);
  }

  /** The reports and actions of the common prefix: progress 10 and the fetch. */
  lemma FetchingEffects(url: string, hasCallback: bool)
    ensures Reports(Progress(hasCallback, 10) + [FetchPage(url)]) == (if hasCallback then [10] else [])
    ensures Actions(Progress(hasCallback, 10) + [FetchPage(url)]) == [FetchPage(url)]
  {
    AppendAction(Progress(hasCallback, 10), FetchPage(url));
  }

  /** The reports and actions once the body read has started: progress 10 and 50, the fetch and the read. */
  lemma ReadingEffects(url: string, hasCallback: bool)
    ensures var reading := Progress(hasCallback, 10) + [FetchPage(url)] + Progress(hasCallback, 50) + [ReadText];
      Reports(reading) == (if hasCallback then [10, 50] else []) &&
      Actions(reading) == [FetchPage(url), ReadText]
  {
    var fetching := Progress(hasCallback, 10) + [FetchPage(url)];
    FetchingEffects(url, hasCallback);
    AppendProgress(fetching, hasCallback, 50);
    AppendAction(fetching + Progress(hasCallback, 50), ReadText);
    if hasCallback {
      assert [10] + [50] == [10, 50];
    }
    assert [FetchPage(url)] + [ReadText] == [FetchPage(url), ReadText];
  }

  /** A successful download reports 10, 50, 80 and 100 in that order, fetches, reads, then saves under the derived file name. */
  lemma {:induction false} DownloadSuccessEffects(url: string, hasCallback: bool, fetched: FetchOutcome,
                                                  parseHost: string -> Option<string>, isoTimestamp: string)
    requires fetched.Responded? && IsOk(fetched.status) && fetched.body.Body?
    ensures var (trace, _) := DownloadRun(url, hasCallback, fetched, parseHost, isoTimestamp);
      Reports(trace) == (if hasCallback then [10, 50, 80, 100] else []) &&
      Actions(trace) == [FetchPage(url), ReadText] +
        SaveSteps(fetched.body.html, DownloadFilename(ExtractDomain(url, parseHost), isoTimestamp)) &&
      (hasCallback ==> trace[|trace| - 1] == Report(100))
  {
    var save := SaveSteps(fetched.body.html, DownloadFilename(ExtractDomain(url, parseHost), isoTimestamp));
    var reading := Progress(hasCallback, 10) + [FetchPage(url)] + Progress(hasCallback, 50) + [ReadText];
    var saving := reading + Progress(hasCallback, 80);
    var trace := saving + save + Progress(hasCallback, 100);
    assert DownloadRun(url, hasCallback, fetched, parseHost, isoTimestamp).0 == trace;
    ReadingEffects(url, hasCallback);
    AppendProgress(reading, hasCallback, 80);
    AppendSaveSteps(saving, fetched.body.html, DownloadFilename(ExtractDomain(url, parseHost), isoTimestamp));
    AppendProgress(saving + save, hasCallback, 100);
    if hasCallback {
      assert [10, 50] + [80] + [100] == [10, 50, 80, 100];
    }
  }

  /** An error caught right after the fetch leaves progress at 10 and logs it after the fetch. */
  lemma CaughtAfterFetching(url: string, hasCallback: bool, error: DownloadError)
    ensures var trace := Caught(Progress(hasCallback, 10) + [FetchPage(url)], error).0;
      Reports(trace) == (if hasCallback then [10] else []) &&
      Actions(trace) == [FetchPage(url), LogError(error)] &&
      trace[|trace| - 1] == LogError(error)
  {
    var fetching := Progress(hasCallback, 10) + [FetchPage(url)];
    FetchingEffects(url, hasCallback);
    AppendAction(fetching, LogError(error));
    assert [FetchPage(url)] + [LogError(error)] == [FetchPage(url), LogError(error)];
  }

  /** An error caught after the body read started leaves progress at 10 and 50 and logs it after the read. */
  lemma CaughtAfterReading(url: string, hasCallback: bool, error: DownloadError)
    ensures var trace := Caught(Progress(hasCallback, 10) + [FetchPage(url)] + Progress(hasCallback, 50) + [ReadText], error).0;
      Reports(trace) == (if hasCallback then [10, 50] else []) &&
      Actions(trace) == [FetchPage(url), ReadText, LogError(error)] &&
      trace[|trace| - 1] == LogError(error)
  {
    var reading := Progress(hasCallback, 10) + [FetchPage(url)] + Progress(hasCallback, 50) + [ReadText];
    ReadingEffects(url, hasCallback);
    AppendAction(reading, LogError(error));
    assert [FetchPage(url), ReadText] + [LogError(error)] == [FetchPage(url), ReadText, LogError(error)];
  }

  /** A rejected fetch is logged and rethrown as it is, after progress 10 only. */
  lemma {:induction false} FetchRejectedEffects(url: string, hasCallback: bool, fetched: FetchOutcome,
                                                parseHost: string -> Option<string>, isoTimestamp: string)
    requires fetched.FetchRejected?
    ensures var (trace, outcome) := DownloadRun(url, hasCallback, fetched, parseHost, isoTimestamp);
      outcome == Failed(FetchFailed(fetched.reason)) &&
      Reports(trace) == (if hasCallback then [10] else []) &&
      Actions(trace) == [FetchPage(url), LogError(outcome.error)] &&
      trace[|trace| - 1] == LogError(outcome.error)
  {
    CaughtAfterFetching(url, hasCallback, FetchFailed(fetched.reason));
  }

  /** A response outside 200-299 becomes the error "Failed to fetch page: <status> <statusText>", after progress 10 only. */
  lemma {:induction false} HttpErrorEffects(url: string, hasCallback: bool, fetched: FetchOutcome,
                                            parseHost: string -> Option<string>, isoTimestamp: string)
    requires fetched.Responded? && !IsOk(fetched.status)
    ensures var (trace, outcome) := DownloadRun(url, hasCallback, fetched, parseHost, isoTimestamp);
      outcome == Failed(HttpError(HttpErrorMessage(fetched.status, fetched.statusText))) &&
      Reports(trace) == (if hasCallback then [10] else []) &&
      Actions(trace) == [FetchPage(url), LogError(outcome.error)] &&
      trace[|trace| - 1] == LogError(outcome.error)
  {
    CaughtAfterFetching(url, hasCallback, HttpError(HttpErrorMessage(fetched.status, fetched.statusText)));
  }

  /** A body read that rejects is logged and rethrown after progress 10 and 50, before anything is saved. */
  lemma {:induction false} BodyFailedEffects(url: string, hasCallback: bool, fetched: FetchOutcome,
                                             parseHost: string -> Option<string>, isoTimestamp: string)
    requires fetched.Responded? && IsOk(fetched.status) && fetched.body.BodyRejected?
    ensures var (trace, outcome) := DownloadRun(url, hasCallback, fetched, parseHost, isoTimestamp);
      outcome == Failed(BodyFailed(fetched.body.reason)) &&
      Reports(trace) == (if hasCallback then [10, 50] else []) &&
      Actions(trace) == [FetchPage(url), ReadText, LogError(outcome.error)] &&
      trace[|trace| - 1] == LogError(outcome.error)
  {
    CaughtAfterReading(url, hasCallback, BodyFailed(fetched.body.reason));
  }

  /** A failed download never reports 100 and logs its error as its last event. */
  lemma {:induction false} FailureNeverCompletes(url: string, hasCallback: bool, fetched: FetchOutcome,
                                                 parseHost: string -> Option<string>, isoTimestamp: string)
    ensures var (trace, outcome) := DownloadRun(url, hasCallback, fetched, parseHost, isoTimestamp);
      outcome.Failed? ==> 100 !in Reports(trace) && trace[|trace| - 1] == LogError(outcome.error)
  {
    if fetched.FetchRejected? {
      FetchRejectedEffects(url, hasCallback, fetched, parseHost, isoTimestamp);
    } else if !IsOk(fetched.status) {
      HttpErrorEffects(url, hasCallback, fetched, parseHost, isoTimestamp);
    } else if fetched.body.BodyRejected? {
      BodyFailedEffects(url, hasCallback, fetched, parseHost, isoTimestamp);
    }
  }

  /** Without a callback nothing is reported, whatever happens. */
  lemma {:induction false} NoCallbackNoReports(url: string, fetched: FetchOutcome,
                                               parseHost: string -> Option<string>, isoTimestamp: string)
    ensures Reports(DownloadRun(url, false, fetched, parseHost, isoTimestamp).0) == []
  {
    if fetched.Responded? && IsOk(fetched.status) && fetched.body.Body? {
      DownloadSuccessEffects(url, false, fetched, parseHost, isoTimestamp);
    } else if fetched.FetchRejected? {
      FetchRejectedEffects(url, false, fetched, parseHost, isoTimestamp);
    } else if !IsOk(fetched.status) {
      HttpErrorEffects(url, false, fetched, parseHost, isoTimestamp);
    } else {
      BodyFailedEffects(url, false, fetched, parseHost, isoTimestamp);
    }
  }

  /** downloadPage, step by step, with its try/catch; the events it causes are the ones DownloadRun gives. */
  method DownloadPage(url: string, hasCallback: bool, fetched: FetchOutcome,
                      parseHost: string -> Option<string>, isoTimestamp: string)
    returns (trace: seq<Effect>, outcome: DownloadOutcome)
    ensures (trace, outcome) == DownloadRun(url, hasCallback, fetched, parseHost, isoTimestamp)
  {
    var failure: Option<DownloadError> := None;
    trace := Progress(hasCallback, 10);
    trace := trace + [FetchPage(url)];
    if fetched.FetchRejected? {
      failure := Some(FetchFailed(fetched.reason));
    } else if !IsOk(fetched.status) {
      failure := Some(HttpError(HttpErrorMessage(fetched.status, fetched.statusText)));
    } else {
      trace := trace + Progress(hasCallback, 50);
      trace := trace + [ReadText];
      if fetched.body.BodyRejected? {
        failure := Some(BodyFailed(fetched.body.reason));
      } else {
        var html := fetched.body.html;
        trace := trace + Progress(hasCallback, 80);
        ghost var before := trace;
        trace := trace + [CreateObjectUrl(html)];
        var domain := ExtractDomain(url, parseHost);
        var filename := DownloadFilename(domain, isoTimestamp);
        trace := trace + [SetDownloadName(filename)];
        trace := trace + [AppendLink];
        trace := trace + [ClickLink];
        trace := trace + [RemoveLink];
        trace := trace + [RevokeObjectUrl];
        AppendEach(before, CreateObjectUrl(html), SetDownloadName(filename),
          AppendLink, ClickLink, RemoveLink, RevokeObjectUrl);
        trace := trace + Progress(hasCallback, 100);
      }
    }
    match failure {
      case None =>
        outcome := Downloaded;
      case Some(error) =>
        trace := trace + [LogError(error)];
        outcome := Failed(error);
    }
  }

  /** Appending six events one at a time appends the six of them. */
  lemma AppendEach<T>(s: seq<T>, a: T, b: T, c: T, d: T, e: T, f: T)
    ensures s + [a] + [b] + [c] + [d] + [e] + [f] == s + [a, b, c, d, e, f]
  {
  }
}
