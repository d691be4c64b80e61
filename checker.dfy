/**
 * The probe classifier and the two batch runners of internal/checker.
 * The HTTP request itself and the clock are not modelled: each probe's
 * outcome (a transport error or a status code) and its elapsed time are
 * inputs, one per URL.
 */
module Checker {
  import opened Wrappers
  import opened Decimal
  import opened Strings
  import opened Time

  /** What the HTTP client returned for one request. */
  datatype Outcome = TransportError(message: string) | Response(statusCode: int)

  /** One request as the network answered it: its outcome and how long it took. */
  datatype Probe = Probe(outcome: Outcome, elapsed: Duration)

  /** The result of checking one URL; `error` is None where Go's error is nil. */
  datatype CheckResult = CheckResult(
    url: string,
    statusCode: int,
    responseTime: Duration,
    isUp: bool,
    error: Option<string>)

  /** The zero value of CheckResult, which a freshly made results slice holds. */
  const ZeroResult := CheckResult("", 0, 0, false, None)

  /** A status the monitor counts as healthy: 200 up to and excluding 400. */
  predicate IsHealthyStatus(code: int)
  {
    200 <= code < 400
  }

  /**
   * Checks a single URL: on a transport error the result is down, carries
   * the error and keeps status 0; otherwise it carries the status and is up
   * exactly for a healthy status. The URL and elapsed time are recorded on
   * both paths.
   */
  function CheckSingle(url: string, probe: Probe): (r: CheckResult)
    ensures r.url == url && r.responseTime == probe.elapsed
    ensures r.isUp <==> probe.outcome.Response? && IsHealthyStatus(probe.outcome.statusCode)
    ensures probe.outcome.TransportError? ==>
              r.error == Some(probe.outcome.message) && r.statusCode == 0 && !r.isUp
    ensures probe.outcome.Response? ==>
              r.error == None && r.statusCode == probe.outcome.statusCode
  {
    var result := CheckResult(url, 0, probe.elapsed, false, None);
    match probe.outcome
    case TransportError(message) => result.(error := Some(message), isUp := false)
    case Response(code) => result.(statusCode := code, isUp := 200 <= code && code < 400)
  }

  /** A result is up exactly when no error was seen and its status is healthy. */
  lemma UpMeansNoErrorAndHealthy(url: string, probe: Probe)
    ensures var r := CheckSingle(url, probe);
            r.isUp <==> r.error == None && IsHealthyStatus(r.statusCode)
  {
  }

  /** The boundaries of the healthy range: 199 and 400 are down, 200 and 399 are up. */
  lemma StatusBoundaries(url: string, elapsed: Duration)
    ensures !CheckSingle(url, Probe(Response(199), elapsed)).isUp
    ensures CheckSingle(url, Probe(Response(200), elapsed)).isUp
    ensures CheckSingle(url, Probe(Response(399), elapsed)).isUp
    ensures !CheckSingle(url, Probe(Response(400), elapsed)).isUp
  {
  }

  /** Checks each URL in turn; results[i] is the check of urls[i]. */
  method CheckMultipleSerial(urls: seq<string>, probes: seq<Probe>) returns (results: seq<CheckResult>)
    requires |probes| == |urls|
    ensures |results| == |urls|
    ensures forall i :: 0 <= i < |urls| ==> results[i] == CheckSingle(urls[i], probes[i])
  {
    var slots := new CheckResult[|urls|](_ => ZeroResult);
    for i := 0 to |urls|
      invariant forall k :: 0 <= k < i ==> slots[k] == CheckSingle(urls[k], probes[k])
    {
      slots[i] := CheckSingle(urls[i], probes[i]);
    }
    results := slots[..];
  }

  /**
   * The order in which the goroutines of a concurrent batch of `n` URLs
   * finish: every entry is an index below `n`, and no index comes twice.
   */
  predicate IsCompletionOrder(order: seq<nat>, n: nat)
  {
    && |order| == n
    && (forall j :: 0 <= j < n ==> order[j] < n)
    && (forall j, j' :: 0 <= j < j' < n ==> order[j] != order[j'])
  }

  /** The entries of a sequence, as a set. */
  function Elements(s: seq<nat>): set<nat>
  {
    set x | x in s
  }

  /** A sequence without repeated entries has as many distinct entries as it is long. */
  lemma {:induction false} DistinctElementsCount(s: seq<nat>)
    requires forall j, j' :: 0 <= j < j' < |s| ==> s[j] != s[j']
    ensures |Elements(s)| == |s|
  {
    if s != [] {
      var init, last := s[..|s| - 1], s[|s| - 1];
      DistinctElementsCount(init);
      assert s == init + [last];
      assert Elements(s) == Elements(init) + {last};
      assert last !in Elements(init);
    } else {
      assert Elements(s) == {};
    }
  }

  /** The indices below `n`, in increasing order. */
  function Indices(n: nat): (s: seq<nat>)
    ensures |s| == n && forall k :: 0 <= k < n ==> s[k] == k
  {
    seq(n, k requires 0 <= k < n => k)
  }

  /** Pigeonhole: a completion order of `n` goroutines names every index below `n`. */
  lemma {:induction false} CompletionOrderCovers(order: seq<nat>, n: nat)
    requires IsCompletionOrder(order, n)
    ensures forall k :: 0 <= k < n ==> k in order
  {
    var seen := Elements(order);
    var all := Elements(Indices(n));
    DistinctElementsCount(order);
    DistinctElementsCount(Indices(n));
    forall x | x in seen ensures x in all {
      assert Indices(n)[x] == x;
    }
    assert all * seen == seen;
    assert |all - seen| == 0;
    forall k | 0 <= k < n ensures k in order {
      assert Indices(n)[k] == k;
      assert k in all;
    }
  }

  /**
   * Checks all URLs at once: goroutine `index` writes only slot `index` of a
   * preallocated slice. The goroutines may finish in any order, given as
   * `order`; each slot is written exactly once, and the batch comes out the
   * same as the serial one.
   */
  method CheckMultipleConcurrent(urls: seq<string>, probes: seq<Probe>, order: seq<nat>)
    returns (results: seq<CheckResult>)
    requires |probes| == |urls|
    requires IsCompletionOrder(order, |urls|)
    ensures |results| == |urls|
    ensures forall i :: 0 <= i < |urls| ==> results[i] == CheckSingle(urls[i], probes[i])
  {
    var slots := new CheckResult[|urls|](_ => ZeroResult);
    for j := 0 to |order|
      invariant forall k :: 0 <= k < |urls| ==>
                  slots[k] == if k in order[..j] then CheckSingle(urls[k], probes[k]) else ZeroResult
    {
      var index := order[j];
      // No earlier goroutine owned this slot, so it is written here for the first time.
      assert index !in order[..j];
      slots[index] := CheckSingle(urls[index], probes[index]);
      assert order[..j + 1] == order[..j] + [index];
    }
    CompletionOrderCovers(order, |urls|);
    assert order[..|order|] == order;
    results := slots[..];
  }

  /** Batches over the same URL list agree position by position on the URL, whatever the probes answered. */
  lemma BatchesAgreeOnUrls(urls: seq<string>, a: seq<CheckResult>, b: seq<CheckResult>, pa: seq<Probe>, pb: seq<Probe>)
    requires |pa| == |urls| && |pb| == |urls| && |a| == |urls| && |b| == |urls|
    requires forall i :: 0 <= i < |urls| ==> a[i] == CheckSingle(urls[i], pa[i])
    requires forall i :: 0 <= i < |urls| ==> b[i] == CheckSingle(urls[i], pb[i])
    ensures forall i :: 0 <= i < |urls| ==> a[i].url == b[i].url == urls[i]
    ensures pa == pb ==> a == b
  {
  }

  /** Go's Duration.Milliseconds: whole milliseconds, truncated toward zero. */
  function Milliseconds(d: Duration): (ms: int)
    ensures 0 <= d ==> 0 <= ms && ms * 1000000 <= d < (ms + 1) * 1000000
    ensures d < 0 ==> ms <= 0 && (ms - 1) * 1000000 < d <= ms * 1000000
  {
    if d >= 0 then d / 1000000 else -((-d) / 1000000)
  }

  const UpIcon := "\U{2705}"
  const DownIcon := "\U{274C}"
  const TimeLabel := " - Response time: "

  function StatusIcon(isUp: bool): string
  {
    if isUp then UpIcon else DownIcon
  }

  function StatusWord(isUp: bool): string
  {
    if isUp then "UP" else "DOWN"
  }

  /** The middle field of a line: the error text if there is one, the HTTP status otherwise. */
  function DetailText(r: CheckResult): string
  {
    match r.error
    case Some(message) => "ERROR: " + message
    case None => "HTTP " + IntToString(r.statusCode)
  }

  /** The part of a line before the detail field: icon, URL and status word. */
  function LineHead(r: CheckResult): string
  {
    StatusIcon(r.isUp) + " " + r.url + " - " + StatusWord(r.isUp) + " - "
  }

  /** The part of a line after the detail field: the response time in milliseconds. */
  function LineTail(r: CheckResult): string
  {
    TimeLabel + IntToString(Milliseconds(r.responseTime)) + " ms\n"
  }

  /** The line PrintResult writes for a result. */
  function ResultLine(r: CheckResult): string
  {
    LineHead(r) + DetailText(r) + LineTail(r)
  }

  /** A result line opens with the status icon, the URL and " - ", and closes with " ms" and the newline. */
  lemma ResultLineFrame(r: CheckResult)
    ensures HasPrefix(ResultLine(r), StatusIcon(r.isUp) + " " + r.url + " - ")
    ensures HasSuffix(ResultLine(r), " ms\n")
  {
    var line := ResultLine(r);
    assert line[..|LineHead(r)|] == LineHead(r);
    assert line[|line| - |LineTail(r)|..] == LineTail(r);
  }

  /**
   * The line's head tells whether the result is up: it starts with the tick
   * exactly when the result is up, and the status word after the URL is "UP"
   * exactly when it is up.
   */
  lemma ResultLineStatus(r: CheckResult)
    ensures var line := ResultLine(r);
            && (line[0] == UpIcon[0] <==> r.isUp)
            && (HasPrefix(line[|StatusIcon(r.isUp)| + 1 + |r.url| + 3..], "UP") <==> r.isUp)
  {
    var line := ResultLine(r);
    var k := |StatusIcon(r.isUp)| + 1 + |r.url| + 3;
    assert line[0] == LineHead(r)[0] == StatusIcon(r.isUp)[0];
    assert line[k..][..|StatusWord(r.isUp)|] == StatusWord(r.isUp);
    assert line[k..][..2] == StatusWord(r.isUp)[..2];
    if !r.isUp {
      assert line[k..][0] == 'D';
    }
  }

  /**
   * The detail field, just after the head, starts with "ERROR: " exactly when
   * the result carries an error, and with "HTTP " exactly when it does not.
   * The error text follows "ERROR: " as it is; the status code follows
   * "HTTP " and reads back exactly.
   */
  lemma ResultLineDetail(r: CheckResult)
    ensures var detail := ResultLine(r)[|LineHead(r)|..];
            && (HasPrefix(detail, "ERROR: ") <==> r.error.Some?)
            && (HasPrefix(detail, "HTTP ") <==> r.error.None?)
    ensures var detail := ResultLine(r)[|LineHead(r)|..];
            r.error.Some? ==> HasPrefix(detail, "ERROR: " + r.error.value)
    ensures var detail := ResultLine(r)[|LineHead(r)|..];
            var code := IntToString(r.statusCode);
            r.error.None? ==> 5 + |code| <= |detail| && ParseInt(detail[5..5 + |code|]) == Some(r.statusCode)
  {
    assert ResultLine(r) == LineHead(r) + (DetailText(r) + LineTail(r));
    ConcatPieces(LineHead(r), DetailText(r) + LineTail(r));
    match r.error
    case Some(m) => ErrorDetailFields(m, LineTail(r));
    case None => StatusDetailFields(r.statusCode, LineTail(r));
  }

  /** An error detail followed by anything starts with "ERROR: " and the message, not with "HTTP ". */
  lemma ErrorDetailFields(m: string, t: string)
    ensures var detail := "ERROR: " + m + t;
            && HasPrefix(detail, "ERROR: " + m) && HasPrefix(detail, "ERROR: ") && !HasPrefix(detail, "HTTP ")
  {
    var detail := "ERROR: " + m + t;
    ConcatPieces("ERROR: " + m, t);
    ConcatPieces("ERROR: ", m);
    assert detail[..7] == "ERROR: ";
    assert detail[0] == 'E';
  }

  /** A status detail followed by anything starts with "HTTP " and digits that read back as the code. */
  lemma StatusDetailFields(code: int, t: string)
    ensures var digits := IntToString(code);
            var detail := "HTTP " + digits + t;
            && HasPrefix(detail, "HTTP ") && !HasPrefix(detail, "ERROR: ")
            && 5 + |digits| <= |detail| && ParseInt(detail[5..5 + |digits|]) == Some(code)
  {
    var digits := IntToString(code);
    var detail := "HTTP " + digits + t;
    ConcatPieces("HTTP " + digits, t);
    ConcatPieces("HTTP ", digits);
    assert detail[..5] == "HTTP ";
    assert detail[0] == 'H';
    assert detail[5..5 + |digits|] == detail[..5 + |digits|][5..];
    IntToStringRoundTrip(code);
  }

  /**
   * Whatever the detail, the line ends with the response time in whole
   * milliseconds followed by " ms", and that number reads back exactly.
   */
  lemma ResultLineTime(r: CheckResult)
    ensures var line := ResultLine(r);
            var ms := IntToString(Milliseconds(r.responseTime));
            && HasSuffix(line, TimeLabel + ms + " ms\n")
            && ParseInt(line[|line| - 4 - |ms|..|line| - 4]) == Some(Milliseconds(r.responseTime))
  {
    var ms := IntToString(Milliseconds(r.responseTime));
    var front := LineHead(r) + DetailText(r);
    var labelled := TimeLabel + ms;
    ConcatPieces(front, LineTail(r));
    ConcatPieces(labelled, " ms\n");
    ConcatPieces(TimeLabel, ms);
    var line := ResultLine(r);
    assert line == front + LineTail(r);
    assert |line| - 4 - |ms| == |front| + |TimeLabel|;
    assert line[|line| - 4 - |ms|..|line| - 4] == line[|front|..][..|labelled|][|TimeLabel|..];
    IntToStringRoundTrip(Milliseconds(r.responseTime));
  }

  /** A result from CheckSingle never pairs the ERROR line with "UP". */
  lemma ErrorLineIsDown(url: string, probe: Probe)
    ensures CheckSingle(url, probe).error.Some? ==> !CheckSingle(url, probe).isUp
  {
  }
}
