/**
 * The plugin's side of the conversation with the gateway: the status codes,
 * the entry points, one send (with the port-4430 abort guard), and the
 * failover schedule shared by every SOAP call. The cURL exchange itself is an
 * oracle: the k-th send to a URL with a given payload yields whatever the
 * network yields.
 */
module Transport {
  import opened PhpStrings
  import opened PhpArrays
  import opened XmlExtract

  // Transaction result codes, compared as strings.
  const StatusSuccess := "0"
  const StatusIncomplete := "3"
  const StatusReferred := "4"
  const StatusDeclined := "5"
  const StatusDuplicate := "20"
  const StatusFailed := "30"

  // The cURL error numbers the plugin names.
  const CurleOk: int := 0
  const CurleFailedInit: int := 2
  const CurleCouldntResolveHost: int := 6
  const CurleCouldntConnect: int := 7
  const CurleOperationTimedout: int := 28
  const CurleAbortedByCallback: int := 42

  /** The gateway entry points, tried in this order. */
  const EntryPoints: seq<string> := [
    "https://gw1.paymentsensegateway.com:4430",
    "https://gw2.paymentsensegateway.com:4430",
    "https://gw3.paymentsensegateway.com:4430"
  ]

  const PaymentFormUrl := "https://mms.paymentsensegateway.com/Pages/PublicPages/PaymentForm.aspx"

  const AbortMessage := "Communication Aborted. The communication on port 4430 is disabled at the plugin configuration settings."
  const CurlMissingMessage := "cURL is not enabled"

  /**
   * What one cURL exchange produced: error number and text, the body after
   * the header, the transfer information, the local clock at the time and the
   * Date header of the reply (None when it is missing or does not parse).
   */
  datatype Exchange = Exchange(errno: int, errmsg: string, body: string, info: PhpValue,
                               localTime: int, remoteTime: Option<int>)

  /**
   * The environment of every send: whether the cURL extension is loaded, and
   * the exchange the k-th send to a URL with a payload results in. The payload
   * is the list of variables the SOAP body or the form post is rendered from.
   */
  datatype Network = Network(curlEnabled: bool, reply: (nat, string, Assoc<string, string>) -> Exchange)

  /**
   * One send as its caller sees it. `stamp` is the (local, remote) time pair
   * recorded for the host, absent when no exchange took place.
   */
  datatype Attempt = Attempt(url: string, errno: int, errmsg: string, response: string, info: PhpValue,
                             stamp: Option<(int, Option<int>)>)

  /** The abort guard: a send that is not forced is refused when the port-4430 setting is exactly 'true'. */
  predicate Aborting(port4430Setting: Option<string>, force: bool)
  {
    !force && port4430Setting == Some("true")
  }

  /** Refunds are offered unless the port-4430 setting is exactly 'true'. */
  predicate SupportsRefunds(port4430Setting: Option<string>)
  {
    port4430Setting != Some("true")
  }

  /** `send_transaction`: the k-th send of the payload to url. */
  function Send(net: Network, k: nat, url: string, payload: Assoc<string, string>,
                port4430Setting: Option<string>, force: bool): (a: Attempt)
    ensures a.url == url
    ensures Aborting(port4430Setting, force) ==>
      a.errno == CurleAbortedByCallback && a.errmsg == AbortMessage && a.stamp.None?
    ensures !Aborting(port4430Setting, force) && !net.curlEnabled ==>
      a.errno == CurleFailedInit && a.errmsg == CurlMissingMessage && a.response == "" && a.info == Arr([]) && a.stamp.None?
    ensures !Aborting(port4430Setting, force) && net.curlEnabled ==>
      var e := net.reply(k, url, payload);
      a.errno == e.errno && a.errmsg == e.errmsg && a.response == e.body && a.info == e.info &&
      a.stamp == Some((e.localTime, e.remoteTime))
  {
    if Aborting(port4430Setting, force) then
      Attempt(url, CurleAbortedByCallback, AbortMessage, "", Arr([]), None)
    else if !net.curlEnabled then
      Attempt(url, CurleFailedInit, CurlMissingMessage, "", Arr([]), None)
    else
      var e := net.reply(k, url, payload);
      Attempt(url, e.errno, e.errmsg, e.body, e.info, Some((e.localTime, e.remoteTime)))
  }

  /** Refunds are offered exactly when an unforced send is not refused by the abort guard. */
  lemma RefundsIffNotAborting(port4430Setting: Option<string>)
    ensures SupportsRefunds(port4430Setting) <==> !Aborting(port4430Setting, false)
    ensures !Aborting(port4430Setting, true)
  {
  }

  // ---------------------------------------------------------------------------
  // Host names
  // ---------------------------------------------------------------------------

  predicate HostDelimiter(c: char)
  {
    c == ':' || c == '/' || c == '?' || c == '#'
  }

  /** The authority part of a URL after its scheme: up to the first ':', '/', '?' or '#'. */
  function TakeHost(s: string): (r: string)
    ensures r <= s
    ensures forall i :: 0 <= i < |r| ==> !HostDelimiter(r[i])
    ensures |r| < |s| ==> HostDelimiter(s[|r|])
  {
    if s == [] || HostDelimiter(s[0]) then [] else [s[0]] + TakeHost(s[1..])
  }

  /** `get_hostname`: the lower-cased host of an http(s) URL, '' when there is none. */
  function Hostname(url: string): string
  {
    if |url| >= 8 && url[..8] == "https://" then ToLower(TakeHost(url[8..]))
    else if |url| >= 7 && url[..7] == "http://" then ToLower(TakeHost(url[7..]))
    else ""
  }

  lemma {:induction false} TakeHostPrefix(h: string, rest: string)
    requires forall i :: 0 <= i < |h| ==> !HostDelimiter(h[i])
    requires rest == [] || HostDelimiter(rest[0])
    ensures TakeHost(h + rest) == h
    decreases |h|
  {
    if h == [] {
      assert h + rest == rest;
    } else {
      assert (h + rest)[0] == h[0];
      assert (h + rest)[1..] == h[1..] + rest;
      TakeHostPrefix(h[1..], rest);
      assert [h[0]] + h[1..] == h;
    }
  }

  lemma HostnameHttps(tail: string)
    ensures Hostname("https://" + tail) == ToLower(TakeHost(tail))
  {
    var url := "https://" + tail;
    assert url[..8] == "https://";
    assert url[8..] == tail;
  }

  /** The host of "https://" + h + rest is h in lower case, whenever h stops at a delimiter. */
  lemma HostnameOf(h: string, rest: string)
    requires forall i :: 0 <= i < |h| ==> !HostDelimiter(h[i])
    requires rest == [] || HostDelimiter(rest[0])
    ensures Hostname("https://" + (h + rest)) == ToLower(h)
  {
    HostnameHttps(h + rest);
    TakeHostPrefix(h, rest);
  }

  // ---------------------------------------------------------------------------
  // Reading a reply
  // ---------------------------------------------------------------------------

  function StatusOf(response: string): string
  {
    GetXmlValue("StatusCode", response, Digits)
  }

  function MessageOf(response: string): string
  {
    GetXmlValue("Message", response, AnyLine)
  }

  function DetailOf(response: string): string
  {
    GetXmlValue("Detail", response, AnyLine)
  }

  /** `should_retry_txn`: only a '30' reply with exactly this message asks for a retry. */
  predicate ShouldRetryTxn(statusCode: string, message: string)
  {
    statusCode == StatusFailed && message == "Couldn't find previous transaction"
  }

  /** The four loops that walk the entry points. */
  datatype Family = Probe | Refund | Sale | ThreeDSecure

  /**
   * The test that ends a failover loop: a send without transport error whose
   * status is numeric and not exactly '30'. The refund loop also asks
   * `should_retry_txn`, but only after the status was found to differ from '30'.
   */
  predicate Stops(family: Family, a: Attempt)
  {
    a.errno == CurleOk && IsNumeric(StatusOf(a.response)) && StatusOf(a.response) != StatusFailed &&
    (family == Refund ==> !ShouldRetryTxn(StatusOf(a.response), MessageOf(a.response)))
  }

  /**
   * The refund's retry test can never fire where it is asked: its stop rule is
   * the plain one, so a '30' reply continues the loop whatever its message.
   */
  lemma RefundRetryDead(a: Attempt)
    ensures Stops(Refund, a) <==> Stops(Probe, a)
    ensures Stops(Refund, a) <==> Stops(Sale, a) && Stops(Sale, a) == Stops(ThreeDSecure, a)
    ensures StatusOf(a.response) == StatusFailed ==> !Stops(Refund, a)
  {
  }

  /** A transport error never ends a loop; in particular an aborted send never does. */
  lemma ErrorNeverStops(family: Family, a: Attempt)
    requires a.errno != CurleOk
    ensures !Stops(family, a)
  {
  }

  // ---------------------------------------------------------------------------
  // The failover schedule
  // ---------------------------------------------------------------------------

  /**
   * The URLs the loop would visit from entry point g, attempt t on, if no
   * reply ended it: the remaining attempts at g, then maxAttempts at each later
   * entry point.
   */
  function ScheduleFrom(maxAttempts: nat, g: nat, t: nat): seq<string>
    decreases |EntryPoints| - g, maxAttempts + 1 - t
  {
    if g >= |EntryPoints| || t > maxAttempts || t == 0 then []
    else [EntryPoints[g]] + (if t < maxAttempts then ScheduleFrom(maxAttempts, g, t + 1) else ScheduleFrom(maxAttempts, g + 1, 1))
  }

  /** The full schedule of a loop with maxAttempts sends per entry point. */
  function Schedule(maxAttempts: nat): seq<string>
  {
    ScheduleFrom(maxAttempts, 0, 1)
  }

  function Repeat(s: string, n: nat): (r: seq<string>)
    ensures |r| == n && forall i :: 0 <= i < n ==> r[i] == s
  {
    if n == 0 then [] else [s] + Repeat(s, n - 1)
  }

  lemma {:induction false} ScheduleFromRun(maxAttempts: nat, g: nat, t: nat)
    requires g < |EntryPoints| && 1 <= t <= maxAttempts
    ensures ScheduleFrom(maxAttempts, g, t) ==
      Repeat(EntryPoints[g], maxAttempts + 1 - t) + ScheduleFrom(maxAttempts, g + 1, 1)
    decreases maxAttempts - t
  {
    if t < maxAttempts {
      ScheduleFromRun(maxAttempts, g, t + 1);
    }
  }

  /**
   * Endpoints in list order, maxAttempts sends each: the schedule is the
   * first entry point repeated, then the second, then the third.
   */
  lemma ScheduleShape(maxAttempts: nat)
    ensures Schedule(maxAttempts) ==
      Repeat(EntryPoints[0], maxAttempts) + Repeat(EntryPoints[1], maxAttempts) + Repeat(EntryPoints[2], maxAttempts)
    ensures |Schedule(maxAttempts)| == |EntryPoints| * maxAttempts
  {
    if maxAttempts > 0 {
      ScheduleFromRun(maxAttempts, 0, 1);
      ScheduleFromRun(maxAttempts, 1, 1);
      ScheduleFromRun(maxAttempts, 2, 1);
      assert ScheduleFrom(maxAttempts, 3, 1) == [];
    } else {
      assert Schedule(0) == [];
    }
  }

  /** The probe makes one send per entry point: its schedule is the entry-point list itself. */
  lemma ProbeScheduleIsEntryPoints()
    ensures Schedule(1) == EntryPoints
  {
    ScheduleShape(1);
  }

  /** The stop test of a family, as a value the loop specification is parameterised by. */
  function StopRule(family: Family): Attempt -> bool
  {
    a => Stops(family, a)
  }

  /**
   * The sends a failover loop makes to urls in turn, the next send being the
   * network's k-th: the loop ends after the first send that stops it or when
   * the URLs are used up.
   */
  function TrailOver(net: Network, k: nat, urls: seq<string>, payload: Assoc<string, string>,
                     port4430Setting: Option<string>, force: bool, stops: Attempt -> bool): (r: seq<Attempt>)
    ensures |r| <= |urls|
    ensures forall i :: 0 <= i < |r| - 1 ==> !stops(r[i])
    ensures |r| == |urls| || (|r| > 0 && stops(r[|r| - 1]))
    decreases |urls|
  {
    if urls == [] then []
    else
      var a := Send(net, k, urls[0], payload, port4430Setting, force);
      if stops(a) then [a]
      else
        var rest := TrailOver(net, k + 1, urls[1..], payload, port4430Setting, force, stops);
        assert forall i :: 0 < i < |rest| + 1 ==> ([a] + rest)[i] == rest[i - 1];
        [a] + rest
  }

  /** The sends of a failover loop from entry point g, attempt t on: the rest of the schedule from there. */
  function TrailFrom(net: Network, k: nat, payload: Assoc<string, string>, port4430Setting: Option<string>,
                     force: bool, stops: Attempt -> bool, maxAttempts: nat, g: nat, t: nat): seq<Attempt>
  {
    TrailOver(net, k, ScheduleFrom(maxAttempts, g, t), payload, port4430Setting, force, stops)
  }

  /** Outside the schedule the loop makes no send; inside it the next URL is the current entry point. */
  lemma ScheduleFromStep(maxAttempts: nat, g: nat, t: nat)
    requires g < |EntryPoints| && 1 <= t <= maxAttempts
    ensures t < maxAttempts ==> ScheduleFrom(maxAttempts, g, t) == [EntryPoints[g]] + ScheduleFrom(maxAttempts, g, t + 1)
    ensures t == maxAttempts ==> ScheduleFrom(maxAttempts, g, t) == [EntryPoints[g]] + ScheduleFrom(maxAttempts, g + 1, 1)
  {
  }

  /** The sends that would go to each URL in turn, numbered on from k. */
  function Sends(net: Network, k: nat, urls: seq<string>, payload: Assoc<string, string>,
                 port4430Setting: Option<string>, force: bool): (r: seq<Attempt>)
    ensures |r| == |urls|
    ensures forall i :: 0 <= i < |urls| ==> r[i] == Send(net, k + i, urls[i], payload, port4430Setting, force)
    decreases |urls|
  {
    if urls == [] then []
    else [Send(net, k, urls[0], payload, port4430Setting, force)] + Sends(net, k + 1, urls[1..], payload, port4430Setting, force)
  }

  /** Each send of the loop is the next send to the next URL, numbered on from k. */
  lemma {:induction false} TrailFollowsUrls(net: Network, k: nat, urls: seq<string>, payload: Assoc<string, string>,
                                            port4430Setting: Option<string>, force: bool, stops: Attempt -> bool)
    ensures TrailOver(net, k, urls, payload, port4430Setting, force, stops) <=
      Sends(net, k, urls, payload, port4430Setting, force)
    decreases |urls|
  {
    if urls != [] {
      var a := Send(net, k, urls[0], payload, port4430Setting, force);
      if !stops(a) {
        TrailFollowsUrls(net, k + 1, urls[1..], payload, port4430Setting, force, stops);
      }
    }
  }

  /** The sends of a whole failover loop whose first send is the network's k-th. */
  function Trail(net: Network, k: nat, payload: Assoc<string, string>, port4430Setting: Option<string>,
                 force: bool, stops: Attempt -> bool, maxAttempts: nat): seq<Attempt>
  {
    TrailFrom(net, k, payload, port4430Setting, force, stops, maxAttempts, 0, 1)
  }

  /**
   * What a failover loop does, stated without its counters: it makes at most
   * count x maxAttempts sends, the i-th being the network's (k+i)-th send, to
   * the i-th URL of the schedule; only
   * its last send may stop it, and it stops early only on such a send. With
   * at least one attempt per entry point it always sends at least once.
   */
  lemma TrailMeaning(net: Network, k: nat, payload: Assoc<string, string>, port4430Setting: Option<string>,
                     force: bool, stops: Attempt -> bool, maxAttempts: nat)
    ensures var r := Trail(net, k, payload, port4430Setting, force, stops, maxAttempts);
      |r| <= |EntryPoints| * maxAttempts &&
      (maxAttempts >= 1 ==> |r| >= 1) &&
      (forall i :: 0 <= i < |r| ==> r[i] == Send(net, k + i, Schedule(maxAttempts)[i], payload, port4430Setting, force)) &&
      (forall i :: 0 <= i < |r| - 1 ==> !stops(r[i])) &&
      (|r| < |EntryPoints| * maxAttempts ==> |r| >= 1 && stops(r[|r| - 1]))
  {
    ScheduleShape(maxAttempts);
    TrailFollowsUrls(net, k, Schedule(maxAttempts), payload, port4430Setting, force, stops);
    var r := Trail(net, k, payload, port4430Setting, force, stops, maxAttempts);
    var all := Sends(net, k, Schedule(maxAttempts), payload, port4430Setting, force);
    forall i | 0 <= i < |r|
      ensures r[i] == Send(net, k + i, Schedule(maxAttempts)[i], payload, port4430Setting, force)
    {
      assert r[i] == all[i];
    }
  }

  /**
   * With the port-4430 setting 'true', an unforced loop is refused at every
   * send: it uses up its whole schedule and every send carries the abort code.
   */
  lemma AbortedTrailExhausts(net: Network, k: nat, payload: Assoc<string, string>, port4430Setting: Option<string>,
                             family: Family, maxAttempts: nat)
    requires Aborting(port4430Setting, false)
    ensures var r := Trail(net, k, payload, port4430Setting, false, StopRule(family), maxAttempts);
      |r| == |EntryPoints| * maxAttempts &&
      forall i :: 0 <= i < |r| ==> r[i].errno == CurleAbortedByCallback && r[i].stamp.None?
  {
    ScheduleShape(maxAttempts);
    TrailFollowsUrls(net, k, Schedule(maxAttempts), payload, port4430Setting, false, StopRule(family));
    var r := Trail(net, k, payload, port4430Setting, false, StopRule(family), maxAttempts);
    var all := Sends(net, k, Schedule(maxAttempts), payload, port4430Setting, false);
    forall i | 0 <= i < |r| ensures r[i].errno == CurleAbortedByCallback && r[i].stamp.None? {
      assert r[i] == all[i];
    }
    if |r| > 0 {
      assert r[|r| - 1].errno == CurleAbortedByCallback;
      assert !StopRule(family)(r[|r| - 1]);
    }
  }

  // ---------------------------------------------------------------------------
  // Time pairs
  // ---------------------------------------------------------------------------

  /** `add_datetime_pair` after one send: an exchange that took place records its pair under its host. */
  function Recorded(pairs: Assoc<string, (int, Option<int>)>, a: Attempt): Assoc<string, (int, Option<int>)>
  {
    if a.stamp.Some? then Put(pairs, Hostname(a.url), a.stamp.value) else pairs
  }

  /** The time pairs after the sends of a loop, recorded send by send. */
  function PairsAfter(pairs: Assoc<string, (int, Option<int>)>, trail: seq<Attempt>): Assoc<string, (int, Option<int>)>
    decreases |trail|
  {
    if trail == [] then pairs else PairsAfter(Recorded(pairs, trail[0]), trail[1..])
  }

  /**
   * Recording keeps the insertion order: once a host has a pair, the first
   * recorded host stays first, and no host ever disappears.
   */
  lemma {:induction false} PairsAfterKeepsOrder(pairs: Assoc<string, (int, Option<int>)>, trail: seq<Attempt>)
    ensures |PairsAfter(pairs, trail)| >= |pairs|
    ensures forall i :: 0 <= i < |pairs| ==> PairsAfter(pairs, trail)[i].0 == pairs[i].0
    decreases |trail|
  {
    if trail != [] {
      PairsAfterKeepsOrder(Recorded(pairs, trail[0]), trail[1..]);
    }
  }
}
