/**
 * The gateway client both payment methods share (`Paymentsense_Base`): its
 * settings, the sends it makes, the failover loop over the entry points, the
 * diagnostic probe, refunds, the hosted payment form's fields and the
 * settings check against the hosted payment form.
 *
 * The per-attempt bookkeeping of a failover loop (the probe's log, its flags,
 * the refund's message) is stated as a fold over the sends the loop made. The
 * sends never read that bookkeeping, so the state after the loop is the same
 * as when it is updated inside the loop, attempt by attempt.
 */
module Gateway {
  import opened PhpStrings
  import opened PhpArrays
  import opened HashDigest
  import opened XmlExtract
  import opened FieldFilter
  import opened Transport
  import opened Diagnostics
  import opened Shop

  /** The concrete payment method a gateway object is. */
  datatype Kind = HostedMethod | DirectMethod

  /** connection_info['HostedPaymentForm']: the exchange and the error span it carried (None: PHP's null). */
  datatype HpfEntry = HpfEntry(curlErrno: int, curlErrmsg: string, response: string, info: PhpValue,
                               message: Option<string>)

  /** What `check_gateway_settings` stores about its post: the cURL result and, when it got a page, the page's error label. */
  function HpfLogEntry(a: Attempt, errorSpan: string -> Option<string>): HpfEntry
  {
    HpfEntry(a.errno, a.errmsg, a.response, a.info, if a.errno == CurleOk then errorSpan(a.response) else Some(""))
  }

  /** The loop ended on a send that stops it. */
  predicate Stopped(family: Family, trail: seq<Attempt>)
  {
    |trail| > 0 && Stops(family, trail[|trail| - 1])
  }

  // ---------------------------------------------------------------------------
  // The probe's bookkeeping
  // ---------------------------------------------------------------------------

  function AttemptKey(n: nat): string
  {
    "Connection attempt " + NatToString(n)
  }

  function AttemptEntry(a: Attempt): LogEntry
  {
    LogEntry(a.errno, a.errmsg, a.response, a.info)
  }

  /** The GetGatewayEntryPoints log after the probe's sends, the first numbered n. */
  function ProbeLog(log: Assoc<string, LogEntry>, trail: seq<Attempt>, n: nat): Assoc<string, LogEntry>
    decreases |trail|
  {
    if trail == [] then log
    else ProbeLog(Put(log, AttemptKey(n), AttemptEntry(trail[0])), trail[1..], n + 1)
  }

  /** The status code the probe read last: that of the last delivered reply (None: still PHP's null). */
  function LatestStatus(trail: seq<Attempt>): Option<string>
    decreases |trail|
  {
    if trail == [] then None
    else
      var a := trail[|trail| - 1];
      if a.errno == CurleOk then Some(StatusOf(a.response)) else LatestStatus(trail[..|trail| - 1])
  }

  /** `connectivity_status` after the probe: the last status code read is numeric. */
  predicate Connected(trail: seq<Attempt>)
  {
    LatestStatus(trail).Some? && IsNumeric(LatestStatus(trail).value)
  }

  /** What one probe send does to `merchant_credentials_valid`. */
  function ProbeCredentialsStep(prev: Option<bool>, a: Attempt): Option<bool>
  {
    if a.errno != CurleOk then prev
    else
      var code := StatusOf(a.response);
      if !IsNumeric(code) then prev
      else if code != StatusFailed then (if code == StatusSuccess then Some(true) else prev)
      else if MerchantCredentialsInvalid(MessageOf(a.response)) then Some(false)
      else prev
  }

  function CredentialsAfter(prev: Option<bool>, trail: seq<Attempt>): Option<bool>
    decreases |trail|
  {
    if trail == [] then prev else CredentialsAfter(ProbeCredentialsStep(prev, trail[0]), trail[1..])
  }

  // ---------------------------------------------------------------------------
  // Refunds
  // ---------------------------------------------------------------------------

  datatype RefundResult = Refunded | RefundError(code: string, message: string)

  /** What one refund send does to (transaction succeeded, trx_message). */
  function RefundStep(st: (bool, string), a: Attempt): (bool, string)
  {
    if a.errno != CurleOk then st
    else
      var code := StatusOf(a.response);
      var message := MessageOf(a.response);
      if !IsNumeric(code) then (st.0, message)
      else
        var ok := if code != StatusFailed && !ShouldRetryTxn(code, message) then code == StatusSuccess else st.0;
        (ok, if ok then message else message + "<br />" + DetailOf(a.response))
  }

  function RefundFold(st: (bool, string), trail: seq<Attempt>): (bool, string)
    decreases |trail|
  {
    if trail == [] then st else RefundFold(RefundStep(st, trail[0]), trail[1..])
  }

  /** The OrderDescription of a refund: an empty reason reads 'Refund'. */
  function RefundDescription(orderPrefix: string, orderId: string, reason: string): string
  {
    orderPrefix + orderId + ": " + (if reason == "" then "Refund" else reason)
  }

  function RefundPayload(merchantId: string, password: string, amountMinor: string, currencyCode: string,
                         crossReference: string, orderId: string, description: string): Assoc<string, string>
  {
    [("MerchantID", merchantId), ("Password", password), ("Amount", amountMinor), ("CurrencyCode", currencyCode),
     ("TransactionType", "REFUND"), ("CrossReference", crossReference), ("OrderID", orderId),
     ("OrderDescription", description)]
  }

  function RefundNote(amountText: string, currency: string): string
  {
    "Refund for " + amountText + " " + currency + " processed successfully."
  }

  function RefundReply(st: (bool, string)): RefundResult
  {
    if st.0 then Refunded else RefundError("refund_error", "Refund was declined. " + st.1)
  }

  // ---------------------------------------------------------------------------
  // The hosted payment form's fields
  // ---------------------------------------------------------------------------

  /** `build_hpf_fields` with the given hash method: digest and MerchantID, then the filtered, cut fields. */
  function HpfFields(merchantId: string, password: string, preSharedKey: string, hashMethod: string,
                     d: Digests, payment: Assoc<string, Option<string>>): Assoc<string, string>
  {
    var fields := LengthRestricted(FilterFields(payment, false));
    var digest := CalculateHashDigest(d, Encode(Credentials(merchantId, password) + fields), hashMethod, preSharedKey);
    Merge([("HashDigest", digest), ("MerchantID", merchantId)], fields)
  }

  /** The string the form's digest is computed over: credentials, then "&key=value" per field. */
  method HpfData(merchantId: string, password: string, fields: Assoc<string, string>) returns (data: string)
    ensures data == Encode(Credentials(merchantId, password) + fields)
  {
    var creds := Credentials(merchantId, password);
    data := "MerchantID=" + merchantId + "&Password=" + password;
    assert creds + fields[..0] == creds;
    assert "MerchantID" + "=" + merchantId == "MerchantID=" + merchantId;
    assert "Password" + "=" + password == "Password=" + password;
    assert Items(creds) == ["MerchantID=" + merchantId, "Password=" + password];
    assert Join("&", Items(creds)) == "MerchantID=" + merchantId + "&" + ("Password=" + password);
    var i := 0;
    while i < |fields|
      invariant 0 <= i <= |fields|
      invariant data == Encode(creds + fields[..i])
    {
      EncodeSnoc(creds + fields[..i], fields[i]);
      assert creds + fields[..i + 1] == creds + fields[..i] + [fields[i]];
      data := data + "&" + fields[i].0 + "=" + fields[i].1;
      i := i + 1;
    }
    assert fields[..|fields|] == fields;
  }

  class Gateway {
    const kind: Kind
    const merchantId: string
    const password: string
    const preSharedKey: string
    var hashMethod: string
    const transactionType: string
    const orderPrefix: string
    /** settings['disable_comm_on_port_4430'], None when it is not set */
    const port4430Setting: Option<string>
    const supportsRefunds: bool
    const network: Network
    const digests: Digests

    /** The number of sends made so far: the next send is the network's sendCount-th. */
    var sendCount: nat
    var datetimePairs: Assoc<string, (int, Option<int>)>
    /** connection_info['GetGatewayEntryPoints'] */
    var ggepLog: Assoc<string, LogEntry>
    /** connection_info['HostedPaymentForm'], None while it is still empty */
    var hpfLog: Option<HpfEntry>
    var connectivityStatus: Option<bool>
    var merchantCredentialsValid: Option<bool>

    /** The settings are read once; refunds are offered unless port 4430 is switched off. */
    constructor(kind: Kind, merchantId: string, password: string, preSharedKey: string, hashMethod: string,
                transactionType: string, orderPrefix: string, port4430Setting: Option<string>,
                network: Network, digests: Digests)
      ensures this.kind == kind && this.merchantId == merchantId && this.password == password
      ensures this.preSharedKey == preSharedKey && this.hashMethod == hashMethod
      ensures this.transactionType == transactionType && this.orderPrefix == orderPrefix
      ensures this.port4430Setting == port4430Setting && this.network == network && this.digests == digests
      ensures supportsRefunds <==> port4430Setting != Some("true")
      ensures sendCount == 0 && datetimePairs == [] && ggepLog == [] && hpfLog.None?
      ensures connectivityStatus.None? && merchantCredentialsValid.None?
    {
      this.kind := kind;
      this.merchantId := merchantId;
      this.password := password;
      this.preSharedKey := preSharedKey;
      this.hashMethod := hashMethod;
      this.transactionType := transactionType;
      this.orderPrefix := orderPrefix;
      this.port4430Setting := port4430Setting;
      this.network := network;
      this.digests := digests;
      supportsRefunds := SupportsRefunds(port4430Setting);
      sendCount := 0;
      datetimePairs := [];
      ggepLog := [];
      hpfLog := None;
      connectivityStatus := None;
      merchantCredentialsValid := None;
    }

    /** `send_transaction`: one send; an exchange that took place records its time pair under its host. */
    method SendTransaction(url: string, payload: Assoc<string, string>, force: bool) returns (a: Attempt)
      modifies this`sendCount, this`datetimePairs
      ensures a == Send(network, old(sendCount), url, payload, port4430Setting, force)
      ensures sendCount == old(sendCount) + 1
      ensures datetimePairs == Recorded(old(datetimePairs), a)
    {
      a := Send(network, sendCount, url, payload, port4430Setting, force);
      sendCount := sendCount + 1;
      if a.stamp.Some? {
        datetimePairs := Put(datetimePairs, Hostname(url), a.stamp.value);
      }
    }

    /**
     * The failover loop every gateway call runs: up to maxAttempts sends per
     * entry point, entry point after entry point, until a send passes the
     * caller's stop test. The sends it makes are exactly the trail of the
     * schedule.
     */
    method Failover(payload: Assoc<string, string>, stops: Attempt -> bool, maxAttempts: nat, force: bool)
      returns (trail: seq<Attempt>)
      modifies this`sendCount, this`datetimePairs
      ensures trail == Trail(network, old(sendCount), payload, port4430Setting, force, stops, maxAttempts)
      ensures sendCount == old(sendCount) + |trail|
      ensures datetimePairs == PairsAfter(old(datetimePairs), trail)
    {
      ghost var k0 := sendCount;
      ghost var pairs0 := datetimePairs;
      ghost var whole := Trail(network, k0, payload, port4430Setting, force, stops, maxAttempts);
      var gatewayId := 0;
      var transAttempt := 1;
      var validResponse := false;
      trail := [];
      assert [] + whole == whole;
      while !validResponse && gatewayId < |EntryPoints| && transAttempt <= maxAttempts
        invariant 0 <= gatewayId <= |EntryPoints| && 1 <= transAttempt <= maxAttempts + 1
        invariant sendCount == k0 + |trail|
        invariant datetimePairs == PairsAfter(pairs0, trail)
        invariant !validResponse ==> trail + Remaining(sendCount, payload, stops, maxAttempts, force, gatewayId, transAttempt) == whole
        invariant validResponse ==> trail == whole
        decreases |EntryPoints| - gatewayId, maxAttempts + 1 - transAttempt
      {
        var a;
        a, validResponse, gatewayId, transAttempt :=
          FailoverAttempt(payload, stops, maxAttempts, force, gatewayId, transAttempt, trail, whole);
        PairsAfterSnoc(pairs0, trail, a);
        trail := trail + [a];
      }
      if !validResponse {
        assert trail + [] == trail;
      }
    }

    /** The sends the schedule still has to make from send number k, entry point g, attempt t. */
    ghost function Remaining(k: nat, payload: Assoc<string, string>, stops: Attempt -> bool, maxAttempts: nat, force: bool,
                             g: nat, t: nat): seq<Attempt>
    {
      TrailFrom(network, k, payload, port4430Setting, force, stops, maxAttempts, g, t)
    }

    /** One pass of the failover loop's body: a send to the current entry point, then the next position. */
    method FailoverAttempt(payload: Assoc<string, string>, stops: Attempt -> bool, maxAttempts: nat, force: bool,
                           g: nat, t: nat, ghost trail: seq<Attempt>, ghost whole: seq<Attempt>)
      returns (a: Attempt, valid: bool, g': nat, t': nat)
      requires g < |EntryPoints| && 1 <= t <= maxAttempts
      requires trail + Remaining(sendCount, payload, stops, maxAttempts, force, g, t) == whole
      modifies this`sendCount, this`datetimePairs
      ensures sendCount == old(sendCount) + 1 && datetimePairs == Recorded(old(datetimePairs), a)
      ensures g' == (if t < maxAttempts then g else g + 1) && t' == (if t < maxAttempts then t + 1 else 1)
      ensures valid == stops(a)
      ensures valid ==> trail + [a] == whole
      ensures !valid ==> (trail + [a]) + Remaining(sendCount, payload, stops, maxAttempts, force, g', t') == whole
    {
      ghost var k := sendCount;
      var url := EntryPoints[g];
      a := SendTransaction(url, payload, force);
      valid := stops(a);
      g', t' := if t < maxAttempts then g else g + 1, if t < maxAttempts then t + 1 else 1;
      FailoverTurn(network, k, payload, port4430Setting, force, stops, maxAttempts, g, t, a, g', t', trail, whole);
    }

    /**
     * `perform_test_transaction`: the GetGatewayEntryPoints probe, one forced
     * send per entry point. Each send is logged as the next numbered
     * connection attempt; the connectivity flag says whether the last status
     * code read is numeric; a reply with status '0' confirms the credentials
     * and one with status '30' and an invalid-credentials message refutes
     * them. The result says whether the loop stopped on a valid reply.
     */
    method PerformTestTransaction() returns (valid: bool)
      modifies this`sendCount, this`datetimePairs, this`ggepLog, this`connectivityStatus, this`merchantCredentialsValid
      ensures var trail := Trail(network, old(sendCount), Credentials(merchantId, password), port4430Setting, true,
                                 StopRule(Probe), 1);
        valid == Stopped(Probe, trail) &&
        ggepLog == ProbeLog(old(ggepLog), trail, 1) &&
        connectivityStatus == Some(Connected(trail)) &&
        merchantCredentialsValid == CredentialsAfter(old(merchantCredentialsValid), trail) &&
        sendCount == old(sendCount) + |trail| &&
        datetimePairs == PairsAfter(old(datetimePairs), trail)
    {
      var trail := Failover(Credentials(merchantId, password), StopRule(Probe), 1, true);
      valid := Stopped(Probe, trail);
      ggepLog := ProbeLog(ggepLog, trail, 1);
      connectivityStatus := Some(Connected(trail));
      merchantCredentialsValid := CredentialsAfter(merchantCredentialsValid, trail);
    }

    /**
     * `process_refund`: a REFUND cross-reference transaction for the order,
     * up to three sends per entry point, stopping on the first numeric status
     * other than '30' that needs no retry. It succeeds only when that status
     * is '0'; then the order gets a note, otherwise the declined message is
     * returned and the order is left as it was.
     */
    method ProcessRefund(order: Order, amountMinor: string, amountText: string, currency: string,
                         currencyCode: string, reason: string) returns (r: RefundResult)
      modifies this`sendCount, this`datetimePairs, order
      ensures var payload := RefundPayload(merchantId, password, amountMinor, currencyCode,
                                           MetaValue(old(order.meta), "CrossRef"), order.id,
                                           RefundDescription(orderPrefix, order.id, reason));
        var trail := Trail(network, old(sendCount), payload, port4430Setting, false, StopRule(Refund), 3);
        r == RefundReply(RefundFold((false, ""), trail)) &&
        sendCount == old(sendCount) + |trail| &&
        datetimePairs == PairsAfter(old(datetimePairs), trail)
      ensures order.status == old(order.status) && order.meta == old(order.meta)
      ensures order.events == old(order.events) + (if r.Refunded? then [NoteAdded(RefundNote(amountText, currency))] else [])
    {
      var description := RefundDescription(orderPrefix, order.id, reason);
      var payload := RefundPayload(merchantId, password, amountMinor, currencyCode, order.GetMeta("CrossRef"),
                                   order.id, description);
      var trail := Failover(payload, StopRule(Refund), 3, false);
      r := RefundReply(RefundFold((false, ""), trail));
      if r.Refunded? {
        order.AddNote(RefundNote(amountText, currency));
      }
    }

    /**
     * `build_hpf_fields` for the given payment fields: the direct method
     * first switches its hash method to SHA1, for a digest that only serves
     * to validate the settings.
     */
    method BuildHpfFields(payment: Assoc<string, Option<string>>) returns (fields: Assoc<string, string>)
      requires UniqueKeys(payment)
      modifies this`hashMethod
      ensures hashMethod == if kind == DirectMethod then "SHA1" else old(hashMethod)
      ensures fields == HpfFields(merchantId, password, preSharedKey, hashMethod, digests, payment)
    {
      var filtered := FilterFields(payment, false);
      assert UniqueKeys(filtered) by {
        forall i, j | 0 <= i < j < |filtered| ensures filtered[i].0 != filtered[j].0 {
          assert filtered[i].0 == Keys(filtered)[i] == Keys(payment)[i];
          assert filtered[j].0 == Keys(filtered)[j] == Keys(payment)[j];
        }
      }
      var restricted := ApplyLengthRestrictions(filtered);
      var data := HpfData(merchantId, password, restricted);
      if kind == DirectMethod {
        hashMethod := "SHA1";
      }
      var digest := CalculateHashDigest(digests, data, hashMethod, preSharedKey);
      fields := Merge([("HashDigest", digest), ("MerchantID", merchantId)], restricted);
    }

    /**
     * `check_gateway_settings`: posts sample fields to the hosted payment
     * form (a forced send) and classifies the error span of the page it gets
     * back. errorSpan stands for the text of the page's error label (None
     * when the page has none).
     */
    method CheckGatewaySettings(sample: Assoc<string, Option<string>>, errorSpan: string -> Option<string>)
      returns (r: HpfResponse)
      requires UniqueKeys(sample)
      modifies this`hashMethod, this`sendCount, this`datetimePairs, this`hpfLog
      ensures hashMethod == if kind == DirectMethod then "SHA1" else old(hashMethod)
      ensures var a := Send(network, old(sendCount), PaymentFormUrl,
                            HpfFields(merchantId, password, preSharedKey, hashMethod, digests, sample),
                            port4430Setting, true);
        r == HpfResult(a.errno, errorSpan(a.response)) &&
        hpfLog == Some(HpfLogEntry(a, errorSpan)) &&
        sendCount == old(sendCount) + 1 &&
        datetimePairs == Recorded(old(datetimePairs), a)
    {
      var fields := BuildHpfFields(sample);
      var a := SendTransaction(PaymentFormUrl, fields, true);
      var message: Option<string> := Some("");
      if a.errno == CurleOk {
        message := errorSpan(a.response);
      }
      r := HpfResult(a.errno, errorSpan(a.response));
      hpfLog := Some(HpfEntry(a.errno, a.errmsg, a.response, a.info, message));
    }

    /** `get_connection_status_code`: the probe, then the fold over the whole log. */
    method GetConnectionStatusCode() returns (code: Option<int>)
      modifies this`sendCount, this`datetimePairs, this`ggepLog, this`connectivityStatus, this`merchantCredentialsValid
      ensures var trail := Trail(network, old(sendCount), Credentials(merchantId, password), port4430Setting, true,
                                 StopRule(Probe), 1);
        ggepLog == ProbeLog(old(ggepLog), trail, 1) &&
        sendCount == old(sendCount) + |trail| &&
        datetimePairs == PairsAfter(old(datetimePairs), trail) &&
        connectivityStatus == Some(Connected(trail)) &&
        merchantCredentialsValid == CredentialsAfter(old(merchantCredentialsValid), trail)
      ensures code == StatusCodeOf(Errnos(ggepLog))
    {
      var _ := PerformTestTransaction();
      code := ConnectionStatusCode(ggepLog);
    }

    /** `get_connection_status_message`: the message for the code, the log rendered into the failure text. */
    method GetConnectionStatusMessage() returns (m: Option<Message>)
      modifies this`sendCount, this`datetimePairs, this`ggepLog, this`connectivityStatus, this`merchantCredentialsValid
      ensures var trail := Trail(network, old(sendCount), Credentials(merchantId, password), port4430Setting, true,
                                 StopRule(Probe), 1);
        ggepLog == ProbeLog(old(ggepLog), trail, 1) &&
        sendCount == old(sendCount) + |trail| &&
        datetimePairs == PairsAfter(old(datetimePairs), trail) &&
        connectivityStatus == Some(Connected(trail)) &&
        merchantCredentialsValid == CredentialsAfter(old(merchantCredentialsValid), trail)
      ensures m == ConnectionStatusMessage(StatusCodeOf(Errnos(ggepLog)), kind == HostedMethod,
                                           ConvertArrayToString(LogValue(ggepLog), ""))
      ensures m.Some?
    {
      var code := GetConnectionStatusCode();
      m := ConnectionStatusMessage(code, kind == HostedMethod, ConvertArrayToString(LogValue(ggepLog), ""));
      ConnectionStatusMessageMeaning(Errnos(ggepLog), kind == HostedMethod, ConvertArrayToString(LogValue(ggepLog), ""));
    }
  }

  // ---------------------------------------------------------------------------
  // Properties
  // ---------------------------------------------------------------------------

  lemma AppendAssoc<T>(x: seq<T>, y: seq<T>, z: seq<T>)
    ensures x + (y + z) == (x + y) + z
  {
  }

  /** One turn of the failover loop: the send to the current entry point, then the rest of the schedule unless it stops. */
  lemma TrailFromStep(net: Network, k: nat, payload: Assoc<string, string>, port4430Setting: Option<string>,
                      force: bool, stops: Attempt -> bool, maxAttempts: nat, g: nat, t: nat, a: Attempt, g': nat, t': nat)
    requires g < |EntryPoints| && 1 <= t <= maxAttempts
    requires a == Send(net, k, EntryPoints[g], payload, port4430Setting, force)
    requires g' == (if t < maxAttempts then g else g + 1) && t' == (if t < maxAttempts then t + 1 else 1)
    ensures TrailFrom(net, k, payload, port4430Setting, force, stops, maxAttempts, g, t) ==
      if stops(a) then [a] else [a] + TrailFrom(net, k + 1, payload, port4430Setting, force, stops, maxAttempts, g', t')
  {
    ScheduleFromStep(maxAttempts, g, t);
    assert ([EntryPoints[g]] + ScheduleFrom(maxAttempts, g', t'))[1..] == ScheduleFrom(maxAttempts, g', t');
  }

  /** The loop's view of one turn: the trail so far plus the send just made is the whole trail, or its prefix before what remains. */
  lemma FailoverTurn(net: Network, k: nat, payload: Assoc<string, string>, port4430Setting: Option<string>,
                     force: bool, stops: Attempt -> bool, maxAttempts: nat, g: nat, t: nat, a: Attempt, g': nat, t': nat,
                     trail: seq<Attempt>, whole: seq<Attempt>)
    requires g < |EntryPoints| && 1 <= t <= maxAttempts
    requires a == Send(net, k, EntryPoints[g], payload, port4430Setting, force)
    requires g' == (if t < maxAttempts then g else g + 1) && t' == (if t < maxAttempts then t + 1 else 1)
    requires trail + TrailFrom(net, k, payload, port4430Setting, force, stops, maxAttempts, g, t) == whole
    ensures stops(a) ==> trail + [a] == whole
    ensures !stops(a) ==> (trail + [a]) + TrailFrom(net, k + 1, payload, port4430Setting, force, stops, maxAttempts, g', t') == whole
  {
    TrailFromStep(net, k, payload, port4430Setting, force, stops, maxAttempts, g, t, a, g', t');
    if !stops(a) {
      AppendAssoc(trail, [a], TrailFrom(net, k + 1, payload, port4430Setting, force, stops, maxAttempts, g', t'));
    }
  }

  /** Recording the time pairs of one more send extends the fold by one step. */
  lemma {:induction false} PairsAfterSnoc(pairs: Assoc<string, (int, Option<int>)>, trail: seq<Attempt>, a: Attempt)
    ensures PairsAfter(pairs, trail + [a]) == Recorded(PairsAfter(pairs, trail), a)
    decreases |trail|
  {
    if trail == [] {
      assert [] + [a] == [a];
      assert [a][1..] == [];
    } else {
      assert (trail + [a])[0] == trail[0];
      assert (trail + [a])[1..] == trail[1..] + [a];
      PairsAfterSnoc(Recorded(pairs, trail[0]), trail[1..], a);
    }
  }

  lemma NatToStringInjective(m: nat, n: nat)
    ensures NatToString(m) == NatToString(n) ==> m == n
  {
  }

  lemma AttemptKeyInjective(m: nat, n: nat)
    ensures AttemptKey(m) == AttemptKey(n) ==> m == n
  {
    var prefix := "Connection attempt ";
    if AttemptKey(m) == AttemptKey(n) {
      assert AttemptKey(m)[|prefix|..] == NatToString(m);
      assert AttemptKey(n)[|prefix|..] == NatToString(n);
      NatToStringInjective(m, n);
    }
  }

  /** On a log numbered 1..n-1, the probe appends its attempts as n, n+1, ... behind it. */
  lemma {:induction false} ProbeLogAppends(log: Assoc<string, LogEntry>, trail: seq<Attempt>, n: nat)
    requires n >= 1 && |log| == n - 1
    requires forall i :: 0 <= i < |log| ==> log[i].0 == AttemptKey(i + 1)
    ensures var r := ProbeLog(log, trail, n);
      |r| == |log| + |trail| && r[..|log|] == log &&
      forall j :: 0 <= j < |trail| ==> r[|log| + j] == (AttemptKey(n + j), AttemptEntry(trail[j]))
    decreases |trail|
  {
    if trail != [] {
      var key := AttemptKey(n);
      var log' := Put(log, key, AttemptEntry(trail[0]));
      ProbeLogPutNew(log, n, AttemptEntry(trail[0]));
      ProbeLogAppends(log', trail[1..], n + 1);
      var r := ProbeLog(log, trail, n);
      assert r == ProbeLog(log', trail[1..], n + 1);
      assert r[..|log|] == r[..|log'|][..|log|];
      forall j | 0 <= j < |trail| ensures r[|log| + j] == (AttemptKey(n + j), AttemptEntry(trail[j])) {
        if j == 0 {
          assert r[|log|] == r[..|log'|][|log|] == log'[|log|];
        } else {
          assert r[|log'| + (j - 1)] == (AttemptKey(n + 1 + (j - 1)), AttemptEntry(trail[1..][j - 1]));
        }
      }
    }
  }

  /** The next attempt's number is new to a log numbered 1..n-1, so it is appended. */
  lemma ProbeLogPutNew(log: Assoc<string, LogEntry>, n: nat, e: LogEntry)
    requires n >= 1 && |log| == n - 1
    requires forall i :: 0 <= i < |log| ==> log[i].0 == AttemptKey(i + 1)
    ensures Put(log, AttemptKey(n), e) == log + [(AttemptKey(n), e)]
    ensures forall i :: 0 <= i < n ==> (log + [(AttemptKey(n), e)])[i].0 == AttemptKey(i + 1)
  {
    var key := AttemptKey(n);
    forall i | 0 <= i < |log| ensures log[i].0 != key {
      AttemptKeyInjective(i + 1, n);
    }
  }

  /** A probe on an empty log numbers its attempts from 1, one entry per send, in send order. */
  lemma ProbeLogFresh(trail: seq<Attempt>)
    ensures var r := ProbeLog([], trail, 1);
      |r| == |trail| && forall j :: 0 <= j < |trail| ==> r[j] == (AttemptKey(j + 1), AttemptEntry(trail[j]))
  {
    ProbeLogAppends([], trail, 1);
    var r := ProbeLog([], trail, 1);
    forall j | 0 <= j < |trail| ensures r[j] == (AttemptKey(j + 1), AttemptEntry(trail[j])) {
      assert r[0 + j] == (AttemptKey(1 + j), AttemptEntry(trail[j]));
    }
  }

  /** The keys a probe of count sends writes, the first numbered n. */
  function ProbeKeys(n: nat, count: nat): seq<string>
  {
    seq(count, j requires 0 <= j < count => AttemptKey(n + j))
  }

  /**
   * A probe over any earlier log: the j-th send is read back under number
   * n + j, an earlier entry of that number being overwritten where it stands;
   * every other key, such as a higher number left by a longer earlier probe,
   * keeps its value; and the earlier keys keep their positions.
   */
  lemma {:induction false} ProbeLogOverwrites(log: Assoc<string, LogEntry>, trail: seq<Attempt>, n: nat)
    ensures var r := ProbeLog(log, trail, n);
      (forall j :: 0 <= j < |trail| ==> Lookup(r, AttemptKey(n + j)) == Some(AttemptEntry(trail[j]))) &&
      (forall k :: k !in ProbeKeys(n, |trail|) ==> Lookup(r, k) == Lookup(log, k)) &&
      |log| <= |r| && Keys(r)[..|log|] == Keys(log)
    decreases |trail|
  {
    if trail != [] {
      var e := AttemptEntry(trail[0]);
      var log' := Put(log, AttemptKey(n), e);
      ProbeLogOverwrites(log', trail[1..], n + 1);
      ProbeKeysCons(n, |trail| - 1);
      var r := ProbeLog(log, trail, n);
      assert r == ProbeLog(log', trail[1..], n + 1);
      forall j | 0 <= j < |trail| ensures Lookup(r, AttemptKey(n + j)) == Some(AttemptEntry(trail[j])) {
        if j == 0 {
          LookupPut(log, AttemptKey(n), e);
        } else {
          assert AttemptKey(n + j) == AttemptKey(n + 1 + (j - 1));
          assert trail[j] == trail[1..][j - 1];
        }
      }
      forall k | k !in ProbeKeys(n, |trail|) ensures Lookup(r, k) == Lookup(log, k) {
        LookupPutOther(log, AttemptKey(n), e, k);
      }
      assert Keys(log')[..|log|] == Keys(log);
      assert Keys(r)[..|log|] == Keys(r)[..|log'|][..|log|];
    }
  }

  /** The probe's keys are its first number followed by the rest, and the first is not among the rest. */
  lemma ProbeKeysCons(n: nat, count: nat)
    ensures ProbeKeys(n, count + 1) == [AttemptKey(n)] + ProbeKeys(n + 1, count)
    ensures AttemptKey(n) !in ProbeKeys(n + 1, count)
  {
    var rest := ProbeKeys(n + 1, count);
    forall j | 0 <= j < count ensures rest[j] != AttemptKey(n) {
      AttemptKeyInjective(n + 1 + j, n);
    }
  }

  /** A probe that stops on a valid reply leaves the connectivity flag true. */
  lemma {:induction false} StoppedProbeConnected(trail: seq<Attempt>)
    requires Stopped(Probe, trail)
    ensures Connected(trail)
  {
    var a := trail[|trail| - 1];
    assert a.errno == CurleOk;
    assert LatestStatus(trail) == Some(StatusOf(a.response));
  }

  /**
   * The probe's flag and the settings scan read a reply the same way: a
   * send changes `merchant_credentials_valid` exactly when its log entry
   * has a verdict, and to that verdict.
   */
  lemma ProbeStepAgreesWithScan(prev: Option<bool>, a: Attempt)
    ensures ProbeCredentialsStep(prev, a) ==
      match EntryVerdict(AttemptEntry(a)) case Some(v) => Some(v) case None => prev
  {
    var code := StatusOf(a.response);
    if a.errno == CurleOk && (code == StatusSuccess || code == StatusFailed) {
      assert |code| > 0 && AllDigits(code);
      DigitStringIsNumeric(code);
    }
  }

  /**
   * On a fresh gateway a probe that stops on a valid reply makes the
   * connection status code CURLE_OK: the last logged attempt decides.
   */
  lemma ProbeStatusCodeOk(trail: seq<Attempt>)
    requires Stopped(Probe, trail)
    ensures StatusCodeOf(Errnos(ProbeLog([], trail, 1))) == Some(CurleOk)
  {
    ProbeLogFresh(trail);
    var errnos := Errnos(ProbeLog([], trail, 1));
    assert errnos[|errnos| - 1] == trail[|trail| - 1].errno == CurleOk;
    StatusCodeLastOk(errnos);
  }

  /** A refund send that does not stop the loop leaves the success flag as it was. */
  lemma RefundStepKeeps(st: (bool, string), a: Attempt)
    requires !Stops(Refund, a)
    ensures RefundStep(st, a).0 == st.0
  {
  }

  /**
   * A refund succeeds exactly when its loop stopped on a reply with status
   * '0': only the stopping send can set the success flag.
   */
  lemma {:induction false} RefundSucceedsIff(st: (bool, string), trail: seq<Attempt>)
    requires forall i :: 0 <= i < |trail| - 1 ==> !Stops(Refund, trail[i])
    ensures RefundFold(st, trail).0 ==
      if Stopped(Refund, trail) then StatusOf(trail[|trail| - 1].response) == StatusSuccess else st.0
    decreases |trail|
  {
    if trail != [] {
      if |trail| == 1 {
        assert RefundFold(st, trail) == RefundFold(RefundStep(st, trail[0]), []);
      } else {
        RefundStepKeeps(st, trail[0]);
        var rest := trail[1..];
        forall i | 0 <= i < |rest| - 1 ensures !Stops(Refund, rest[i]) {
          assert rest[i] == trail[i + 1];
        }
        RefundSucceedsIff(RefundStep(st, trail[0]), rest);
        assert rest[|rest| - 1] == trail[|trail| - 1];
      }
    }
  }

  /** The refund's outcome over its whole loop: refunded exactly when the last send stopped it with '0'. */
  lemma RefundOutcome(net: Network, k: nat, payload: Assoc<string, string>, port4430Setting: Option<string>)
    ensures var trail := Trail(net, k, payload, port4430Setting, false, StopRule(Refund), 3);
      RefundReply(RefundFold((false, ""), trail)).Refunded? <==>
        Stopped(Refund, trail) && StatusOf(trail[|trail| - 1].response) == StatusSuccess
  {
    var trail := Trail(net, k, payload, port4430Setting, false, StopRule(Refund), 3);
    TrailMeaning(net, k, payload, port4430Setting, false, StopRule(Refund), 3);
    forall i | 0 <= i < |trail| - 1 ensures !Stops(Refund, trail[i]) {
      assert !StopRule(Refund)(trail[i]);
    }
    RefundSucceedsIff((false, ""), trail);
  }

  /** A fold over sends none of which reached the gateway leaves the refund state as it was. */
  lemma {:induction false} RefundFoldUndelivered(st: (bool, string), trail: seq<Attempt>)
    requires forall i :: 0 <= i < |trail| ==> trail[i].errno != CurleOk
    ensures RefundFold(st, trail) == st
    decreases |trail|
  {
    if trail != [] {
      RefundFoldUndelivered(RefundStep(st, trail[0]), trail[1..]);
    }
  }

  /**
   * With port 4430 switched off a refund makes all nine sends, each refused,
   * and is declined with the bare declined message.
   */
  lemma RefundWhileAborting(net: Network, k: nat, payload: Assoc<string, string>, port4430Setting: Option<string>)
    requires port4430Setting == Some("true")
    ensures var trail := Trail(net, k, payload, port4430Setting, false, StopRule(Refund), 3);
      |trail| == 9 && RefundReply(RefundFold((false, ""), trail)) == RefundError("refund_error", "Refund was declined. ")
  {
    AbortedTrailExhausts(net, k, payload, port4430Setting, Refund, 3);
    var trail := Trail(net, k, payload, port4430Setting, false, StopRule(Refund), 3);
    RefundFoldUndelivered((false, ""), trail);
  }

  /** An empty refund reason is sent as 'Refund'; any other reason as given. */
  lemma RefundDescriptionReason(orderPrefix: string, orderId: string, reason: string)
    ensures var d := RefundDescription(orderPrefix, orderId, reason);
      var head := orderPrefix + orderId + ": ";
      |d| >= |head| && d[..|head|] == head &&
      d[|head|..] == (if reason == "" then "Refund" else reason)
  {
  }

  /**
   * When the payment fields hold neither a HashDigest nor a MerchantID, the
   * form's fields are the digest, the MerchantID, then every payment field
   * in its place, filtered and cut to its limit.
   */
  lemma HpfFieldsLayout(merchantId: string, password: string, preSharedKey: string, hashMethod: string,
                        d: Digests, payment: Assoc<string, Option<string>>)
    requires UniqueKeys(payment) && !HasKey(payment, "HashDigest") && !HasKey(payment, "MerchantID")
    ensures var fields := LengthRestricted(FilterFields(payment, false));
      var r := HpfFields(merchantId, password, preSharedKey, hashMethod, d, payment);
      |r| == |payment| + 2 &&
      r[0] == ("HashDigest", CalculateHashDigest(d, Encode(Credentials(merchantId, password) + fields), hashMethod, preSharedKey)) &&
      r[1] == ("MerchantID", merchantId) &&
      forall i :: 0 <= i < |payment| ==> r[i + 2] == fields[i] && r[i + 2].0 == payment[i].0
  {
    var filtered := FilterFields(payment, false);
    var fields := LengthRestricted(filtered);
    var digest := CalculateHashDigest(d, Encode(Credentials(merchantId, password) + fields), hashMethod, preSharedKey);
    assert Keys(filtered) == Keys(payment);
    forall i | 0 <= i < |fields| ensures fields[i].0 == payment[i].0 {
      assert fields[i].0 == filtered[i].0 == Keys(filtered)[i];
    }
    HeadThenFields(digest, merchantId, payment, fields);
  }

  /** The two leading fields are followed by the payment's fields, which keep their keys and places. */
  lemma HeadThenFields(digest: string, merchantId: string, payment: Assoc<string, Option<string>>,
                       fields: Assoc<string, string>)
    requires UniqueKeys(payment) && !HasKey(payment, "HashDigest") && !HasKey(payment, "MerchantID")
    requires |fields| == |payment| && forall i :: 0 <= i < |fields| ==> fields[i].0 == payment[i].0
    ensures Merge([("HashDigest", digest), ("MerchantID", merchantId)], fields) ==
      [("HashDigest", digest), ("MerchantID", merchantId)] + fields
  {
    var head := [("HashDigest", digest), ("MerchantID", merchantId)];
    SameKeysUnique(payment, fields);
    HeadKeysAbsent(head, payment, fields);
    MergeDisjoint(head, fields);
  }

  lemma SameKeysUnique(payment: Assoc<string, Option<string>>, fields: Assoc<string, string>)
    requires UniqueKeys(payment)
    requires |fields| == |payment| && forall i :: 0 <= i < |fields| ==> fields[i].0 == payment[i].0
    ensures UniqueKeys(fields)
  {
    forall i, j | 0 <= i < j < |fields| ensures fields[i].0 != fields[j].0 {
      assert payment[i].0 != payment[j].0;
    }
  }

  lemma HeadKeysAbsent(head: Assoc<string, string>, payment: Assoc<string, Option<string>>, fields: Assoc<string, string>)
    requires |head| == 2 && head[0].0 == "HashDigest" && head[1].0 == "MerchantID"
    requires !HasKey(payment, "HashDigest") && !HasKey(payment, "MerchantID")
    requires |fields| == |payment| && forall i :: 0 <= i < |fields| ==> fields[i].0 == payment[i].0
    ensures forall i :: 0 <= i < |fields| ==> !HasKey(head, fields[i].0)
  {
    forall i | 0 <= i < |fields| ensures !HasKey(head, fields[i].0) {
      var k := fields[i].0;
      assert k == payment[i].0;
      assert k != "HashDigest" && k != "MerchantID";
    }
  }
}
