/**
 * The decision logic behind the plugin's admin diagnostics: the fold of the
 * connection log into one status code and the message it selects, the
 * system-time check, the classification of the hosted payment form's reply,
 * the merchant checks, the two settings-message tables, the rendering of
 * the log as text, and the payment time-frame check.
 */
module Diagnostics {
  import opened PhpStrings
  import opened PhpArrays
  import opened XmlExtract
  import opened Transport

  // ---------------------------------------------------------------------------
  // Admin messages
  // ---------------------------------------------------------------------------

  const SuccessClassName := "notice notice-success"
  const WarningClassName := "notice notice-warning"
  const ErrorClassName := "notice notice-error"

  const MessageTypeConnection := "connection"
  const MessageTypeSettings := "settings"
  const MessageTypeSystemTime := "stime"

  /** `build_message`: array(type => array('text' => ..., 'class' => ...)). */
  datatype Message = Message(messageType: string, text: string, className: string)

  /** `getSettingsTextMessage`: the text of a settings message; null for the empty array. */
  function SettingsText(m: Option<Message>): (r: Option<string>)
    ensures m.Some? && m.value.messageType == MessageTypeSettings ==> r == Some(m.value.text)
    ensures m.None? ==> r.None?
  {
    match m
    case Some(msg) => if msg.messageType == MessageTypeSettings then Some(msg.text) else None
    case None => None
  }

  // ---------------------------------------------------------------------------
  // The connection log
  // ---------------------------------------------------------------------------

  /** One entry of connection_info['GetGatewayEntryPoints']. */
  datatype LogEntry = LogEntry(curlErrno: int, curlErrmsg: string, response: string, info: PhpValue)

  function EntryValue(e: LogEntry): PhpValue
  {
    Arr([("curl_errno", Int(e.curlErrno)), ("curl_errmsg", Str(e.curlErrmsg)),
         ("response", Str(e.response)), ("info", e.info)])
  }

  function LogValue(log: Assoc<string, LogEntry>): (r: seq<(string, PhpValue)>)
    ensures |r| == |log| && forall i :: 0 <= i < |log| ==> r[i] == (log[i].0, EntryValue(log[i].1))
  {
    if log == [] then [] else [(log[0].0, EntryValue(log[0].1))] + LogValue(log[1..])
  }

  function Errnos(log: Assoc<string, LogEntry>): (r: seq<int>)
    ensures |r| == |log| && forall i :: 0 <= i < |log| ==> r[i] == log[i].1.curlErrno
  {
    if log == [] then [] else [log[0].1.curlErrno] + Errnos(log[1..])
  }

  predicate NetworkFailure(errno: int)
  {
    errno == CurleCouldntResolveHost || errno == CurleOperationTimedout || errno == CurleCouldntConnect
  }

  /**
   * One step of `get_connection_status_code` for the n-th entry (from 1):
   * OK and ABORTED set the result; a network failure sets it on the first
   * entry and afterwards keeps it only when it is the same code; any other
   * code changes nothing. None stands for false.
   */
  function StatusCodeStep(result: Option<int>, n: nat, errno: int): Option<int>
  {
    if errno == CurleOk || errno == CurleAbortedByCallback then Some(errno)
    else if NetworkFailure(errno) then
      if n == 1 then Some(errno)
      else if result != Some(errno) then None
      else result
    else result
  }

  /** The fold over the errors from the n-th entry on. */
  function StatusCodeFrom(result: Option<int>, n: nat, errnos: seq<int>): Option<int>
    decreases |errnos|
  {
    if errnos == [] then result
    else StatusCodeFrom(StatusCodeStep(result, n, errnos[0]), n + 1, errnos[1..])
  }

  function StatusCodeOf(errnos: seq<int>): Option<int>
  {
    StatusCodeFrom(None, 1, errnos)
  }

  /** The foreach of `get_connection_status_code` over the log. */
  method ConnectionStatusCode(log: Assoc<string, LogEntry>) returns (r: Option<int>)
    ensures r == StatusCodeOf(Errnos(log))
  {
    r := None;
    var n := 0;
    while n < |log|
      invariant 0 <= n <= |log|
      invariant StatusCodeFrom(r, n + 1, Errnos(log)[n..]) == StatusCodeOf(Errnos(log))
    {
      assert Errnos(log)[n..][0] == log[n].1.curlErrno;
      assert Errnos(log)[n..][1..] == Errnos(log)[n + 1..];
      r := StatusCodeStep(r, n + 1, log[n].1.curlErrno);
      n := n + 1;
    }
  }

  /** The codes the fold can produce. */
  predicate Decisive(errno: int)
  {
    errno == CurleOk || errno == CurleAbortedByCallback || NetworkFailure(errno)
  }

  lemma {:induction false} StatusCodeFromRange(result: Option<int>, n: nat, errnos: seq<int>)
    requires result.Some? ==> Decisive(result.value)
    ensures var r := StatusCodeFrom(result, n, errnos);
      r.Some? ==> Decisive(r.value) && (r == result || exists i :: 0 <= i < |errnos| && errnos[i] == r.value)
    decreases |errnos|
  {
    if errnos != [] {
      var next := StatusCodeStep(result, n, errnos[0]);
      StatusCodeFromRange(next, n + 1, errnos[1..]);
      var r := StatusCodeFrom(result, n, errnos);
      if r.Some? && r != result && r != next {
        var i :| 0 <= i < |errnos[1..]| && errnos[1..][i] == r.value;
        assert errnos[i + 1] == r.value;
      }
    }
  }

  /** The status code is false or one of the decisive codes that occur in the log. */
  lemma StatusCodeRange(errnos: seq<int>)
    ensures var r := StatusCodeOf(errnos);
      r.Some? ==> Decisive(r.value) && exists i :: 0 <= i < |errnos| && errnos[i] == r.value
  {
    StatusCodeFromRange(None, 1, errnos);
  }

  lemma {:induction false} StatusCodeFromLast(result: Option<int>, n: nat, errnos: seq<int>)
    requires |errnos| > 0 && (errnos[|errnos| - 1] == CurleOk || errnos[|errnos| - 1] == CurleAbortedByCallback)
    ensures StatusCodeFrom(result, n, errnos) == Some(errnos[|errnos| - 1])
    decreases |errnos|
  {
    if |errnos| > 1 {
      StatusCodeFromLast(StatusCodeStep(result, n, errnos[0]), n + 1, errnos[1..]);
    }
  }

  /** A log whose last entry succeeded (or was aborted) reports that code, whatever came before. */
  lemma StatusCodeLastOk(errnos: seq<int>)
    requires |errnos| > 0 && (errnos[|errnos| - 1] == CurleOk || errnos[|errnos| - 1] == CurleAbortedByCallback)
    ensures StatusCodeOf(errnos) == Some(errnos[|errnos| - 1])
  {
    StatusCodeFromLast(None, 1, errnos);
  }

  lemma {:induction false} StatusCodeFromSame(n: nat, e: int, errnos: seq<int>)
    requires n >= 2 && NetworkFailure(e) && forall i :: 0 <= i < |errnos| ==> errnos[i] == e
    ensures StatusCodeFrom(Some(e), n, errnos) == Some(e)
    decreases |errnos|
  {
    if errnos != [] {
      StatusCodeFromSame(n + 1, e, errnos[1..]);
    }
  }

  /** When every attempt failed with the same network error, that error is reported. */
  lemma StatusCodeSameFailure(e: int, errnos: seq<int>)
    requires |errnos| > 0 && NetworkFailure(e) && forall i :: 0 <= i < |errnos| ==> errnos[i] == e
    ensures StatusCodeOf(errnos) == Some(e)
  {
    StatusCodeFromSame(2, e, errnos[1..]);
  }

  lemma {:induction false} StatusCodeFromFailuresOnly(result: Option<int>, n: nat, errnos: seq<int>)
    requires n >= 2 && result.None? && forall i :: 0 <= i < |errnos| ==> NetworkFailure(errnos[i])
    ensures StatusCodeFrom(result, n, errnos).None?
    decreases |errnos|
  {
    if errnos != [] {
      StatusCodeFromFailuresOnly(StatusCodeStep(result, n, errnos[0]), n + 1, errnos[1..]);
    }
  }

  /** Two different network errors and nothing else: the result is false. */
  lemma StatusCodeMixedFailures(errnos: seq<int>)
    requires |errnos| >= 2 && errnos[0] != errnos[1]
    requires forall i :: 0 <= i < |errnos| ==> NetworkFailure(errnos[i])
    ensures StatusCodeOf(errnos).None?
  {
    var second := StatusCodeStep(Some(errnos[0]), 2, errnos[1]);
    assert second.None?;
    assert StatusCodeOf(errnos) == StatusCodeFrom(Some(errnos[0]), 2, errnos[1..]);
    assert StatusCodeFrom(Some(errnos[0]), 2, errnos[1..]) == StatusCodeFrom(second, 3, errnos[1..][1..]);
    StatusCodeFromFailuresOnly(second, 3, errnos[2..]);
    assert errnos[1..][1..] == errnos[2..];
  }

  const MsgConnectionFailed1 := "Warning: The Paymentsense plugin cannot connect to the Paymentsense gateway. Please contact support providing the information below: <pre>"
  const MsgConnectionOk := "Connection to Paymentsense was successful."
  const MsgSafeMode := "FYI: The Paymentsense Hosted method is configured to run in safe mode. You can still take payments, but refunds will need to be done via the MMS."
  const MsgCannotResolve := "Warning: The Paymentsense plugin cannot resolve any of the Paymentsense gateway entry points. Please check your DNS resolution or contact support."
  const MsgPortClosedHosted := "Warning: Port 4430 seems to be closed on your server. Please open port 4430 or set the \"Port 4430 is NOT open on my server\" configuration setting to \"Yes\"."
  const MsgPortClosedDirect := "Warning: Port 4430 seems to be closed on your server. Paymentsense Direct can NOT be used in this case. Please use Paymentsense Hosted or open port 4430."

  /**
   * `get_connection_status_message` after the code is known: false reports
   * the log (rendered as text), each decisive code its own message; any other
   * code yields the empty array.
   */
  function ConnectionStatusMessage(code: Option<int>, hosted: bool, logText: string): Option<Message>
  {
    match code
    case None => Some(Message(MessageTypeConnection, MsgConnectionFailed1 + logText + "</pre>", ErrorClassName))
    case Some(c) =>
      if c == CurleOk then Some(Message(MessageTypeConnection, MsgConnectionOk, SuccessClassName))
      else if c == CurleAbortedByCallback then Some(Message(MessageTypeConnection, MsgSafeMode, WarningClassName))
      else if c == CurleCouldntResolveHost then Some(Message(MessageTypeConnection, MsgCannotResolve, ErrorClassName))
      else if c == CurleOperationTimedout || c == CurleCouldntConnect then
        Some(Message(MessageTypeConnection, if hosted then MsgPortClosedHosted else MsgPortClosedDirect, ErrorClassName))
      else None
  }

  /**
   * The status message of a log is always present: the fold only yields
   * decisive codes. It is a success exactly when the fold yields OK, a
   * warning exactly when it yields ABORTED, and an error otherwise.
   */
  lemma ConnectionStatusMessageMeaning(errnos: seq<int>, hosted: bool, logText: string)
    ensures var code := StatusCodeOf(errnos);
      var m := ConnectionStatusMessage(code, hosted, logText);
      m.Some? && m.value.messageType == MessageTypeConnection &&
      (m.value.className == SuccessClassName <==> code == Some(CurleOk)) &&
      (m.value.className == WarningClassName <==> code == Some(CurleAbortedByCallback)) &&
      (m.value.className == ErrorClassName <==> code.None? || NetworkFailure(code.value))
  {
    StatusCodeRange(errnos);
  }

  // ---------------------------------------------------------------------------
  // Rendering a nested array as text
  // ---------------------------------------------------------------------------

  const Eol := "\n"
  const IdentPattern := "  "

  /** One line of the rendering: "ident key: value", a nested array on the following lines, indented. */
  function Line(entry: (string, PhpValue), ident: string): (r: string)
    ensures |r| > 0
    decreases entry, 0
  {
    var value := match entry.1
      case Arr(inner) => Eol + ConvertFrom(inner, ident + IdentPattern, "")
      case _ => ScalarToString(entry.1);
    ident + entry.0 + ": " + value
  }

  /** `convert_array_to_string`: lines appended to `result`, a line break before each unless `result` is ''. */
  function ConvertFrom(entries: seq<(string, PhpValue)>, ident: string, result: string): string
    decreases entries, 1
  {
    if entries == [] then result
    else
      var sep := if result != "" then result + Eol else result;
      ConvertFrom(entries[1..], ident, sep + Line(entries[0], ident))
  }

  function ConvertArrayToString(entries: seq<(string, PhpValue)>, ident: string): string
  {
    ConvertFrom(entries, ident, "")
  }

  function Lines(entries: seq<(string, PhpValue)>, ident: string): (r: seq<string>)
    ensures |r| == |entries|
  {
    if entries == [] then [] else [Line(entries[0], ident)] + Lines(entries[1..], ident)
  }

  lemma {:induction false} ConvertFromJoin(entries: seq<(string, PhpValue)>, ident: string, done: seq<string>)
    requires |done| > 0 && |done[0]| > 0
    ensures ConvertFrom(entries, ident, Join(Eol, done)) == Join(Eol, done + Lines(entries, ident))
    decreases |entries|
  {
    if entries != [] {
      var l := Line(entries[0], ident);
      var more, rest := done + [l], Lines(entries[1..], ident);
      JoinNotEmpty(Eol, done);
      ConvertFromStep(entries, ident, Join(Eol, done));
      JoinSnoc(Eol, done, l);
      assert more[0] == done[0];
      ConvertFromJoin(entries[1..], ident, more);
      assert Lines(entries, ident) == [l] + rest;
      assert more + rest == done + ([l] + rest);
    } else {
      assert done + [] == done;
    }
  }

  /** An implode whose first part is not empty is not empty. */
  lemma JoinNotEmpty(sep: string, parts: seq<string>)
    requires |parts| > 0 && |parts[0]| > 0
    ensures Join(sep, parts) != ""
  {
    if |parts| > 1 {
      assert |parts[0] + sep + Join(sep, parts[1..])| > 0;
    }
  }

  /** After a first line, each entry adds a line break and its line. */
  lemma ConvertFromStep(entries: seq<(string, PhpValue)>, ident: string, result: string)
    requires entries != [] && result != ""
    ensures ConvertFrom(entries, ident, result) == ConvertFrom(entries[1..], ident, result + Eol + Line(entries[0], ident))
  {
  }

  /**
   * The rendering is the lines of the entries, one per entry in order,
   * joined by line breaks: the `'' !== $result` test puts a break between
   * consecutive lines and nowhere else.
   */
  lemma ConvertIsJoin(entries: seq<(string, PhpValue)>, ident: string)
    ensures ConvertArrayToString(entries, ident) == Join(Eol, Lines(entries, ident))
  {
    if entries != [] {
      var l := Line(entries[0], ident);
      assert ConvertArrayToString(entries, ident) == ConvertFrom(entries[1..], ident, l) by {
        assert "" + l == l;
      }
      assert Join(Eol, [l]) == l;
      ConvertFromJoin(entries[1..], ident, [l]);
      assert [l] + Lines(entries[1..], ident) == Lines(entries, ident);
    }
  }

  // ---------------------------------------------------------------------------
  // System time
  // ---------------------------------------------------------------------------

  const SystemTimeThreshold: int := 300

  function Abs(n: int): nat
  {
    if n < 0 then -n else n
  }

  /**
   * `get_system_time_diff`: local minus remote seconds of the first recorded
   * pair; None when no pair is recorded or the remote date did not parse.
   */
  function SystemTimeDiff(pairs: Assoc<string, (int, Option<int>)>): Option<int>
  {
    if pairs == [] then None
    else match pairs[0].1.1
      case None => None
      case Some(remote) => Some(pairs[0].1.0 - remote)
  }

  /** `get_system_time_status` */
  function SystemTimeStatus(pairs: Assoc<string, (int, Option<int>)>): string
  {
    match SystemTimeDiff(pairs)
    case None => "Unknown"
    case Some(d) => if Abs(d) <= SystemTimeThreshold then "OK" else "Out of sync with " + SignedDecimal(d) + " seconds"
  }

  /** `get_system_time_message`: an error only when the difference is known and over the threshold. */
  function SystemTimeMessage(pairs: Assoc<string, (int, Option<int>)>): Option<Message>
  {
    match SystemTimeDiff(pairs)
    case Some(d) =>
      if Abs(d) > SystemTimeThreshold then
        Some(Message(MessageTypeSystemTime,
                     "The system time is out of sync with the gateway with " + SignedDecimal(d) + " seconds. Please check your system time.",
                     ErrorClassName))
      else None
    case None => None
  }

  /** Reads the difference back out of an "Out of sync" status. */
  function OutOfSyncSeconds(status: string): Option<int>
  {
    var prefix := "Out of sync with ";
    var suffix := " seconds";
    if |status| >= |prefix| + |suffix| && status[..|prefix|] == prefix && status[|status| - |suffix|..] == suffix
    then ParseSignedDecimal(status[|prefix|..|status| - |suffix|])
    else None
  }

  /**
   * The three outcomes of the system-time status: 'Unknown' exactly when no
   * usable pair is recorded, 'OK' exactly when the difference is within 300
   * seconds either way, and otherwise a text from which the signed difference
   * can be read back; the admin error message appears exactly in that last case.
   */
  lemma SystemTimeStatusMeaning(pairs: Assoc<string, (int, Option<int>)>)
    ensures SystemTimeStatus(pairs) == "Unknown" <==> SystemTimeDiff(pairs).None?
    ensures SystemTimeStatus(pairs) == "OK" <==>
      SystemTimeDiff(pairs).Some? && -300 <= SystemTimeDiff(pairs).value <= 300
    ensures SystemTimeDiff(pairs).Some? && Abs(SystemTimeDiff(pairs).value) > SystemTimeThreshold ==>
      OutOfSyncSeconds(SystemTimeStatus(pairs)) == SystemTimeDiff(pairs)
    ensures SystemTimeMessage(pairs).Some? <==>
      SystemTimeStatus(pairs) != "OK" && SystemTimeStatus(pairs) != "Unknown"
  {
    match SystemTimeDiff(pairs)
    case None =>
    case Some(d) =>
      if Abs(d) > SystemTimeThreshold {
        var s := SystemTimeStatus(pairs);
        var body := SignedDecimal(d);
        SignedDecimalRoundTrip(d);
        assert s == "Out of sync with " + body + " seconds";
        assert |s| > 2;
        assert s[..17] == "Out of sync with ";
        assert s[|s| - 8..] == " seconds";
        assert s[17..|s| - 8] == body;
      }
  }

  /** Only the first recorded host counts: pairs recorded later never change the status. */
  lemma SystemTimeFirstPairOnly(pairs: Assoc<string, (int, Option<int>)>, trail: seq<Attempt>)
    requires |pairs| > 0
    ensures |PairsAfter(pairs, trail)| > 0 && PairsAfter(pairs, trail)[0].0 == pairs[0].0
  {
    PairsAfterKeepsOrder(pairs, trail);
  }

  // ---------------------------------------------------------------------------
  // The hosted payment form's reply
  // ---------------------------------------------------------------------------

  /** The outcomes of `check_gateway_settings`. */
  datatype HpfResponse = HpfOk | HashInvalid | MidMissing | MidNotExists | NoResponse

  /** The string constant each outcome stands for. */
  function HpfResponseText(r: HpfResponse): string
  {
    match r
    case HpfOk => "OK"
    case HashInvalid => "HashDigest does not match"
    case MidMissing => "MerchantID is missing"
    case MidNotExists => "Merchant doesn't exist"
    case NoResponse => ""
  }

  /**
   * The classification of a delivered reply from its error span: no span
   * means the form accepted the settings; otherwise the first known text the
   * span contains, in the order hash, missing merchant, unknown merchant.
   */
  function HpfClassify(span: Option<string>): HpfResponse
  {
    match span
    case None => HpfOk
    case Some(m) =>
      if Contains(m, HpfResponseText(HashInvalid)) then HashInvalid
      else if Contains(m, HpfResponseText(MidMissing)) then MidMissing
      else if Contains(m, HpfResponseText(MidNotExists)) then MidNotExists
      else NoResponse
  }

  /** `check_gateway_settings` after the send: no reply at all is classified as no response. */
  function HpfResult(errno: int, span: Option<string>): HpfResponse
  {
    if errno == CurleOk then HpfClassify(span) else NoResponse
  }

  lemma ContainsItself(s: string)
    ensures Contains(s, s)
  {
    assert OccursAt(s, 0, s);
  }

  /**
   * The classification is sound and follows the stated precedence: an outcome
   * other than OK and no-response is given only when its text occurs in the
   * span and no earlier text does; the span that is exactly a known text is
   * classified as that text; OK only when there was a reply without a span.
   */
  lemma HpfResultMeaning(errno: int, span: Option<string>)
    ensures HpfResult(errno, span) == HpfOk <==> errno == CurleOk && span.None?
    ensures HpfResult(errno, span) == HashInvalid <==>
      errno == CurleOk && span.Some? && Contains(span.value, "HashDigest does not match")
    ensures HpfResult(errno, span) == MidMissing ==>
      span.Some? && Contains(span.value, "MerchantID is missing") && !Contains(span.value, "HashDigest does not match")
    ensures HpfResult(errno, span) == MidNotExists ==>
      span.Some? && Contains(span.value, "Merchant doesn't exist") && !Contains(span.value, "MerchantID is missing")
    ensures errno == CurleOk && span == Some("MerchantID is missing") ==> HpfResult(errno, span) == MidMissing
  {
    if span == Some("MerchantID is missing") {
      ContainsItself("MerchantID is missing");
      assert !Contains("MerchantID is missing", "HashDigest does not match");
    }
  }

  // ---------------------------------------------------------------------------
  // Merchant checks
  // ---------------------------------------------------------------------------

  /** PCRE's `\s`: space, tab, line feed, vertical tab, form feed, carriage return. */
  predicate RegexSpace(c: char)
  {
    c == ' ' || c == '\t' || c == '\n' || c == 11 as char || c == 12 as char || c == '\r'
  }

  predicate NonSpace(s: string)
  {
    forall i :: 0 <= i < |s| ==> !RegexSpace(s[i])
  }

  /** `\S+-\S+` matches the whole of t. */
  predicate DashedWord(t: string)
  {
    exists p :: 1 <= p < |t| - 1 && t[p] == '-' && NonSpace(t[..p]) && NonSpace(t[p + 1..])
  }

  /**
   * `merchant_id_format_valid`: `^\S+-\S+$`. The `$` anchor also matches
   * just before a final line feed, so the pattern may end there.
   */
  predicate MerchantIdFormatValid(mid: string)
  {
    DashedWord(mid) || (|mid| > 0 && mid[|mid| - 1] == '\n' && DashedWord(mid[..|mid| - 1]))
  }

  /**
   * The format check accepts exactly the identifiers without white space that
   * have a '-' somewhere other than at either end, except that one trailing
   * line feed is tolerated.
   */
  lemma MerchantIdFormatMeaning(mid: string)
    ensures var core := if |mid| > 0 && mid[|mid| - 1] == '\n' then mid[..|mid| - 1] else mid;
      MerchantIdFormatValid(mid) <==>
      NonSpace(core) && exists p :: 1 <= p < |core| - 1 && core[p] == '-'
  {
    var core := if |mid| > 0 && mid[|mid| - 1] == '\n' then mid[..|mid| - 1] else mid;
    if |mid| > 0 && mid[|mid| - 1] == '\n' {
      NoDashedWordBeforeLineFeed(mid);
    }
    DashedWordMeaning(core);
  }

  /** `\S+-\S+` matches t exactly when t has no white space and a '-' inside it. */
  lemma DashedWordMeaning(t: string)
    ensures DashedWord(t) <==> NonSpace(t) && exists p :: 1 <= p < |t| - 1 && t[p] == '-'
  {
    if NonSpace(t) && exists p :: 1 <= p < |t| - 1 && t[p] == '-' {
      var p :| 1 <= p < |t| - 1 && t[p] == '-';
      assert NonSpace(t[..p]) && NonSpace(t[p + 1..]);
    }
    if DashedWord(t) {
      var p :| 1 <= p < |t| - 1 && t[p] == '-' && NonSpace(t[..p]) && NonSpace(t[p + 1..]);
      forall i | 0 <= i < |t| ensures !RegexSpace(t[i]) {
        if i < p { assert t[i] == t[..p][i]; }
        else if i > p { assert t[i] == t[p + 1..][i - p - 1]; }
      }
    }
  }

  /** A string ending in a line feed is not itself a dashed word. */
  lemma NoDashedWordBeforeLineFeed(mid: string)
    requires |mid| > 0 && mid[|mid| - 1] == '\n'
    ensures !DashedWord(mid)
  {
    forall p | 1 <= p < |mid| - 1 && mid[p] == '-' ensures !NonSpace(mid[p + 1..]) {
      assert mid[p + 1..][|mid| - p - 2] == '\n';
    }
  }

  /** The documented example is accepted, with or without one trailing line feed; a missing dash is not. */
  lemma MerchantIdExamples()
    ensures MerchantIdFormatValid("ABCDEF-1234567")
    ensures MerchantIdFormatValid("ABCDEF-1234567\n")
    ensures !MerchantIdFormatValid("ABCDEF1234567")
  {
    var s := "ABCDEF-1234567";
    assert s[6] == '-' && NonSpace(s[..6]) && NonSpace(s[7..]);
    var t := "ABCDEF-1234567\n";
    assert t[..|t| - 1] == s;
    var u := "ABCDEF1234567";
    assert forall p :: 0 <= p < |u| ==> u[p] != '-';
  }

  /** `merchant_credentials_invalid` */
  predicate MerchantCredentialsInvalid(msg: string)
  {
    Contains(msg, "Input variable errors") || Contains(msg, "Invalid merchant details")
  }

  /**
   * What one log entry says about the merchant credentials, if anything: a
   * delivered reply with status exactly '0' confirms them, one with status
   * exactly '30' and an invalid-credentials message refutes them.
   */
  function EntryVerdict(e: LogEntry): Option<bool>
  {
    if e.curlErrno != CurleOk then None
    else if StatusOf(e.response) == StatusSuccess then Some(true)
    else if StatusOf(e.response) == StatusFailed && MerchantCredentialsInvalid(MessageOf(e.response)) then Some(false)
    else None
  }

  /** The verdict of the first entry that has one, scanning from the start. */
  function CredentialsVerdict(log: Assoc<string, LogEntry>): Option<bool>
  {
    if log == [] then None
    else if EntryVerdict(log[0].1).Some? then EntryVerdict(log[0].1)
    else CredentialsVerdict(log[1..])
  }

  /** The scan's verdict, when there is one, is that of the first entry that has one. */
  lemma {:induction false} CredentialsVerdictMeaning(log: Assoc<string, LogEntry>)
    ensures var r := CredentialsVerdict(log);
      r.Some? ==> exists i :: 0 <= i < |log| && EntryVerdict(log[i].1) == r &&
                    forall j :: 0 <= j < i ==> EntryVerdict(log[j].1).None?
  {
    if log != [] && EntryVerdict(log[0].1).None? {
      var r := CredentialsVerdict(log[1..]);
      if r.Some? {
        CredentialsVerdictMeaning(log[1..]);
        var i :| 0 <= i < |log[1..]| && EntryVerdict(log[1..][i].1) == r &&
                 forall j :: 0 <= j < i ==> EntryVerdict(log[1..][j].1).None?;
        FirstVerdictShift(log, i, r);
      }
    }
  }

  /** Behind an entry without a verdict, the first verdict of the rest is the first verdict of the whole. */
  lemma FirstVerdictShift(log: Assoc<string, LogEntry>, i: nat, r: Option<bool>)
    requires log != [] && EntryVerdict(log[0].1).None?
    requires i < |log| - 1 && EntryVerdict(log[1..][i].1) == r
    requires forall j :: 0 <= j < i ==> EntryVerdict(log[1..][j].1).None?
    ensures EntryVerdict(log[i + 1].1) == r
    ensures forall j :: 0 <= j < i + 1 ==> EntryVerdict(log[j].1).None?
  {
    forall j | 0 < j < i + 1 ensures log[j] == log[1..][j - 1] {
    }
  }

  /** The scan finds no verdict only when no entry has one. */
  lemma {:induction false} CredentialsNoVerdict(log: Assoc<string, LogEntry>)
    ensures CredentialsVerdict(log).None? ==> forall i :: 0 <= i < |log| ==> EntryVerdict(log[i].1).None?
  {
    if log != [] && EntryVerdict(log[0].1).None? {
      CredentialsNoVerdict(log[1..]);
      forall i | 1 <= i < |log| ensures log[i] == log[1..][i - 1] {
      }
    }
  }

  /** The scan of the settings messages: the first decisive entry sets the flag and ends the foreach. */
  method ScanCredentials(log: Assoc<string, LogEntry>) returns (r: Option<bool>)
    ensures r == CredentialsVerdict(log)
  {
    r := None;
    var i := 0;
    while i < |log|
      invariant 0 <= i <= |log|
      invariant r.None? && CredentialsVerdict(log[i..]) == CredentialsVerdict(log)
    {
      var e := log[i].1;
      if e.curlErrno == CurleOk {
        var status := StatusOf(e.response);
        if status == StatusSuccess {
          r := Some(true);
          assert log[i..][0] == log[i];
          return;
        } else if status == StatusFailed {
          var message := MessageOf(e.response);
          if MerchantCredentialsInvalid(message) {
            r := Some(false);
            assert log[i..][0] == log[i];
            return;
          }
        }
      }
      assert log[i..][0] == log[i] && log[i..][1..] == log[i + 1..];
      i := i + 1;
    }
  }

  // ---------------------------------------------------------------------------
  // The settings-message tables
  // ---------------------------------------------------------------------------

  const MsgMidFormat := "Gateway MerchantID is invalid. Please make sure the Gateway MerchantID matches the ABCDEF-1234567 format."
  const MsgAllValid := "Gateway MerchantID, Gateway Password, Gateway PreSharedKey and Gateway Hash Method are valid."
  const MsgCredentialsValid := "Gateway MerchantID and Gateway Password are valid."
  const MsgMidInvalid := "Gateway MerchantID is invalid."
  const MsgKeyOrHashInvalid := "Gateway PreSharedKey or/and Gateway Hash Method are invalid."
  const MsgPasswordInvalid := "Gateway Password is invalid."
  const MsgPasswordKeyOrHashInvalid := "Gateway Password, Gateway PreSharedKey or/and Gateway Hash Method are invalid."
  const MsgKeyAndHashUnverified := "Gateway PreSharedKey and Gateway Hash Method cannot be validated at this time."
  const MsgMidOrPasswordInvalid := "Gateway MerchantID or/and Gateway Password are invalid."
  const MsgCannotValidate := "The gateway settings cannot be validated at this time."

  function SettingsMessage(text: string, className: string): Message
  {
    Message(MessageTypeSettings, text, className)
  }

  /** The hosted method's table: the form's verdict, refined by what the log says about the credentials. */
  function HostedSettingsTable(hpf: HpfResponse, credentials: Option<bool>): Message
  {
    match hpf
    case HpfOk => SettingsMessage(MsgAllValid, SuccessClassName)
    case MidMissing => SettingsMessage(MsgMidInvalid, ErrorClassName)
    case MidNotExists => SettingsMessage(MsgMidInvalid, ErrorClassName)
    case HashInvalid =>
      if credentials == Some(true) then SettingsMessage(MsgKeyOrHashInvalid, ErrorClassName)
      else if credentials == Some(false) then SettingsMessage(MsgPasswordInvalid, ErrorClassName)
      else SettingsMessage(MsgPasswordKeyOrHashInvalid, ErrorClassName)
    case NoResponse =>
      if credentials == Some(true) then SettingsMessage(MsgKeyAndHashUnverified, WarningClassName)
      else if credentials == Some(false) then SettingsMessage(MsgMidOrPasswordInvalid, ErrorClassName)
      else SettingsMessage(MsgCannotValidate, WarningClassName)
  }

  /**
   * The direct method's table, consulted only when the log did not confirm
   * the credentials. OK has no case there, so it yields the empty array.
   */
  function DirectSettingsTable(hpf: HpfResponse, credentials: Option<bool>): Option<Message>
  {
    match hpf
    case HpfOk => None
    case MidMissing => Some(SettingsMessage(MsgMidInvalid, ErrorClassName))
    case MidNotExists => Some(SettingsMessage(MsgMidInvalid, ErrorClassName))
    case HashInvalid =>
      if credentials == Some(false) then Some(SettingsMessage(MsgPasswordInvalid, ErrorClassName))
      else Some(SettingsMessage(MsgCannotValidate, WarningClassName))
    case NoResponse =>
      if credentials == Some(false) then Some(SettingsMessage(MsgMidOrPasswordInvalid, ErrorClassName))
      else Some(SettingsMessage(MsgCannotValidate, WarningClassName))
  }

  /**
   * The hosted table gives a success only when the form accepted everything,
   * a warning only for an unanswered form when the credentials are not known
   * to be wrong, and an error in every other case; each (outcome, verdict)
   * pair selects a different text except the two merchant outcomes.
   */
  lemma HostedSettingsTableMeaning(hpf: HpfResponse, credentials: Option<bool>)
    ensures var m := HostedSettingsTable(hpf, credentials);
      m.messageType == MessageTypeSettings &&
      (m.className == SuccessClassName <==> hpf == HpfOk) &&
      (m.className == WarningClassName <==> hpf == NoResponse && credentials != Some(false)) &&
      (m.text == MsgMidInvalid <==> hpf == MidMissing || hpf == MidNotExists)
  {
  }

  /**
   * In the direct table a form problem other than the merchant ID is an error
   * only when the log showed the credentials to be wrong, and a warning
   * otherwise; an accepted form yields no message.
   */
  lemma DirectSettingsTableMeaning(hpf: HpfResponse, credentials: Option<bool>)
    ensures var m := DirectSettingsTable(hpf, credentials);
      (m.None? <==> hpf == HpfOk) &&
      (hpf == HashInvalid || hpf == NoResponse ==>
        m.Some? && (m.value.className == ErrorClassName <==> credentials == Some(false)) &&
        (m.value.className == WarningClassName <==> credentials != Some(false)))
  {
  }

  // ---------------------------------------------------------------------------
  // Payment time frame
  // ---------------------------------------------------------------------------

  /**
   * `within_payment_method_timeframe` with the order's last modification and
   * the current time in epoch seconds: a positive timeout limits the time
   * since the order was last modified; otherwise there is no limit.
   */
  predicate WithinPaymentMethodTimeframe(timeout: int, now: int, modified: int)
  {
    if timeout > 0 then now - modified < timeout else true
  }

  /** Expiry is final: once outside the time frame, every later moment is outside it too. */
  lemma TimeframeExpiryFinal(timeout: int, now: int, later: int, modified: int)
    requires now <= later && !WithinPaymentMethodTimeframe(timeout, now, modified)
    ensures !WithinPaymentMethodTimeframe(timeout, later, modified)
    ensures timeout > 0
  {
  }
}
