/**
 * The direct payment method (`WC_Paymentsense_Direct`): the card details are
 * taken on the checkout page and sent to the gateway as a card details
 * transaction; a card that asks for 3-D Secure sends the customer to the
 * card issuer's access control server (ACS), whose answer comes back as a
 * second request and is sent to the gateway as a 3-D Secure authentication.
 *
 * The direct object is modelled as the shared gateway client plus whether
 * the storefront's connection is encrypted. The order a request names is
 * passed in; what the request ends with (a payment result, a redirect, a
 * form) is its result.
 */
module Direct {
  import opened PhpStrings
  import opened PhpArrays
  import opened HashDigest
  import opened XmlExtract
  import opened FieldFilter
  import opened Transport
  import opened Diagnostics
  import opened Shop
  import opened Gateway
  import Hosted

  const DirectId := "paymentsense_direct"

  const MsgEncryptionRequired := "This module requires an encrypted connection. "
  const MsgEnableSsl := "Please enable SSL/TLS."
  const MsgUnexpectedError := "An unexpected error has occurred. "
  const PendingNote := "Pending payment"
  const SecureSuccessHead := "Payment (3DS) processed successfully. "
  const SecureFailedHead := "Payment (3DS) failed due to: "
  const LineBreak := "<br />"
  /** The session key under which a 3-D Secure challenge waits for the ACS. */
  const SessionKey := "paymentsense"

  // ---------------------------------------------------------------------------
  // Availability and the payment form
  // ---------------------------------------------------------------------------

  /** `is_valid_for_use`: an encrypted connection, and merchant ID and password set (PHP's empty()). */
  predicate ValidForUse(secure: bool, merchantId: string, password: string)
  {
    secure && !PhpEmpty(merchantId) && !PhpEmpty(password)
  }

  /** What `payment_fields` shows on the checkout page: the card form, or a message instead of it. */
  datatype PaymentFieldsView = CardForm | Notification(text: string)

  function PaymentFields(secure: bool, merchantId: string, password: string): PaymentFieldsView
  {
    if ValidForUse(secure, merchantId, password) then CardForm
    else if !secure then Notification(MsgEncryptionRequired + MsgEnableSsl)
    else Notification(Hosted.MsgNotConfigured)
  }

  // ---------------------------------------------------------------------------
  // The checkout form's validation
  // ---------------------------------------------------------------------------

  /*
   * The card name's label is kept as the plugin's file spells it: its
   * apostrophe was saved as the three characters a UTF-8 right single
   * quotation mark reads as in Windows-1252.
   */
  const CardNameLabel := "Cardholder\U{e2}\U{20ac}\U{2122}s Name"
  const CardNumberLabel := "Card Number"
  const Cv2Label := "CVV/CV2 Number"
  const ExpMonthLabel := "Expiration month"
  const ExpYearLabel := "Expiration year"

  /** The card fields the checkout form must fill in: form key and label, in the order they are checked. */
  const RequiredCardFields: seq<(string, string)> := [
    ("psense_ccname", CardNameLabel),
    ("psense_ccnum", CardNumberLabel),
    ("psense_cv2", Cv2Label),
    ("psense_expmonth", ExpMonthLabel),
    ("psense_expyear", ExpYearLabel)]

  const EmptyFieldTail := "\" form field is empty."

  function EmptyFieldNotice(fieldLabel: string): Notice
  {
    Notice("\"" + fieldLabel + EmptyFieldTail, "error")
  }

  /** The notices the validation adds: one per field left empty (PHP's empty()), in order. */
  function EmptyFieldNotices(req: HttpRequest, fields: seq<(string, string)>): seq<Notice>
    decreases |fields|
  {
    if fields == [] then []
    else
      (if PhpEmpty(PostData(req, fields[0].0)) then [EmptyFieldNotice(fields[0].1)] else []) +
      EmptyFieldNotices(req, fields[1..])
  }

  /** Every field of the list is filled in. */
  predicate AllFilled(req: HttpRequest, fields: seq<(string, string)>)
  {
    forall i :: 0 <= i < |fields| ==> !PhpEmpty(PostData(req, fields[i].0))
  }

  // ---------------------------------------------------------------------------
  // The card details transaction
  // ---------------------------------------------------------------------------

  /** The order's billing properties, as `get_order_property` reads them (None where it gives null). */
  datatype Billing = Billing(address1: Option<string>, address2: Option<string>, city: Option<string>,
                             state: Option<string>, postcode: Option<string>, email: Option<string>,
                             phone: Option<string>)

  /**
   * The values the sale works out from the shop rather than the order's own
   * properties: the amount in minor units, the currency and country ISO
   * codes and the customer's IP address.
   */
  datatype SaleContext = SaleContext(amountMinor: string, currencyCode: string, countryCode: string,
                                     ipAddress: string)

  /** The fields of the card details transaction, before filtering, in the order they are listed. */
  function SaleFields(merchantId: string, password: string, transactionType: string, orderPrefix: string,
                      orderId: string, ctx: SaleContext, billing: Billing, req: HttpRequest)
    : Assoc<string, Option<string>>
  {
    [("MerchantID", Some(merchantId)), ("Password", Some(password)), ("Amount", Some(ctx.amountMinor)),
     ("CurrencyCode", Some(ctx.currencyCode)), ("TransactionType", Some(transactionType)),
     ("OrderID", Some(orderId)), ("OrderDescription", Some(orderPrefix + orderId)),
     ("CardName", Some(PostData(req, "psense_ccname"))), ("CardNumber", Some(PostData(req, "psense_ccnum"))),
     ("ExpMonth", Some(PostData(req, "psense_expmonth"))), ("ExpYear", Some(PostData(req, "psense_expyear"))),
     ("CV2", Some(PostData(req, "psense_cv2"))), ("IssueNumber", Some("")),
     ("Address1", billing.address1), ("Address2", billing.address2), ("Address3", Some("")),
     ("Address4", Some("")), ("City", billing.city), ("State", billing.state), ("Postcode", billing.postcode),
     ("CountryCode", Some(ctx.countryCode)), ("EmailAddress", billing.email), ("PhoneNumber", billing.phone),
     ("IPAddress", Some(ctx.ipAddress))]
  }

  /** The payload sent: nulls become '', every value is filtered with '&' replaced, then cut to its limit. */
  function SalePayload(merchantId: string, password: string, transactionType: string, orderPrefix: string,
                       orderId: string, ctx: SaleContext, billing: Billing, req: HttpRequest)
    : Assoc<string, string>
  {
    LengthRestricted(FilterFields(SaleFields(merchantId, password, transactionType, orderPrefix, orderId, ctx,
                                             billing, req), true))
  }

  /** The transaction status variable: a 3-D Secure challenge carries what the ACS redirect needs. */
  datatype SaleStatus =
    | SaleFailed
    | SaleSucceeded
    | SaleIncomplete(pareq: string, crossReference: string, acsUrl: string)

  /** The sale loop's variables: the status, the message, and the cross reference a valid reply stored. */
  datatype SaleState = SaleState(status: SaleStatus, message: string, crossRef: Option<string>)

  const SaleStart := SaleState(SaleFailed, "", None)

  /**
   * The `switch` over a valid reply's status code (a loose comparison): '0'
   * succeeds, '3' asks for 3-D Secure, '20' (a duplicate) takes the result
   * of the earlier transaction when the reply carries it, and anything else
   * fails. The second component is the message kept.
   */
  function SaleVerdict(code: string, message: string, response: string): (SaleStatus, string)
  {
    if LooseEquals(code, StatusSuccess) then (SaleSucceeded, message)
    else if LooseEquals(code, StatusIncomplete) then
      (SaleIncomplete(GetXmlValue("PaREQ", response, AnyLine), GetXmlCrossReference(response),
                      GetXmlValue("ACSURL", response, AnyLine)), message)
    else if LooseEquals(code, StatusDuplicate) then DuplicateVerdict(message, response)
    else (SaleFailed, message)
  }

  /** A duplicate reply: the earlier result's message, and success only for its status exactly '0'. */
  function DuplicateVerdict(message: string, response: string): (SaleStatus, string)
  {
    match PreviousTransactionResult(response)
    case Some(block) =>
      (if GetXmlValue("StatusCode", block, AnyLine) == StatusSuccess then SaleSucceeded else SaleFailed,
       GetXmlValue("Message", block, AnyLine))
    case None => (SaleFailed, message)
  }

  /**
   * What one send of the sale loop does to its variables: a reply sets the
   * message; a numeric status other than '30' is valid, stores the cross
   * reference and settles the status; while the status is 'failed' the
   * reply's Detail is appended to the message.
   */
  function SaleStep(st: SaleState, a: Attempt): SaleState
  {
    if a.errno != CurleOk then st
    else
      var code := StatusOf(a.response);
      var message := MessageOf(a.response);
      if !IsNumeric(code) then st.(message := message)
      else
        var valid := code != StatusFailed;
        var v := if valid then SaleVerdict(code, message, a.response) else (st.status, message);
        SaleState(v.0, if v.0.SaleFailed? then v.1 + LineBreak + DetailOf(a.response) else v.1,
                  if valid then Some(GetXmlCrossReference(a.response)) else st.crossRef)
  }

  function SaleFold(st: SaleState, trail: seq<Attempt>): SaleState
    decreases |trail|
  {
    if trail == [] then st else SaleFold(SaleStep(st, trail[0]), trail[1..])
  }

  /** The result `process_payment` returns: 'success' or 'fail', and where to go ('' as None). */
  datatype PaymentResult = PaymentResult(result: string, redirect: Option<Location>)

  /** The order's status once a sale with this status is recorded. */
  function SaleOrderStatus(s: SaleStatus): string
  {
    match s
    case SaleFailed => "failed"
    case SaleSucceeded => "processing"
    case SaleIncomplete(_, _, _) => "pending"
  }

  /** What the end of the sale does: to the order, to the notices, and the result. */
  datatype SaleHandling = SaleHandling(events: seq<OrderEvent>, metaOps: seq<MetaOp>, notices: seq<Notice>,
                                       result: PaymentResult)

  function FailureNotice(message: string): Notice
  {
    Notice(Hosted.FailedHead + message + LineBreak + Hosted.CheckCardDetails, "error")
  }

  function SaleHandled(st: SaleState): SaleHandling
  {
    var ops := if st.crossRef.Some? then [SetMeta("CrossRef", st.crossRef.value)] else [];
    match st.status
    case SaleIncomplete(_, _, _) =>
      SaleHandling([], ops, [], PaymentResult("success", Some(CheckoutPaymentUrl(true))))
    case SaleSucceeded =>
      SaleHandling([PaymentCompleted, NoteAdded(Hosted.SuccessNoteHead + st.message)], ops, [],
                   PaymentResult("success", Some(ReturnUrl)))
    case SaleFailed =>
      SaleHandling([StatusChanged("failed", Hosted.FailedHead + ToLower(st.message))], ops,
                   [FailureNotice(st.message)], PaymentResult("fail", None))
  }

  /** The session entry a 3-D Secure challenge leaves for the ACS redirect. */
  function ChallengeSession(s: SaleStatus): PhpValue
    requires s.SaleIncomplete?
  {
    Arr([("pareq", Str(s.pareq)), ("crossref", Str(s.crossReference)), ("url", Str(s.acsUrl))])
  }

  // ---------------------------------------------------------------------------
  // 3-D Secure
  // ---------------------------------------------------------------------------

  /** PHP's empty() on a session value. */
  predicate ValueEmpty(v: PhpValue)
  {
    match v
    case Null => true
    case Bool(b) => !b
    case Int(i) => i == 0
    case Str(s) => PhpEmpty(s)
    case Arr(entries) => entries == []
  }

  /** A string entry of a session array; anything else reads as ''. */
  function EntryText(entries: seq<(string, PhpValue)>, key: string): string
  {
    match Lookup(entries, key)
    case Some(v) => if v.Str? then v.s else ""
    case None => ""
  }

  /** The self-posting form a page ends with: where it posts and its hidden fields. */
  datatype PostForm = PostForm(action: string, fields: Assoc<string, string>)

  /**
   * `process_3dsecure_request`: with a challenge in the session, the form
   * that posts it to the ACS (the MD field carries the cross reference);
   * nothing without one. termUrl is the address the ACS answers to.
   */
  function AcsRedirect(session: Assoc<string, PhpValue>, termUrl: string): Option<PostForm>
  {
    match Lookup(session, SessionKey)
    case None => None
    case Some(v) =>
      if ValueEmpty(v) then None
      else
        var entries := if v.Arr? then v.entries else [];
        Some(PostForm(EntryText(entries, "url"),
                      [("TermUrl", termUrl), ("MD", EntryText(entries, "crossref")),
                       ("PaReq", EntryText(entries, "pareq"))]))
  }

  /** The ACS's answer arrives with both PaRes and MD filled in. */
  predicate AcsAnswer(req: HttpRequest)
  {
    !PhpEmpty(PostData(req, "PaRes")) && !PhpEmpty(PostData(req, "MD"))
  }

  /** The form that hands the ACS's answer back to the shop's page: MD travels as CrossReference. */
  function ReturnForm(req: HttpRequest, payUrl: string): PostForm
  {
    PostForm(payUrl, [("CrossReference", PostData(req, "MD")), ("PaRes", PostData(req, "PaRes"))])
  }

  /** The 3-D Secure authentication's fields; they are sent unfiltered. */
  function SecurePayload(merchantId: string, password: string, req: HttpRequest): Assoc<string, string>
  {
    [("MerchantID", merchantId), ("Password", password), ("CrossReference", PostData(req, "CrossReference")),
     ("PaRES", PostData(req, "PaRes"))]
  }

  /**
   * The status code and message a valid authentication reply is judged by:
   * a duplicate ('20' exactly) that carries the earlier result is judged by
   * that result.
   */
  function SecureVerdict(response: string): (string, string)
  {
    var block := if StatusOf(response) == StatusDuplicate then PreviousTransactionResult(response) else None;
    match block
    case Some(b) => (GetXmlValue("StatusCode", b, AnyLine), GetXmlValue("Message", b, AnyLine))
    case None => (StatusOf(response), MessageOf(response))
  }

  /** How a 3-D Secure answer ends: the page that relays it, or a redirect. */
  datatype SecureReply = Relay(form: PostForm) | SentTo(to: Location)

  /** What the authentication does: to the order, to the notices and the cart, and where the customer goes. */
  datatype SecureHandling = SecureHandling(events: seq<OrderEvent>, metaOps: seq<MetaOp>, notices: seq<Notice>,
                                           emptiesCart: bool, to: Location)

  /**
   * The outcome of the authentication loop: the first valid reply decides
   * ('0', compared loosely, succeeds; anything else fails the order); no
   * valid reply at all is an unexpected error.
   */
  function SecureHandled(trail: seq<Attempt>): SecureHandling
  {
    if Stopped(ThreeDSecure, trail) then
      var a := trail[|trail| - 1];
      var (code, message) := SecureVerdict(a.response);
      if LooseEquals(code, StatusSuccess) then
        SecureHandling([PaymentCompleted, NoteAdded(SecureSuccessHead + message)],
                       [SetMeta("AuthCode", GetXmlValue("AuthCode", a.response, AnyLine)),
                        SetMeta("CrossRef", GetXmlCrossReference(a.response))],
                       [], true, OrderReceivedUrl)
      else
        SecureHandling([StatusChanged("failed", SecureFailedHead + message)], [], [FailureNotice(message)], false,
                       OrderPayEndpoint)
    else
      SecureHandling([StatusChanged("failed", MsgUnexpectedError)], [], [Notice(MsgUnexpectedError, "error")], false,
                     OrderPayEndpoint)
  }

  /** The loop of `validate_fields`: one notice per empty field, in order; true when none is empty. */
  method CheckFilled(req: HttpRequest, shop: Storefront, fields: seq<(string, string)>) returns (ok: bool)
    modifies shop
    ensures shop.notices == old(shop.notices) + EmptyFieldNotices(req, fields)
    ensures ok <==> AllFilled(req, fields)
    ensures shop.session == old(shop.session) && shop.cartEmptied == old(shop.cartEmptied)
  {
    ok := true;
    var i := 0;
    while i < |fields|
      invariant 0 <= i <= |fields|
      invariant shop.notices == old(shop.notices) + EmptyFieldNotices(req, fields[..i])
      invariant ok <==> AllFilled(req, fields[..i])
      invariant shop.session == old(shop.session) && shop.cartEmptied == old(shop.cartEmptied)
    {
      EmptyFieldNoticesSnoc(req, fields, i);
      AllFilledSnoc(req, fields, i);
      if PhpEmpty(PostData(req, fields[i].0)) {
        var notice := EmptyFieldNotice(fields[i].1);
        shop.AddNotice(notice.text, notice.noticeType);
        ok := false;
      }
      assert fields[..i + 1][..i] == fields[..i];
      i := i + 1;
    }
    assert fields[..|fields|] == fields;
  }

  class DirectGateway {
    const base: Gateway
    /** `is_connection_secure()` for the current request */
    const secure: bool

    constructor(base: Gateway, secure: bool)
      requires base.kind == DirectMethod
      ensures this.base == base && this.base.kind == DirectMethod && this.secure == secure
    {
      this.base := base;
      this.secure := secure;
    }

    /**
     * `validate_fields`: over an encrypted connection, one notice per empty
     * card field and success only when none is empty; otherwise a single
     * notice and failure.
     */
    method ValidateFields(req: HttpRequest, shop: Storefront) returns (ok: bool)
      modifies shop
      ensures secure ==>
        shop.notices == old(shop.notices) + EmptyFieldNotices(req, RequiredCardFields) &&
        (ok <==> AllFilled(req, RequiredCardFields))
      ensures !secure ==> !ok && shop.notices == old(shop.notices) + [Notice(MsgEncryptionRequired, "error")]
      ensures shop.session == old(shop.session) && shop.cartEmptied == old(shop.cartEmptied)
    {
      if !secure {
        shop.AddNotice(MsgEncryptionRequired, "error");
        return false;
      }
      ok := CheckFilled(req, shop, RequiredCardFields);
    }

    /**
     * `process_payment`: the order becomes pending and the card details
     * transaction runs the failover loop (three sends per entry point) until
     * a valid reply. A 3-D Secure challenge is left in the session and the
     * customer is sent to the payment page; a success completes the payment;
     * anything else fails the order and tells the customer why.
     */
    method ProcessPayment(order: Order, shop: Storefront, ctx: SaleContext, billing: Billing, req: HttpRequest)
      returns (result: PaymentResult)
      modifies base`sendCount, base`datetimePairs, order, shop
      ensures var payload := SalePayload(base.merchantId, base.password, base.transactionType, base.orderPrefix,
                                         order.id, ctx, billing, req);
        var trail := Trail(base.network, old(base.sendCount), payload, base.port4430Setting, false,
                           StopRule(Sale), 3);
        var st := SaleFold(SaleStart, trail);
        var h := SaleHandled(st);
        order.events == old(order.events) + [StatusChanged("pending", PendingNote)] + h.events &&
        order.status == SaleOrderStatus(st.status) &&
        order.meta == ApplyMeta(old(order.meta), h.metaOps) &&
        shop.notices == old(shop.notices) + h.notices &&
        shop.session == (if st.status.SaleIncomplete? then Put(old(shop.session), SessionKey, ChallengeSession(st.status))
                         else old(shop.session)) &&
        result == h.result &&
        base.sendCount == old(base.sendCount) + |trail| &&
        base.datetimePairs == PairsAfter(old(base.datetimePairs), trail)
      ensures shop.cartEmptied == old(shop.cartEmptied)
    {
      var payload := SalePayload(base.merchantId, base.password, base.transactionType, base.orderPrefix, order.id,
                                 ctx, billing, req);
      result := RunSale(order, shop, payload);
    }

    /** The sale for a payload: the order becomes pending, the loop runs, its outcome is recorded. */
    method RunSale(order: Order, shop: Storefront, payload: Assoc<string, string>) returns (result: PaymentResult)
      modifies base`sendCount, base`datetimePairs, order, shop
      ensures var trail := Trail(base.network, old(base.sendCount), payload, base.port4430Setting, false,
                                 StopRule(Sale), 3);
        var st := SaleFold(SaleStart, trail);
        var h := SaleHandled(st);
        order.events == old(order.events) + [StatusChanged("pending", PendingNote)] + h.events &&
        order.status == SaleOrderStatus(st.status) &&
        order.meta == ApplyMeta(old(order.meta), h.metaOps) &&
        shop.notices == old(shop.notices) + h.notices &&
        shop.session == (if st.status.SaleIncomplete? then Put(old(shop.session), SessionKey, ChallengeSession(st.status))
                         else old(shop.session)) &&
        result == h.result &&
        base.sendCount == old(base.sendCount) + |trail| &&
        base.datetimePairs == PairsAfter(old(base.datetimePairs), trail)
      ensures shop.cartEmptied == old(shop.cartEmptied)
    {
      order.UpdateStatus("pending", PendingNote);
      var trail := base.Failover(payload, StopRule(Sale), 3, false);
      var st := SaleFold(SaleStart, trail);
      result := RecordSale(order, shop, st);
    }

    /** The end of the sale, once the loop's variables are known. */
    method RecordSale(order: Order, shop: Storefront, st: SaleState) returns (result: PaymentResult)
      modifies order, shop
      ensures var h := SaleHandled(st);
        order.events == old(order.events) + h.events &&
        order.meta == ApplyMeta(old(order.meta), h.metaOps) &&
        shop.notices == old(shop.notices) + h.notices &&
        shop.session == (if st.status.SaleIncomplete? then Put(old(shop.session), SessionKey, ChallengeSession(st.status))
                         else old(shop.session)) &&
        result == h.result
      ensures order.status == (if st.status.SaleIncomplete? then old(order.status) else SaleOrderStatus(st.status))
      ensures shop.cartEmptied == old(shop.cartEmptied)
    {
      ghost var meta0 := order.meta;
      if st.crossRef.Some? {
        order.UpdateMeta("CrossRef", st.crossRef.value);
        ApplyMetaSnoc(meta0, [], SetMeta("CrossRef", st.crossRef.value));
      } else {
        assert order.meta == ApplyMeta(meta0, []);
      }
      match st.status
      case SaleIncomplete(pareq, crossReference, acsUrl) =>
        shop.SetSession(SessionKey, ChallengeSession(st.status));
        assert shop.notices == old(shop.notices) + [];
        assert order.events == old(order.events) + [];
        result := PaymentResult("success", Some(CheckoutPaymentUrl(true)));
      case SaleSucceeded =>
        order.PaymentComplete();
        order.AddNote(Hosted.SuccessNoteHead + st.message);
        assert shop.notices == old(shop.notices) + [];
        result := PaymentResult("success", Some(ReturnUrl));
      case SaleFailed =>
        order.UpdateStatus("failed", Hosted.FailedHead + ToLower(st.message));
        shop.AddNotice(Hosted.FailedHead + st.message + LineBreak + Hosted.CheckCardDetails, "error");
        result := PaymentResult("fail", None);
    }

    /**
     * `process_3dsecure_response`: the ACS's answer is first handed back to
     * the payment page (payUrl) by a self-posting form; that second request
     * runs the authentication for the order, unless the order is already
     * paid.
     */
    method Process3DSecureResponse(req: HttpRequest, payUrl: string, order: Order, shop: Storefront)
      returns (out: SecureReply)
      modifies base`sendCount, base`datetimePairs, order, shop
      ensures AcsAnswer(req) ==>
        out == Relay(ReturnForm(req, payUrl)) && base.sendCount == old(base.sendCount) &&
        order.events == old(order.events) && shop.notices == old(shop.notices)
      ensures !AcsAnswer(req) && old(order.status) == "processing" ==>
        out == SentTo(CheckoutPaymentUrl(false)) && base.sendCount == old(base.sendCount) &&
        order.events == old(order.events) + [NoteAdded(Hosted.UnexpectedCallbackNote)] &&
        shop.notices == old(shop.notices) + [Notice(Hosted.MsgAlreadyPaid, "error")]
      ensures !AcsAnswer(req) && old(order.status) != "processing" ==>
        var trail := Trail(base.network, old(base.sendCount), SecurePayload(base.merchantId, base.password, req),
                           base.port4430Setting, false, StopRule(ThreeDSecure), 3);
        var h := SecureHandled(trail);
        out == SentTo(h.to) &&
        order.events == old(order.events) + h.events &&
        order.meta == ApplyMeta(old(order.meta), h.metaOps) &&
        shop.notices == old(shop.notices) + h.notices &&
        shop.cartEmptied == (old(shop.cartEmptied) || h.emptiesCart) &&
        order.status == StatusAfter(old(order.status), h.events) &&
        base.sendCount == old(base.sendCount) + |trail| &&
        base.datetimePairs == PairsAfter(old(base.datetimePairs), trail)
      ensures AcsAnswer(req) || old(order.status) == "processing" ==>
        order.meta == old(order.meta) && order.status == old(order.status) &&
        shop.cartEmptied == old(shop.cartEmptied) && base.datetimePairs == old(base.datetimePairs)
      ensures shop.session == old(shop.session)
    {
      if AcsAnswer(req) {
        return Relay(ReturnForm(req, payUrl));
      }
      if order.status == "processing" {
        order.AddNote(Hosted.UnexpectedCallbackNote);
        shop.AddNotice(Hosted.MsgAlreadyPaid, "error");
        return SentTo(CheckoutPaymentUrl(false));
      }
      var payload := SecurePayload(base.merchantId, base.password, req);
      var trail := base.Failover(payload, StopRule(ThreeDSecure), 3, false);
      out := RecordAuthentication(order, shop, trail);
    }

    /** The end of the authentication, once its sends are known. */
    method RecordAuthentication(order: Order, shop: Storefront, trail: seq<Attempt>) returns (out: SecureReply)
      modifies order, shop
      ensures var h := SecureHandled(trail);
        out == SentTo(h.to) &&
        order.events == old(order.events) + h.events &&
        order.status == StatusAfter(old(order.status), h.events) &&
        order.meta == ApplyMeta(old(order.meta), h.metaOps) &&
        shop.notices == old(shop.notices) + h.notices &&
        shop.cartEmptied == (old(shop.cartEmptied) || h.emptiesCart)
      ensures shop.session == old(shop.session)
    {
      SecureSucceedsIff(trail, order.status);
      if !Stopped(ThreeDSecure, trail) {
        AuthenticationFailed(order, shop, MsgUnexpectedError, Notice(MsgUnexpectedError, "error"));
        return SentTo(OrderPayEndpoint);
      }
      var a := trail[|trail| - 1];
      var (code, message) := SecureVerdict(a.response);
      if LooseEquals(code, StatusSuccess) {
        AuthenticationSucceeded(order, shop, a.response, message);
        out := SentTo(OrderReceivedUrl);
      } else {
        AuthenticationFailed(order, shop, SecureFailedHead + message, FailureNotice(message));
        out := SentTo(OrderPayEndpoint);
      }
    }

    /** A successful authentication: the reference numbers stored, the payment completed and noted, the cart emptied. */
    method AuthenticationSucceeded(order: Order, shop: Storefront, response: string, message: string)
      modifies order, shop
      ensures order.events == old(order.events) + [PaymentCompleted, NoteAdded(SecureSuccessHead + message)]
      ensures order.status == "processing"
      ensures order.meta == ApplyMeta(old(order.meta), [SetMeta("AuthCode", GetXmlValue("AuthCode", response, AnyLine)),
                                                         SetMeta("CrossRef", GetXmlCrossReference(response))])
      ensures shop.notices == old(shop.notices) + [] && shop.cartEmptied && shop.session == old(shop.session)
    {
      var authCode := GetXmlValue("AuthCode", response, AnyLine);
      var crossRef := GetXmlCrossReference(response);
      ApplyTwoMeta(order.meta, SetMeta("AuthCode", authCode), SetMeta("CrossRef", crossRef));
      order.UpdateMeta("AuthCode", authCode);
      order.UpdateMeta("CrossRef", crossRef);
      order.PaymentComplete();
      order.AddNote(SecureSuccessHead + message);
      shop.EmptyCart();
      assert shop.notices == old(shop.notices) + [];
    }

    /** A failed authentication: the order marked failed with the note, one error notice for the customer. */
    method AuthenticationFailed(order: Order, shop: Storefront, note: string, notice: Notice)
      modifies order, shop
      ensures order.events == old(order.events) + [StatusChanged("failed", note)]
      ensures order.status == "failed"
      ensures order.meta == ApplyMeta(old(order.meta), [])
      ensures shop.notices == old(shop.notices) + [notice]
      ensures shop.cartEmptied == old(shop.cartEmptied) && shop.session == old(shop.session)
    {
      order.UpdateStatus("failed", note);
      shop.AddNotice(notice.text, notice.noticeType);
    }

    /**
     * `get_connection_settings_message`: an ill-formed merchant ID is
     * reported at once; credentials the probe's log confirmed are reported
     * valid without asking the hosted form; otherwise the form's verdict
     * selects the message (none when it accepted the settings).
     */
    method GetConnectionSettingsMessage(textFormat: bool, sample: Assoc<string, Option<string>>,
                                        errorSpan: string -> Option<string>) returns (r: Hosted.SettingsReply)
      requires UniqueKeys(sample) && base.kind == DirectMethod
      modifies base`hashMethod, base`sendCount, base`datetimePairs, base`hpfLog
      ensures !MerchantIdFormatValid(base.merchantId) || CredentialsVerdict(base.ggepLog) == Some(true) ==>
        base.sendCount == old(base.sendCount) && base.hpfLog == old(base.hpfLog) &&
        base.datetimePairs == old(base.datetimePairs) && base.hashMethod == old(base.hashMethod)
      ensures !MerchantIdFormatValid(base.merchantId) ==>
        r == Hosted.Rendered(textFormat, Some(SettingsMessage(MsgMidFormat, ErrorClassName)))
      ensures MerchantIdFormatValid(base.merchantId) && CredentialsVerdict(base.ggepLog) == Some(true) ==>
        r == Hosted.Rendered(textFormat, Some(SettingsMessage(MsgCredentialsValid, SuccessClassName)))
      ensures MerchantIdFormatValid(base.merchantId) && CredentialsVerdict(base.ggepLog) != Some(true) ==>
        var a := Send(base.network, old(base.sendCount), PaymentFormUrl,
                      HpfFields(base.merchantId, base.password, base.preSharedKey, base.hashMethod, base.digests, sample),
                      base.port4430Setting, true);
        base.hashMethod == "SHA1" &&
        r == Hosted.Rendered(textFormat, DirectSettingsTable(HpfResult(a.errno, errorSpan(a.response)),
                                                             CredentialsVerdict(base.ggepLog))) &&
        base.hpfLog == Some(HpfLogEntry(a, errorSpan)) &&
        base.sendCount == old(base.sendCount) + 1 &&
        base.datetimePairs == Recorded(old(base.datetimePairs), a)
    {
      var m: Option<Message>;
      if !MerchantIdFormatValid(base.merchantId) {
        m := Some(SettingsMessage(MsgMidFormat, ErrorClassName));
      } else {
        var credentials := ScanCredentials(base.ggepLog);
        if credentials == Some(true) {
          m := Some(SettingsMessage(MsgCredentialsValid, SuccessClassName));
        } else {
          var response := base.CheckGatewaySettings(sample, errorSpan);
          m := DirectSettingsTable(response, credentials);
        }
      }
      if textFormat {
        r := Hosted.SettingsString(SettingsText(m));
      } else {
        r := Hosted.SettingsArray(m);
      }
    }
  }

  // ---------------------------------------------------------------------------
  // Properties
  // ---------------------------------------------------------------------------

  lemma {:induction false} EmptyFieldNoticesSnoc(req: HttpRequest, fields: seq<(string, string)>, i: nat)
    requires i < |fields|
    ensures EmptyFieldNotices(req, fields[..i + 1]) ==
      EmptyFieldNotices(req, fields[..i]) +
      (if PhpEmpty(PostData(req, fields[i].0)) then [EmptyFieldNotice(fields[i].1)] else [])
    decreases i
  {
    var prefix := fields[..i + 1];
    if i > 0 {
      assert prefix[1..] == fields[1..][..i];
      assert fields[..i][1..] == fields[1..][..i - 1];
      EmptyFieldNoticesSnoc(req, fields[1..], i - 1);
    } else {
      assert prefix[1..] == [];
    }
  }

  lemma AllFilledSnoc(req: HttpRequest, fields: seq<(string, string)>, i: nat)
    requires i < |fields|
    ensures AllFilled(req, fields[..i + 1]) <==> AllFilled(req, fields[..i]) && !PhpEmpty(PostData(req, fields[i].0))
  {
    assert forall j :: 0 <= j < i ==> fields[..i + 1][j] == fields[..i][j];
    assert fields[..i + 1][i] == fields[i];
  }

  /**
   * The validation's notices say exactly which fields are empty: there is
   * none exactly when every field is filled in, one per empty field, each
   * an error naming the field's label.
   */
  lemma {:induction false} EmptyFieldNoticesMeaning(req: HttpRequest, fields: seq<(string, string)>)
    ensures EmptyFieldNotices(req, fields) == [] <==> AllFilled(req, fields)
    ensures |EmptyFieldNotices(req, fields)| <= |fields|
    ensures forall n :: n in EmptyFieldNotices(req, fields) ==> n.noticeType == "error" && NamesEmptyField(req, fields, n)
    decreases |fields|
  {
    if fields != [] {
      var rest := fields[1..];
      EmptyFieldNoticesMeaning(req, rest);
      assert AllFilled(req, fields) <==> !PhpEmpty(PostData(req, fields[0].0)) && AllFilled(req, rest) by {
        assert forall i :: 0 <= i < |rest| ==> rest[i] == fields[i + 1];
      }
      forall n | n in EmptyFieldNotices(req, fields)
        ensures n.noticeType == "error" && NamesEmptyField(req, fields, n)
      {
        if n !in EmptyFieldNotices(req, rest) {
          assert PhpEmpty(PostData(req, fields[0].0)) && n == EmptyFieldNotice(fields[0].1);
        } else {
          var i :| 0 <= i < |rest| && PhpEmpty(PostData(req, rest[i].0)) && n == EmptyFieldNotice(rest[i].1);
          assert rest[i] == fields[i + 1];
        }
      }
    }
  }

  /** The notice is the one for a field of the list that is empty. */
  predicate NamesEmptyField(req: HttpRequest, fields: seq<(string, string)>, n: Notice)
  {
    exists i :: 0 <= i < |fields| && PhpEmpty(PostData(req, fields[i].0)) && n == EmptyFieldNotice(fields[i].1)
  }

  /** The card form is shown exactly when the method is usable; otherwise the message says why. */
  lemma PaymentFieldsMeaning(secure: bool, merchantId: string, password: string)
    ensures PaymentFields(secure, merchantId, password) == CardForm <==> ValidForUse(secure, merchantId, password)
    ensures !secure ==> PaymentFields(secure, merchantId, password) == Notification(MsgEncryptionRequired + MsgEnableSsl)
    ensures ValidForUse(secure, merchantId, password) ==> secure && merchantId != "" && password != "0"
  {
  }

  /** A send that does not stop the sale loop leaves its status and cross reference as they were. */
  lemma SaleStepKeeps(st: SaleState, a: Attempt)
    requires !Stops(Sale, a)
    ensures SaleStep(st, a).status == st.status && SaleStep(st, a).crossRef == st.crossRef
  {
  }

  /**
   * Only the reply that ends the sale loop decides: over sends none of
   * which but the last stops the loop, the status and cross reference are
   * the last reply's verdict when it stopped the loop, and untouched
   * otherwise.
   */
  lemma {:induction false} SaleDecidedByLast(st: SaleState, trail: seq<Attempt>)
    requires forall i :: 0 <= i < |trail| - 1 ==> !Stops(Sale, trail[i])
    ensures var r := SaleFold(st, trail);
      (Stopped(Sale, trail) ==>
        var a := trail[|trail| - 1];
        r.status == SaleVerdict(StatusOf(a.response), MessageOf(a.response), a.response).0 &&
        r.crossRef == Some(GetXmlCrossReference(a.response))) &&
      (!Stopped(Sale, trail) ==> r.status == st.status && r.crossRef == st.crossRef)
    decreases |trail|
  {
    if trail != [] {
      if |trail| == 1 {
        assert SaleFold(st, trail) == SaleFold(SaleStep(st, trail[0]), []);
      } else {
        SaleStepKeeps(st, trail[0]);
        var rest := trail[1..];
        forall i | 0 <= i < |rest| - 1 ensures !Stops(Sale, rest[i]) {
          assert rest[i] == trail[i + 1];
        }
        SaleDecidedByLast(SaleStep(st, trail[0]), rest);
        assert rest[|rest| - 1] == trail[|trail| - 1];
      }
    }
  }

  /**
   * The sale over its whole loop: it returns 'success' exactly when the loop
   * stopped on a reply whose verdict is a success or a 3-D Secure challenge;
   * the order's CrossRef is written exactly when the loop stopped.
   */
  lemma SaleOutcome(net: Network, k: nat, payload: Assoc<string, string>, port4430Setting: Option<string>)
    ensures var trail := Trail(net, k, payload, port4430Setting, false, StopRule(Sale), 3);
      var st := SaleFold(SaleStart, trail);
      (SaleHandled(st).result.result == "success" <==>
        Stopped(Sale, trail) &&
        var a := trail[|trail| - 1];
        !SaleVerdict(StatusOf(a.response), MessageOf(a.response), a.response).0.SaleFailed?) &&
      (|SaleHandled(st).metaOps| == 1 <==> Stopped(Sale, trail)) &&
      (SaleHandled(st).result.result == "success" || SaleHandled(st).result.result == "fail")
  {
    var trail := Trail(net, k, payload, port4430Setting, false, StopRule(Sale), 3);
    TrailMeaning(net, k, payload, port4430Setting, false, StopRule(Sale), 3);
    forall i | 0 <= i < |trail| - 1 ensures !Stops(Sale, trail[i]) {
      assert !StopRule(Sale)(trail[i]);
    }
    SaleFoldOutcome(trail);
  }

  /** SaleOutcome for any trail that only its last send may stop. */
  lemma SaleFoldOutcome(trail: seq<Attempt>)
    requires forall i :: 0 <= i < |trail| - 1 ==> !Stops(Sale, trail[i])
    ensures var st := SaleFold(SaleStart, trail);
      (SaleHandled(st).result.result == "success" <==>
        Stopped(Sale, trail) &&
        var a := trail[|trail| - 1];
        !SaleVerdict(StatusOf(a.response), MessageOf(a.response), a.response).0.SaleFailed?) &&
      (|SaleHandled(st).metaOps| == 1 <==> Stopped(Sale, trail)) &&
      (SaleHandled(st).result.result == "success" || SaleHandled(st).result.result == "fail")
  {
    SaleDecidedByLast(SaleStart, trail);
    SaleHandledResult(SaleFold(SaleStart, trail));
  }

  /** The result is 'success' exactly for a status other than failed; CrossRef is written when one was stored. */
  lemma SaleHandledResult(st: SaleState)
    ensures SaleHandled(st).result.result == "success" <==> !st.status.SaleFailed?
    ensures SaleHandled(st).result.result == "success" || SaleHandled(st).result.result == "fail"
    ensures |SaleHandled(st).metaOps| == 1 <==> st.crossRef.Some?
  {
    assert "fail" != "success" by { assert "fail"[0] != "success"[0]; }
  }

  /** The order's status after the sale's events: the event list and the recorded status agree. */
  lemma SaleEventsStatus(s0: string, st: SaleState)
    ensures StatusAfter(s0, [StatusChanged("pending", PendingNote)] + SaleHandled(st).events) == SaleOrderStatus(st.status)
    ensures PaymentCompleted in SaleHandled(st).events <==> st.status == SaleSucceeded
  {
    var events := [StatusChanged("pending", PendingNote)] + SaleHandled(st).events;
    assert StatusAfter(s0, events) == StatusAfter("pending", events[1..]);
    match st.status
    case SaleIncomplete(_, _, _) =>
      assert events[1..] == [];
    case SaleSucceeded =>
      assert events[1..][1..] == [NoteAdded(Hosted.SuccessNoteHead + st.message)];
      assert StatusAfter("pending", events[1..]) == StatusAfter("processing", events[1..][1..]);
      assert events[1..][1..][1..] == [];
    case SaleFailed =>
      assert events[1..][1..] == [];
  }

  /** One row of the sale's table: a digit string matches a status code exactly when their values agree. */
  lemma SaleCodeValue(code: string, c: string, n: nat)
    requires |code| > 0 && AllDigits(code)
    requires |c| > 0 && AllDigits(c) && DigitsValue(c) == n
    ensures LooseEquals(code, c) <==> DigitsValue(code) == n
  {
    LooseEqualsDigits(code, c);
  }

  /**
   * The sale's table on digit strings: the value, not the spelling, decides;
   * a duplicate succeeds only when it carries an earlier result whose status
   * is exactly '0'.
   */
  lemma SaleVerdictDigits(code: string, message: string, response: string)
    requires |code| > 0 && AllDigits(code)
    ensures var v := DigitsValue(code);
      var s := SaleVerdict(code, message, response).0;
      (s == SaleSucceeded <==>
        v == 0 || (v == 20 && PreviousTransactionResult(response).Some? &&
                   GetXmlValue("StatusCode", PreviousTransactionResult(response).value, AnyLine) == "0")) &&
      (s.SaleIncomplete? <==> v == 3) &&
      (v != 0 && v != 3 && v != 20 ==> s == SaleFailed && SaleVerdict(code, message, response).1 == message)
  {
    var v := DigitsValue(code);
    var isSuccess, isIncomplete, isDuplicate :=
      LooseEquals(code, StatusSuccess), LooseEquals(code, StatusIncomplete), LooseEquals(code, StatusDuplicate);
    SaleCodeValue(code, StatusSuccess, 0);
    SaleCodeValue(code, StatusIncomplete, 3);
    SaleCodeValue(code, StatusDuplicate, 20);
  }

  /**
   * With port 4430 switched off the sale makes all nine sends, each refused;
   * the order fails with an empty reason and nothing is stored.
   */
  lemma SaleWhileAborting(net: Network, k: nat, payload: Assoc<string, string>, port4430Setting: Option<string>)
    requires port4430Setting == Some("true")
    ensures var trail := Trail(net, k, payload, port4430Setting, false, StopRule(Sale), 3);
      var h := SaleHandled(SaleFold(SaleStart, trail));
      |trail| == 9 && h.result == PaymentResult("fail", None) && h.metaOps == [] &&
      h.events == [StatusChanged("failed", Hosted.FailedHead)] && h.notices == [FailureNotice("")]
  {
    AbortedTrailExhausts(net, k, payload, port4430Setting, Sale, 3);
    var trail := Trail(net, k, payload, port4430Setting, false, StopRule(Sale), 3);
    SaleFoldUndelivered(SaleStart, trail);
    assert ToLower("") == "";
    assert Hosted.FailedHead + "" == Hosted.FailedHead;
  }

  /** A fold over sends none of which reached the gateway leaves the sale's variables as they were. */
  lemma {:induction false} SaleFoldUndelivered(st: SaleState, trail: seq<Attempt>)
    requires forall i :: 0 <= i < |trail| ==> trail[i].errno != CurleOk
    ensures SaleFold(st, trail) == st
    decreases |trail|
  {
    if trail != [] {
      SaleFoldUndelivered(SaleStep(st, trail[0]), trail[1..]);
    }
  }

  /**
   * A 3-D Secure challenge the sale leaves in the session is what the ACS
   * redirect then posts: to the ACS URL, with the cross reference as MD and
   * the PaReq.
   */
  lemma ChallengeReachesAcs(session: Assoc<string, PhpValue>, s: SaleStatus, termUrl: string)
    requires s.SaleIncomplete?
    ensures AcsRedirect(Put(session, SessionKey, ChallengeSession(s)), termUrl) ==
      Some(PostForm(s.acsUrl, [("TermUrl", termUrl), ("MD", s.crossReference), ("PaReq", s.pareq)]))
  {
    var session' := Put(session, SessionKey, ChallengeSession(s));
    LookupPut(session, SessionKey, ChallengeSession(s));
    var entries := ChallengeSession(s).entries;
    LookupTail(entries, "url");
    LookupTail(entries[1..], "url");
    LookupTail(entries[1..][1..], "url");
    LookupTail(entries, "crossref");
    LookupTail(entries[1..], "crossref");
    LookupTail(entries, "pareq");
    assert Lookup(entries, "url") == Some(Str(s.acsUrl));
    assert Lookup(entries, "crossref") == Some(Str(s.crossReference));
    assert Lookup(entries, "pareq") == Some(Str(s.pareq));
  }

  /**
   * The ACS's answer, handed back by the relay form, is authenticated
   * against the sale's cross reference: the posted-back request is not
   * relayed again, and the authentication sends the MD the ACS returned as
   * the CrossReference, with the PaRes it returned.
   */
  lemma RelayThenAuthenticate(req: HttpRequest, payUrl: string, merchantId: string, password: string)
    requires AcsAnswer(req)
    ensures var back := HttpRequest("POST", [], ReturnForm(req, payUrl).fields);
      !AcsAnswer(back) &&
      SecurePayload(merchantId, password, back) ==
        [("MerchantID", merchantId), ("Password", password), ("CrossReference", PostData(req, "MD")),
         ("PaRES", PostData(req, "PaRes"))]
  {
    var back := HttpRequest("POST", [], ReturnForm(req, payUrl).fields);
    var form := back.form;
    LookupTail(form, "MD");
    LookupTail(form[1..], "MD");
    assert form[1..][1..] == [];
    LookupTail(form, "CrossReference");
    LookupTail(form, "PaRes");
    LookupTail(form[1..], "PaRes");
    assert Lookup(form, "MD") == None;
    assert Lookup(form, "CrossReference") == Some(PostData(req, "MD"));
    assert Lookup(form, "PaRes") == Some(PostData(req, "PaRes"));
  }

  /**
   * The authentication completes the payment, empties the cart and sends the
   * customer to the order-received page exactly when its loop stopped on a
   * reply judged '0'; otherwise the order fails and the customer goes back
   * to pay.
   */
  lemma SecureSucceedsIff(trail: seq<Attempt>, s0: string)
    ensures var h := SecureHandled(trail);
      var ok := Stopped(ThreeDSecure, trail) && LooseEquals(SecureVerdict(trail[|trail| - 1].response).0, StatusSuccess);
      (h.to == OrderReceivedUrl <==> ok) && (h.emptiesCart <==> ok) && (PaymentCompleted in h.events <==> ok) &&
      (ok ==> StatusAfter(s0, h.events) == "processing") &&
      (!ok ==> h.to == OrderPayEndpoint && |h.notices| == 1 && h.metaOps == [] && StatusAfter(s0, h.events) == "failed")
  {
    if Stopped(ThreeDSecure, trail) {
      var (code, message) := SecureVerdict(trail[|trail| - 1].response);
      if LooseEquals(code, StatusSuccess) {
        CompletedEvents(s0, SecureSuccessHead + message);
      } else {
        FailedEvents(s0, SecureFailedHead + message);
      }
    } else {
      FailedEvents(s0, MsgUnexpectedError);
    }
  }

  /** A completed payment followed by a note leaves the order processing. */
  lemma CompletedEvents(s0: string, note: string)
    ensures StatusAfter(s0, [PaymentCompleted, NoteAdded(note)]) == "processing"
    ensures PaymentCompleted in [PaymentCompleted, NoteAdded(note)]
  {
    var events := [PaymentCompleted, NoteAdded(note)];
    assert events[1..] == [NoteAdded(note)];
    assert events[1..][1..] == [];
    assert StatusAfter(s0, events) == StatusAfter("processing", events[1..]);
    assert StatusAfter("processing", events[1..]) == StatusAfter("processing", []);
  }

  /** A change to 'failed' leaves the order failed, with no completed payment. */
  lemma FailedEvents(s0: string, note: string)
    ensures StatusAfter(s0, [StatusChanged("failed", note)]) == "failed"
    ensures PaymentCompleted !in [StatusChanged("failed", note)]
  {
    assert [StatusChanged("failed", note)][1..] == [];
  }

}
