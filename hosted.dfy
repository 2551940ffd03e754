/**
 * The hosted payment method (`WC_Paymentsense_Hosted`): the customer pays on
 * the gateway's hosted payment form, and the gateway reports the result back
 * either as a browser POST (the POST result delivery method) or as a
 * server-to-server notification followed by a customer redirect (SERVER).
 *
 * The hosted object is modelled as the shared gateway client plus the state
 * the hosted class adds: whether the current callback's digest checked out,
 * and the reply variables of a notification. The order a callback names is
 * passed in; the page or redirect a request ends with is its result.
 */
module Hosted {
  import opened PhpStrings
  import opened PhpArrays
  import opened HashDigest
  import opened Transport
  import opened Diagnostics
  import opened Shop
  import opened Gateway

  const HostedId := "paymentsense_hosted"

  /** The reply codes and messages of a SERVER notification. */
  const ReplyOk := "0"
  const ReplyError := "30"
  const MsgSuccess := "Request processed successfully."
  const MsgUnsupportedStatus := "Unknown or unsupported payment status."

  const MsgOrderIdEmpty := "Order ID is empty."
  const MsgUnsupportedDelivery := "Unsupported Result Delivery Method."
  const MsgNotConfigured := "This module is not configured. Please configure gateway settings."
  const MsgExpired := "Sorry, the allowed time for paying this order has expired."
  const MsgAlreadyPaid := "It seems you already have paid for this order. In case of doubts, please contact us."
  const AuthWarning :=
    "WARNING: The authenticity of the status of this transaction cannot be confirmed automatically! Please check the status at the MMS. "

  /** The note for a callback on a paid order, as the POST handler writes it. */
  const UnexpectedCallbackNote :=
    "An unexpected callback notification has been received. This normally happens when the customer clicks on the \"Back\" button on their web browser or/and attempts to perform further payment transactions after a successful one is made."

  /**
   * The same note as the notification handler writes it: its single-quoted
   * PHP literal keeps the backslashes before the quotes.
   */
  const UnexpectedCallbackNoteEscaped :=
    "An unexpected callback notification has been received. This normally happens when the customer clicks on the \\\"Back\\\" button on their web browser or/and attempts to perform further payment transactions after a successful one is made."

  /*
   * The literal pieces of the composed messages. They are named so that the
   * texts stay whole in proofs that never look inside them.
   */
  const InstructionsHead := "Please log into your account at the MMS and check that transaction "
  const InstructionsMiddle := " is processed with status SUCCESS and the message: "
  const InstructionsTail :=
    "Once the transaction status and authentication code are confirmed set the order status to \"Processing\" and process the order normally. "
  const ExceptionHead := "An exception with message \""
  const ExceptionMiddle := "\" has been thrown while processing order #"
  const SuccessNoteHead := "Payment processed successfully. "
  const FailedHead := "Payment failed due to: "
  const UnsupportedNoteHead := "Payment failed due to unknown or unsupported payment status. Payment Status: "
  const CheckCardDetails := "Please check your card details and try again."
  const UnsupportedErrorHead :=
    "An error occurred while processing your payment. Payment status is unknown. Please contact support. Payment Status: "

  function AuthInstructions(crossRef: string, message: string): string
  {
    InstructionsHead + crossRef + InstructionsMiddle + message + ". " + InstructionsTail
  }

  /** MSG_EXCEPTION filled in with the exception's message and the order ID. */
  function ExceptionMessage(message: string, orderId: string): string
  {
    ExceptionHead + message + ExceptionMiddle + orderId + "."
  }

  /** How a request ends: text echoed back, a redirect, a message page or the redirect form to the hosted page. */
  datatype Response =
    | Echo(text: string)
    | Redirect(to: Location)
    | Page(message: string)
    | Form(url: string, fields: Assoc<string, string>)

  // ---------------------------------------------------------------------------
  // The request
  // ---------------------------------------------------------------------------

  /** The variables a callback carries, as `get_http_var` reads them (a missing one reads as empty). */
  datatype Callback = Callback(orderId: string, statusCode: string, previousStatusCode: string, message: string,
                               crossReference: string)

  function CallbackOf(req: HttpRequest): Callback
  {
    Callback(GetHttpVar(req, "OrderID", "", ""), GetHttpVar(req, "StatusCode", "", ""),
             PostData(req, "PreviousStatusCode"), GetHttpVar(req, "Message", "", ""),
             GetHttpVar(req, "CrossReference", "", ""))
  }

  /** The SERVER method's request type: a numeric StatusCode marks the notification, anything else the redirect. */
  function RequestType(req: HttpRequest): (t: string)
    ensures t == ReqNotification <==> IsNumeric(CallbackOf(req).statusCode)
    ensures t == ReqNotification || t == ReqCustomerRedirect
  {
    if IsNumeric(GetHttpVar(req, "StatusCode", "", "")) then ReqNotification else ReqCustomerRedirect
  }

  // ---------------------------------------------------------------------------
  // The transaction status table
  // ---------------------------------------------------------------------------

  datatype TxStatus = TxSuccess | TxFailed | TxUnsupported | TxDuplicated

  /** The value stored as the order's PaymentStatus. */
  function StatusName(s: TxStatus): string
  {
    match s
    case TxSuccess => "success"
    case TxFailed => "failed"
    case TxUnsupported => "unsupported"
    case TxDuplicated => "duplicated"
  }

  /**
   * The `switch` over the posted StatusCode (a loose comparison), with the
   * duplicate case settled by the exact comparison of PreviousStatusCode.
   */
  function TransactionStatus(code: string, previous: string): (s: TxStatus)
    ensures s != TxDuplicated
  {
    if LooseEquals(code, StatusSuccess) then TxSuccess
    else if LooseEquals(code, StatusReferred) then TxFailed
    else if LooseEquals(code, StatusDeclined) then TxFailed
    else if LooseEquals(code, StatusDuplicate) then (if StatusSuccess == previous then TxSuccess else TxFailed)
    else if LooseEquals(code, StatusFailed) then TxFailed
    else TxUnsupported
  }

  /** The order notes of the outcomes. */
  function SuccessNote(message: string): string
  {
    SuccessNoteHead + message
  }

  function FailedNote(authenticated: bool, message: string): string
  {
    (if authenticated then "" else AuthWarning) + FailedHead + message
  }

  function UnsupportedNote(code: string): string
  {
    UnsupportedNoteHead + code + "."
  }

  /** The order's status once an outcome is recorded. */
  function OutcomeStatus(s: TxStatus, authenticated: bool): string
  {
    if s == TxSuccess then (if authenticated then "processing" else "on-hold") else "failed"
  }

  /** What the outcome of a callback does to the order, in order. */
  function OutcomeEvents(s: TxStatus, authenticated: bool, crossRef: string, message: string, code: string)
    : seq<OrderEvent>
  {
    match s
    case TxSuccess =>
      if !authenticated then
        [PaymentCompleted, StatusChanged("on-hold", AuthWarning), NoteAdded(AuthInstructions(crossRef, message))]
      else
        [PaymentCompleted, NoteAdded(SuccessNote(message))]
    case TxFailed =>
      [StatusChanged("failed", FailedNote(authenticated, message))]
    case TxUnsupported =>
      [StatusChanged("failed", UnsupportedNote(code))]
    case TxDuplicated => []
  }

  /** The message kept for the customer: none after a success. */
  function CustomerError(s: TxStatus, message: string, code: string): string
  {
    match s
    case TxSuccess => ""
    case TxFailed => FailedHead + message + ". " + CheckCardDetails
    case TxUnsupported => UnsupportedErrorHead + code + "."
    case TxDuplicated => MsgAlreadyPaid
  }

  // ---------------------------------------------------------------------------
  // The three callbacks, as what they do
  // ---------------------------------------------------------------------------

  /** What a SERVER notification does: to the order, and the reply it leaves. */
  datatype Notification = Notification(events: seq<OrderEvent>, metaOps: seq<MetaOp>, replyCode: string,
                                       replyMessage: string)

  function ServerNotification(cb: Callback, orderStatus: string, authenticated: bool): Notification
  {
    if PhpEmpty(cb.orderId) then Notification([], [], ReplyError, ExceptionMessage(MsgOrderIdEmpty, cb.orderId))
    else NotificationOutcome(cb, orderStatus, authenticated, TransactionStatus(cb.statusCode, cb.previousStatusCode))
  }

  /** A notification naming an order: a paid order is left paid, any other takes the outcome s. */
  function NotificationOutcome(cb: Callback, orderStatus: string, authenticated: bool, s: TxStatus): Notification
  {
    if orderStatus == "processing" then
      Notification([NoteAdded(UnexpectedCallbackNoteEscaped)],
                   [SetMeta("PaymentStatus", StatusName(TxDuplicated)), SetMeta("CustomerErrorMsg", MsgAlreadyPaid)],
                   ReplyOk, MsgSuccess)
    else
      Notification(OutcomeEvents(s, authenticated, cb.crossReference, cb.message, cb.statusCode),
                   [SetMeta("CrossRef", cb.crossReference), SetMeta("PaymentStatus", StatusName(s)),
                    SetMeta("CustomerErrorMsg", CustomerError(s, cb.message, cb.statusCode))],
                   if s == TxUnsupported then ReplyError else ReplyOk,
                   if s == TxUnsupported then MsgUnsupportedStatus else MsgSuccess)
  }

  /** `output_response`: the reply body of a notification. */
  function ReplyText(code: string, message: string): string
  {
    "StatusCode=" + code + "&Message=" + message
  }

  /** What a SERVER customer redirect does: the notices it adds and where it sends the customer. */
  function CustomerRedirect(orderId: string, meta: Assoc<string, string>): (seq<Notice>, Response)
  {
    if PhpEmpty(orderId) then ([], Page(MsgOrderIdEmpty))
    else if MetaValue(meta, "PaymentStatus") == StatusName(TxSuccess) then ([], Redirect(OrderReceivedUrl))
    else ([Notice(MetaValue(meta, "CustomerErrorMsg"), "error")], Redirect(CheckoutPaymentUrl(false)))
  }

  /** What a POST result does: to the order and to the storefront's notices, and where the customer goes. */
  datatype PostHandling = PostHandling(events: seq<OrderEvent>, metaOps: seq<MetaOp>, clearNotices: bool,
                                       notices: seq<Notice>, out: Response)

  function PostResponse(cb: Callback, orderStatus: string, authenticated: bool): PostHandling
  {
    if PhpEmpty(cb.orderId) then PostHandling([], [], false, [], Page(MsgOrderIdEmpty))
    else PostOutcome(cb, orderStatus, authenticated, TransactionStatus(cb.statusCode, cb.previousStatusCode))
  }

  /** A POST result naming an order: a paid order is left paid, any other takes the outcome s. */
  function PostOutcome(cb: Callback, orderStatus: string, authenticated: bool, s: TxStatus): PostHandling
  {
    if orderStatus == "processing" then
      PostHandling([NoteAdded(UnexpectedCallbackNote)], [], true, [Notice(MsgAlreadyPaid, "error")],
                   Redirect(CheckoutPaymentUrl(false)))
    else
      var errOp := if s == TxSuccess then DeleteMetaKey("ErrMessage")
                   else SetMeta("ErrMessage", CustomerError(s, cb.message, cb.statusCode));
      PostHandling(OutcomeEvents(s, authenticated, cb.crossReference, cb.message, cb.statusCode),
                   [SetMeta("CrossRef", cb.crossReference), errOp], false, [], Redirect(OrderReceivedUrl))
  }

  /** `process_order_received_text`: the thank-you text is blanked for a hosted order that kept an error. */
  function OrderReceivedText(message: string, paymentMethod: string, meta: Assoc<string, string>): string
  {
    if paymentMethod == HostedId && !PhpEmpty(MetaValue(meta, "ErrMessage")) then "" else message
  }

  /** `is_valid_for_use`: merchant ID, password and pre-shared key are all set, in the sense of PHP's empty(). */
  predicate Configured(merchantId: string, password: string, preSharedKey: string)
  {
    !PhpEmpty(merchantId) && !PhpEmpty(password) && !PhpEmpty(preSharedKey)
  }

  /** The settings message as an array, or as its text. */
  datatype SettingsReply = SettingsArray(message: Option<Message>) | SettingsString(text: Option<string>)

  function Rendered(textFormat: bool, m: Option<Message>): SettingsReply
  {
    if textFormat then SettingsString(SettingsText(m)) else SettingsArray(m)
  }

  /** The two result delivery settings are told apart. */
  lemma DeliveryNamesDiffer()
    ensures "POST" != "SERVER"
  {
    assert |"POST"| != |"SERVER"|;
  }

  class HostedGateway {
    const base: Gateway
    /** settings['gateway_result_delivery'] */
    const resultDelivery: string
    /** settings['extended_payment_method_timeout'], cast to an integer */
    const paymentTimeout: int
    var authenticated: bool
    /** response_vars['status_code'] and response_vars['message'] */
    var replyCode: string
    var replyMessage: string

    constructor(base: Gateway, resultDelivery: string, paymentTimeout: int)
      requires base.kind == HostedMethod
      ensures this.base == base && this.base.kind == HostedMethod && this.resultDelivery == resultDelivery && this.paymentTimeout == paymentTimeout
      ensures !authenticated && replyCode == "" && replyMessage == ""
    {
      this.base := base;
      this.resultDelivery := resultDelivery;
      this.paymentTimeout := paymentTimeout;
      authenticated := false;
      replyCode := "";
      replyMessage := "";
    }

    /** `is_hash_digest_valid` with the gateway's settings. */
    function Authentic(req: HttpRequest, requestType: string): bool
      reads base
    {
      IsHashDigestValid(base.digests, base.merchantId, base.password, base.hashMethod, base.preSharedKey, req,
                        requestType)
    }

    method SetSuccess()
      modifies this`replyCode, this`replyMessage
      ensures replyCode == ReplyOk && replyMessage == MsgSuccess
    {
      replyCode, replyMessage := ReplyOk, MsgSuccess;
    }

    method SetError(message: string)
      modifies this`replyCode, this`replyMessage
      ensures replyCode == ReplyError && replyMessage == message
    {
      replyCode, replyMessage := ReplyError, message;
    }

    method OutputResponse() returns (text: string)
      ensures NoChar(replyCode, '&') && NoChar(replyMessage, '&') ==>
        Decode(text) == [("StatusCode", replyCode), ("Message", replyMessage)]
      ensures text == ReplyText(replyCode, replyMessage)
    {
      text := "StatusCode=" + replyCode + "&Message=" + replyMessage;
      if NoChar(replyCode, '&') && NoChar(replyMessage, '&') {
        ReplyTextDecodes(replyCode, replyMessage);
      }
    }

    /** What a callback's outcome does to the order (the shared part of the two handlers). */
    method RecordOutcome(order: Order, s: TxStatus, crossRef: string, message: string, code: string)
      requires s != TxDuplicated
      modifies order
      ensures order.events == old(order.events) + OutcomeEvents(s, authenticated, crossRef, message, code)
      ensures order.status == OutcomeStatus(s, authenticated)
      ensures order.meta == old(order.meta)
    {
      match s
      case TxSuccess =>
        order.PaymentComplete();
        if !authenticated {
          order.UpdateStatus("on-hold", AuthWarning);
          order.AddNote(AuthInstructions(crossRef, message));
        } else {
          order.AddNote(SuccessNote(message));
        }
      case TxFailed =>
        order.UpdateStatus("failed", FailedNote(authenticated, message));
      case TxUnsupported =>
        order.UpdateStatus("failed", UnsupportedNote(code));
    }

    /** `process_server_notification`: the order is updated and the reply is echoed back. */
    method ProcessServerNotification(req: HttpRequest, order: Order) returns (out: Response)
      modifies this`replyCode, this`replyMessage, order
      ensures var n := ServerNotification(CallbackOf(req), old(order.status), authenticated);
        order.events == old(order.events) + n.events &&
        order.status == StatusAfter(old(order.status), n.events) &&
        order.meta == ApplyMeta(old(order.meta), n.metaOps) &&
        replyCode == n.replyCode && replyMessage == n.replyMessage &&
        out == Echo(ReplyText(n.replyCode, n.replyMessage))
    {
      var cb := CallbackOf(req);
      if PhpEmpty(cb.orderId) {
        SetError(ExceptionMessage(MsgOrderIdEmpty, cb.orderId));
        assert order.meta == ApplyMeta(old(order.meta), []);
      } else {
        var status := TransactionStatus(cb.statusCode, cb.previousStatusCode);
        RecordNotification(order, cb, status);
      }
      var text := OutputResponse();
      out := Echo(text);
    }

    /** The notification's work on the order it names, with the outcome s its status code selects. */
    method RecordNotification(order: Order, cb: Callback, s: TxStatus)
      requires s != TxDuplicated
      modifies this`replyCode, this`replyMessage, order
      ensures var n := NotificationOutcome(cb, old(order.status), authenticated, s);
        order.events == old(order.events) + n.events &&
        order.status == StatusAfter(old(order.status), n.events) &&
        order.meta == ApplyMeta(old(order.meta), n.metaOps) &&
        replyCode == n.replyCode && replyMessage == n.replyMessage
    {
      if order.status == "processing" {
        assert [NoteAdded(UnexpectedCallbackNoteEscaped)][1..] == [];
        RecordRepeatedNotification(order);
      } else {
        OutcomeFinalStatus(order.status, s, authenticated, cb.crossReference, cb.message, cb.statusCode);
        RecordNotificationOutcome(order, cb, s);
      }
    }

    /** A notification for an order already paid: only a note, and the stored status says so. */
    method RecordRepeatedNotification(order: Order)
      modifies this`replyCode, this`replyMessage, order
      ensures order.events == old(order.events) + [NoteAdded(UnexpectedCallbackNoteEscaped)]
      ensures order.status == old(order.status)
      ensures order.meta == ApplyMeta(old(order.meta), [SetMeta("PaymentStatus", StatusName(TxDuplicated)),
                                                        SetMeta("CustomerErrorMsg", MsgAlreadyPaid)])
      ensures replyCode == ReplyOk && replyMessage == MsgSuccess
    {
      order.AddNote(UnexpectedCallbackNoteEscaped);
      SetSuccess();
      StorePaymentStatus(order, TxDuplicated, MsgAlreadyPaid);
    }

    /** A notification for an unpaid order: the outcome is recorded and the reply set. */
    method RecordNotificationOutcome(order: Order, cb: Callback, s: TxStatus)
      requires s != TxDuplicated
      modifies this`replyCode, this`replyMessage, order
      ensures order.events == old(order.events) + OutcomeEvents(s, authenticated, cb.crossReference, cb.message, cb.statusCode)
      ensures order.status == OutcomeStatus(s, authenticated)
      ensures order.meta == ApplyMeta(old(order.meta), [SetMeta("CrossRef", cb.crossReference), SetMeta("PaymentStatus", StatusName(s)),
                                                        SetMeta("CustomerErrorMsg", CustomerError(s, cb.message, cb.statusCode))])
      ensures replyCode == (if s == TxUnsupported then ReplyError else ReplyOk)
      ensures replyMessage == (if s == TxUnsupported then MsgUnsupportedStatus else MsgSuccess)
    {
      ghost var meta0 := order.meta;
      order.UpdateMeta("CrossRef", cb.crossReference);
      RecordOutcome(order, s, cb.crossReference, cb.message, cb.statusCode);
      if s == TxUnsupported {
        SetError(MsgUnsupportedStatus);
      } else {
        SetSuccess();
      }
      StorePaymentStatus(order, s, CustomerError(s, cb.message, cb.statusCode));
      ApplyThreeMeta(meta0, SetMeta("CrossRef", cb.crossReference), SetMeta("PaymentStatus", StatusName(s)),
                     SetMeta("CustomerErrorMsg", CustomerError(s, cb.message, cb.statusCode)));
    }

    /** The two meta entries the SERVER customer redirect reads later. */
    method StorePaymentStatus(order: Order, status: TxStatus, errorMsg: string)
      modifies order
      ensures order.meta == ApplyMeta(old(order.meta), [SetMeta("PaymentStatus", StatusName(status)), SetMeta("CustomerErrorMsg", errorMsg)])
      ensures order.events == old(order.events) && order.status == old(order.status)
    {
      ApplyTwoMeta(order.meta, SetMeta("PaymentStatus", StatusName(status)), SetMeta("CustomerErrorMsg", errorMsg));
      order.UpdateMeta("PaymentStatus", StatusName(status));
      order.UpdateMeta("CustomerErrorMsg", errorMsg);
    }

    /** `process_server_customer_redirect`: the customer goes where the stored PaymentStatus says. */
    method ProcessServerCustomerRedirect(req: HttpRequest, order: Order, shop: Storefront) returns (out: Response)
      modifies shop
      ensures out == CustomerRedirect(CallbackOf(req).orderId, order.meta).1
      ensures shop.notices == old(shop.notices) + CustomerRedirect(CallbackOf(req).orderId, order.meta).0
      ensures shop.session == old(shop.session) && shop.cartEmptied == old(shop.cartEmptied)
    {
      var orderId := GetHttpVar(req, "OrderID", "", "");
      if PhpEmpty(orderId) {
        return Page(MsgOrderIdEmpty);
      }
      var status := order.GetMeta("PaymentStatus");
      var errorMsg := order.GetMeta("CustomerErrorMsg");
      if status == "success" {
        out := Redirect(OrderReceivedUrl);
      } else {
        shop.AddNotice(errorMsg, "error");
        out := Redirect(CheckoutPaymentUrl(false));
      }
    }

    /** `process_post_response`: the order is updated and the customer is sent on. */
    method ProcessPostResponse(req: HttpRequest, order: Order, shop: Storefront) returns (out: Response)
      modifies order, shop
      ensures var p := PostResponse(CallbackOf(req), old(order.status), authenticated);
        order.events == old(order.events) + p.events &&
        order.status == StatusAfter(old(order.status), p.events) &&
        order.meta == ApplyMeta(old(order.meta), p.metaOps) &&
        shop.notices == (if p.clearNotices then [] else old(shop.notices)) + p.notices &&
        out == p.out
      ensures shop.session == old(shop.session) && shop.cartEmptied == old(shop.cartEmptied)
    {
      var cb := CallbackOf(req);
      if PhpEmpty(cb.orderId) {
        assert order.meta == ApplyMeta(old(order.meta), []);
        assert shop.notices == old(shop.notices) + [];
        return Page(MsgOrderIdEmpty);
      }
      var status := TransactionStatus(cb.statusCode, cb.previousStatusCode);
      out := RecordPostResult(order, shop, cb, status);
    }

    /** The POST result's work on the order it names, with the outcome s its status code selects. */
    method RecordPostResult(order: Order, shop: Storefront, cb: Callback, s: TxStatus) returns (out: Response)
      requires s != TxDuplicated
      modifies order, shop
      ensures var p := PostOutcome(cb, old(order.status), authenticated, s);
        order.events == old(order.events) + p.events &&
        order.status == StatusAfter(old(order.status), p.events) &&
        order.meta == ApplyMeta(old(order.meta), p.metaOps) &&
        shop.notices == (if p.clearNotices then [] else old(shop.notices)) + p.notices &&
        out == p.out
      ensures shop.session == old(shop.session) && shop.cartEmptied == old(shop.cartEmptied)
    {
      if order.status == "processing" {
        out := RecordRepeatedPost(order, shop);
        assert order.meta == ApplyMeta(old(order.meta), []);
        assert StatusAfter(old(order.status), [NoteAdded(UnexpectedCallbackNote)]) == old(order.status);
      } else {
        OutcomeFinalStatus(order.status, s, authenticated, cb.crossReference, cb.message, cb.statusCode);
        out := RecordPostOutcome(order, shop, cb, s);
        assert shop.notices == old(shop.notices) + [];
      }
    }

    /** A POST result for a paid order: a note, and the customer is sent back with a notice. */
    method RecordRepeatedPost(order: Order, shop: Storefront) returns (out: Response)
      modifies order, shop
      ensures order.events == old(order.events) + [NoteAdded(UnexpectedCallbackNote)]
      ensures order.status == old(order.status) && order.meta == old(order.meta)
      ensures shop.notices == [Notice(MsgAlreadyPaid, "error")]
      ensures shop.session == old(shop.session) && shop.cartEmptied == old(shop.cartEmptied)
      ensures out == Redirect(CheckoutPaymentUrl(false))
    {
      order.AddNote(UnexpectedCallbackNote);
      assert [NoteAdded(UnexpectedCallbackNote)][1..] == [];
      shop.ClearNotices();
      shop.AddNotice(MsgAlreadyPaid, "error");
      out := Redirect(CheckoutPaymentUrl(false));
    }

    /** A POST result for an unpaid order: the outcome and the error message are recorded. */
    method RecordPostOutcome(order: Order, shop: Storefront, cb: Callback, s: TxStatus) returns (out: Response)
      requires s != TxDuplicated
      modifies order
      ensures order.events == old(order.events) + OutcomeEvents(s, authenticated, cb.crossReference, cb.message, cb.statusCode)
      ensures order.status == OutcomeStatus(s, authenticated)
      ensures order.meta == ApplyMeta(old(order.meta), [SetMeta("CrossRef", cb.crossReference),
        if s == TxSuccess then DeleteMetaKey("ErrMessage") else SetMeta("ErrMessage", CustomerError(s, cb.message, cb.statusCode))])
      ensures out == Redirect(OrderReceivedUrl)
    {
      ghost var meta0 := order.meta;
      order.UpdateMeta("CrossRef", cb.crossReference);
      ApplyMetaSnoc(meta0, [], SetMeta("CrossRef", cb.crossReference));
      RecordOutcome(order, s, cb.crossReference, cb.message, cb.statusCode);
      var errOp := SetMeta("ErrMessage", CustomerError(s, cb.message, cb.statusCode));
      if s == TxSuccess {
        order.DeleteMeta("ErrMessage");
        errOp := DeleteMetaKey("ErrMessage");
      } else {
        order.UpdateMeta("ErrMessage", CustomerError(s, cb.message, cb.statusCode));
      }
      ApplyMetaSnoc(meta0, [SetMeta("CrossRef", cb.crossReference)], errOp);
      assert [] + [SetMeta("CrossRef", cb.crossReference)] + [errOp] == [SetMeta("CrossRef", cb.crossReference), errOp];
      out := Redirect(OrderReceivedUrl);
    }

    /**
     * `process_gateway_response`: the result delivery setting decides which
     * digest check authenticates the callback and which handler runs.
     */
    method ProcessGatewayResponse(req: HttpRequest, order: Order, shop: Storefront) returns (out: Response)
      modifies this`authenticated, this`replyCode, this`replyMessage, order, shop
      ensures resultDelivery == "POST" ==>
        authenticated == Authentic(req, ReqNotification) &&
        var p := PostResponse(CallbackOf(req), old(order.status), authenticated);
        out == p.out && order.events == old(order.events) + p.events &&
        order.status == StatusAfter(old(order.status), p.events) &&
        order.meta == ApplyMeta(old(order.meta), p.metaOps)
      ensures resultDelivery == "SERVER" ==> authenticated == Authentic(req, RequestType(req))
      ensures resultDelivery == "SERVER" && RequestType(req) == ReqNotification ==>
        var n := ServerNotification(CallbackOf(req), old(order.status), authenticated);
        out == Echo(ReplyText(n.replyCode, n.replyMessage)) && order.events == old(order.events) + n.events &&
        order.status == StatusAfter(old(order.status), n.events) &&
        order.meta == ApplyMeta(old(order.meta), n.metaOps)
      ensures resultDelivery == "SERVER" && RequestType(req) != ReqNotification ==>
        out == CustomerRedirect(CallbackOf(req).orderId, old(order.meta)).1 &&
        order.events == old(order.events) && order.meta == old(order.meta) && order.status == old(order.status)
      ensures resultDelivery != "POST" && resultDelivery != "SERVER" ==>
        out == Page(MsgUnsupportedDelivery) && authenticated == old(authenticated) &&
        order.events == old(order.events) && order.meta == old(order.meta) && order.status == old(order.status)
    {
      DeliveryNamesDiffer();
      if resultDelivery == "POST" {
        out := HandlePostDelivery(req, order, shop);
      } else if resultDelivery == "SERVER" {
        out := HandleServerDelivery(req, order, shop);
      } else {
        out := Page(MsgUnsupportedDelivery);
      }
    }

    /** The POST result delivery: the callback is checked as a notification and the order updated. */
    method HandlePostDelivery(req: HttpRequest, order: Order, shop: Storefront) returns (out: Response)
      modifies this`authenticated, this`replyCode, this`replyMessage, order, shop
      ensures authenticated == Authentic(req, ReqNotification)
      ensures var p := PostResponse(CallbackOf(req), old(order.status), authenticated);
        out == p.out && order.events == old(order.events) + p.events &&
        order.status == StatusAfter(old(order.status), p.events) &&
        order.meta == ApplyMeta(old(order.meta), p.metaOps)
    {
      authenticated := Authentic(req, ReqNotification);
      out := ProcessPostResponse(req, order, shop);
    }

    /** The SERVER result delivery: a notification or the customer's return, told apart by the request. */
    method HandleServerDelivery(req: HttpRequest, order: Order, shop: Storefront) returns (out: Response)
      modifies this`authenticated, this`replyCode, this`replyMessage, order, shop
      ensures authenticated == Authentic(req, RequestType(req))
      ensures RequestType(req) == ReqNotification ==>
        var n := ServerNotification(CallbackOf(req), old(order.status), authenticated);
        out == Echo(ReplyText(n.replyCode, n.replyMessage)) && order.events == old(order.events) + n.events &&
        order.status == StatusAfter(old(order.status), n.events) &&
        order.meta == ApplyMeta(old(order.meta), n.metaOps)
      ensures RequestType(req) != ReqNotification ==>
        out == CustomerRedirect(CallbackOf(req).orderId, old(order.meta)).1 &&
        order.events == old(order.events) && order.meta == old(order.meta) && order.status == old(order.status)
    {
      if RequestType(req) == ReqNotification {
        out := HandleServerNotification(req, order);
      } else {
        out := HandleServerRedirect(req, order, shop);
      }
    }

    /** A notification under the SERVER method. */
    method HandleServerNotification(req: HttpRequest, order: Order) returns (out: Response)
      modifies this`authenticated, this`replyCode, this`replyMessage, order
      ensures authenticated == Authentic(req, ReqNotification)
      ensures var n := ServerNotification(CallbackOf(req), old(order.status), authenticated);
        out == Echo(ReplyText(n.replyCode, n.replyMessage)) && order.events == old(order.events) + n.events &&
        order.status == StatusAfter(old(order.status), n.events) &&
        order.meta == ApplyMeta(old(order.meta), n.metaOps)
    {
      authenticated := Authentic(req, ReqNotification);
      out := ProcessServerNotification(req, order);
    }

    /** The customer's return under the SERVER method. */
    method HandleServerRedirect(req: HttpRequest, order: Order, shop: Storefront) returns (out: Response)
      modifies this`authenticated, shop
      ensures authenticated == Authentic(req, ReqCustomerRedirect)
      ensures out == CustomerRedirect(CallbackOf(req).orderId, order.meta).1
      ensures shop.notices == old(shop.notices) + CustomerRedirect(CallbackOf(req).orderId, order.meta).0
    {
      authenticated := Authentic(req, ReqCustomerRedirect);
      out := ProcessServerCustomerRedirect(req, order, shop);
    }

    /**
     * `receipt_page`: an unconfigured method shows a message; otherwise,
     * within the payment time frame, the order becomes pending and the
     * customer gets the redirect form to the hosted page. now and modified
     * are the current time and the order's last modification, in seconds.
     */
    method ReceiptPage(order: Order, payment: Assoc<string, Option<string>>, now: int, modified: int)
      returns (out: Response)
      requires UniqueKeys(payment) && base.kind == HostedMethod
      modifies order, base`hashMethod
      ensures !Configured(base.merchantId, base.password, base.preSharedKey) ==>
        out == Page(MsgNotConfigured) && order.events == old(order.events) && order.status == old(order.status)
      ensures Configured(base.merchantId, base.password, base.preSharedKey) &&
              !WithinPaymentMethodTimeframe(paymentTimeout, now, modified) ==>
        out == Page(MsgExpired) && order.events == old(order.events) && order.status == old(order.status)
      ensures Configured(base.merchantId, base.password, base.preSharedKey) &&
              WithinPaymentMethodTimeframe(paymentTimeout, now, modified) ==>
        order.status == "pending" && order.events == old(order.events) + [StatusChanged("pending", "Pending payment")] &&
        out == Form(PaymentFormUrl, HpfFields(base.merchantId, base.password, base.preSharedKey, base.hashMethod,
                                              base.digests, payment))
      ensures order.meta == old(order.meta)
      ensures base.hashMethod == old(base.hashMethod)
    {
      if !Configured(base.merchantId, base.password, base.preSharedKey) {
        return Page(MsgNotConfigured);
      }
      if !WithinPaymentMethodTimeframe(paymentTimeout, now, modified) {
        return Page(MsgExpired);
      }
      order.UpdateStatus("pending", "Pending payment");
      var fields := base.BuildHpfFields(payment);
      out := Form(PaymentFormUrl, fields);
    }

    /**
     * `get_connection_settings_message`: an ill-formed merchant ID is reported
     * at once; otherwise the settings are posted to the hosted form and its
     * verdict, together with what the probe's log says about the
     * credentials, selects the message.
     */
    method GetConnectionSettingsMessage(textFormat: bool, sample: Assoc<string, Option<string>>,
                                        errorSpan: string -> Option<string>) returns (r: SettingsReply)
      requires UniqueKeys(sample) && base.kind == HostedMethod
      modifies base`hashMethod, base`sendCount, base`datetimePairs, base`hpfLog
      ensures base.hashMethod == old(base.hashMethod)
      ensures !MerchantIdFormatValid(base.merchantId) ==>
        r == Rendered(textFormat, Some(SettingsMessage(MsgMidFormat, ErrorClassName))) &&
        base.sendCount == old(base.sendCount) && base.hpfLog == old(base.hpfLog) &&
        base.datetimePairs == old(base.datetimePairs)
      ensures MerchantIdFormatValid(base.merchantId) ==>
        var a := Send(base.network, old(base.sendCount), PaymentFormUrl,
                      HpfFields(base.merchantId, base.password, base.preSharedKey, base.hashMethod, base.digests, sample),
                      base.port4430Setting, true);
        r == Rendered(textFormat, Some(HostedSettingsTable(HpfResult(a.errno, errorSpan(a.response)),
                                                           CredentialsVerdict(base.ggepLog)))) &&
        base.hpfLog == Some(HpfLogEntry(a, errorSpan)) &&
        base.sendCount == old(base.sendCount) + 1 &&
        base.datetimePairs == Recorded(old(base.datetimePairs), a)
    {
      var m: Option<Message>;
      if !MerchantIdFormatValid(base.merchantId) {
        m := Some(SettingsMessage(MsgMidFormat, ErrorClassName));
      } else {
        var credentials := ScanCredentials(base.ggepLog);
        var response := base.CheckGatewaySettings(sample, errorSpan);
        m := Some(HostedSettingsTable(response, credentials));
      }
      if textFormat {
        r := SettingsString(SettingsText(m));
      } else {
        r := SettingsArray(m);
      }
    }
  }

  // ---------------------------------------------------------------------------
  // Properties
  // ---------------------------------------------------------------------------

  /** The reply reads back as exactly its two variables when neither holds an '&'. */
  lemma ReplyTextDecodes(code: string, message: string)
    requires NoChar(code, '&') && NoChar(message, '&')
    ensures Decode(ReplyText(code, message)) == [("StatusCode", code), ("Message", message)]
  {
    var pairs := [("StatusCode", code), ("Message", message)];
    var first, second := Item(pairs[0]), Item(pairs[1]);
    assert Items(pairs) == [first, second];
    assert [first, second][1..] == [second];
    assert Join("&", [second]) == second;
    assert Join("&", [first, second]) == first + "&" + second;
    assert Encode(pairs) == first + "&" + second;
    var head, tail := "StatusCode=", "&Message=";
    assert first == head + code;
    assert "&" + second == tail + message;
    calc {
      first + "&" + second;
      first + ("&" + second);
      head + code + (tail + message);
      ReplyText(code, message);
    }
    assert Encodable(pairs[0]) && Encodable(pairs[1]);
    DecodeEncode(pairs);
  }

  /** The status table on digit strings: the value, not the spelling, decides. */
  lemma TransactionStatusDigits(code: string, previous: string)
    requires |code| > 0 && AllDigits(code)
    ensures var v := DigitsValue(code);
      TransactionStatus(code, previous) ==
        if v == 0 then TxSuccess
        else if v == 4 || v == 5 || v == 30 then TxFailed
        else if v == 20 then (if previous == "0" then TxSuccess else TxFailed)
        else TxUnsupported
  {
    StatusTableValues(code);
  }

  /** Each status code of the table, matched by a digit string, by value. */
  lemma StatusTableValues(code: string)
    requires |code| > 0 && AllDigits(code)
    ensures LooseEquals(code, StatusSuccess) <==> DigitsValue(code) == 0
    ensures LooseEquals(code, StatusReferred) <==> DigitsValue(code) == 4
    ensures LooseEquals(code, StatusDeclined) <==> DigitsValue(code) == 5
    ensures LooseEquals(code, StatusDuplicate) <==> DigitsValue(code) == 20
    ensures LooseEquals(code, StatusFailed) <==> DigitsValue(code) == 30
  {
    SuccessCodeValue(code);
    ReferredCodeValue(code);
    DeclinedCodeValue(code);
    DuplicateCodeValue(code);
    FailedCodeValue(code);
  }

  lemma SuccessCodeValue(code: string)
    requires |code| > 0 && AllDigits(code)
    ensures LooseEquals(code, StatusSuccess) <==> DigitsValue(code) == 0
  {
    StatusCodeValue(code, StatusSuccess, 0);
  }

  lemma ReferredCodeValue(code: string)
    requires |code| > 0 && AllDigits(code)
    ensures LooseEquals(code, StatusReferred) <==> DigitsValue(code) == 4
  {
    StatusCodeValue(code, StatusReferred, 4);
  }

  lemma DeclinedCodeValue(code: string)
    requires |code| > 0 && AllDigits(code)
    ensures LooseEquals(code, StatusDeclined) <==> DigitsValue(code) == 5
  {
    StatusCodeValue(code, StatusDeclined, 5);
  }

  lemma DuplicateCodeValue(code: string)
    requires |code| > 0 && AllDigits(code)
    ensures LooseEquals(code, StatusDuplicate) <==> DigitsValue(code) == 20
  {
    StatusCodeValue(code, StatusDuplicate, 20);
  }

  lemma FailedCodeValue(code: string)
    requires |code| > 0 && AllDigits(code)
    ensures LooseEquals(code, StatusFailed) <==> DigitsValue(code) == 30
  {
    StatusCodeValue(code, StatusFailed, 30);
  }

  /** One case of the table: a digit string matches a status code exactly when their values agree. */
  lemma StatusCodeValue(code: string, c: string, n: nat)
    requires |code| > 0 && AllDigits(code)
    requires |c| > 0 && AllDigits(c) && DigitsValue(c) == n
    ensures LooseEquals(code, c) <==> DigitsValue(code) == n
  {
    LooseEqualsDigits(code, c);
  }

  /** Any code that is not a numeric string matches no case of the table. */
  lemma TransactionStatusNonNumeric(code: string, previous: string)
    requires !IsNumeric(code)
    ensures TransactionStatus(code, previous) == TxUnsupported
  {
    StatusCodesAreDigits();
    NonNumericNoMatch(code, StatusSuccess);
    NonNumericNoMatch(code, StatusReferred);
    NonNumericNoMatch(code, StatusDeclined);
    NonNumericNoMatch(code, StatusDuplicate);
    NonNumericNoMatch(code, StatusFailed);
  }

  /** The codes of the status table are digit strings. */
  lemma StatusCodesAreDigits()
    ensures |StatusSuccess| > 0 && AllDigits(StatusSuccess) && |StatusReferred| > 0 && AllDigits(StatusReferred)
    ensures |StatusDeclined| > 0 && AllDigits(StatusDeclined) && |StatusDuplicate| > 0 && AllDigits(StatusDuplicate)
    ensures |StatusFailed| > 0 && AllDigits(StatusFailed)
  {
  }

  /** A string that is not numeric loosely equals no digit string. */
  lemma NonNumericNoMatch(code: string, c: string)
    requires !IsNumeric(code) && |c| > 0 && AllDigits(c)
    ensures !LooseEquals(code, c)
  {
    DigitStringIsNumeric(c);
  }

  /**
   * The order's status after a callback's outcome: a success completes the
   * payment and then, unauthenticated, still leaves the order on hold (the
   * order is not left unpaid); every other outcome fails the order.
   */
  lemma OutcomeFinalStatus(s0: string, s: TxStatus, authenticated: bool, crossRef: string, message: string, code: string)
    requires s != TxDuplicated
    ensures var events := OutcomeEvents(s, authenticated, crossRef, message, code);
      StatusAfter(s0, events) == OutcomeStatus(s, authenticated) &&
      (PaymentCompleted in events <==> s == TxSuccess)
  {
    var events := OutcomeEvents(s, authenticated, crossRef, message, code);
    if s == TxSuccess {
      assert StatusAfter(s0, events) == StatusAfter("processing", events[1..]);
      assert events[1..][1..] == events[2..];
      if !authenticated {
        assert StatusAfter("processing", events[1..]) == StatusAfter("on-hold", events[2..]);
        assert events[2..][1..] == [];
        assert StatusAfter("on-hold", events[2..]) == StatusAfter("on-hold", []);
      } else {
        assert StatusAfter("processing", events[1..]) == StatusAfter("processing", events[2..]);
        assert events[2..] == [];
      }
    } else {
      assert events[1..] == [];
    }
  }

  /**
   * The notification's reply: code '0' with the success message exactly when
   * an order was named and the status was not unsupported; otherwise code '30'
   * with the exception or unsupported-status message.
   */
  lemma NotificationReplyMeaning(cb: Callback, orderStatus: string, authenticated: bool)
    ensures var n := ServerNotification(cb, orderStatus, authenticated);
      var s := TransactionStatus(cb.statusCode, cb.previousStatusCode);
      (n.replyCode == ReplyOk <==>
        !PhpEmpty(cb.orderId) && (orderStatus == "processing" || s != TxUnsupported)) &&
      (n.replyCode == ReplyOk ==> n.replyMessage == MsgSuccess) &&
      (n.replyCode != ReplyOk ==>
         n.replyCode == ReplyError &&
         n.replyMessage == if PhpEmpty(cb.orderId) then ExceptionMessage(MsgOrderIdEmpty, cb.orderId)
                           else MsgUnsupportedStatus)
  {
    var z, thirty := ReplyOk, ReplyError;
    assert z != thirty;
  }

  /** Whatever the notification did, its reply reads back as exactly its two variables. */
  lemma NotificationReplyDecodes(cb: Callback, orderStatus: string, authenticated: bool)
    ensures var n := ServerNotification(cb, orderStatus, authenticated);
      Decode(ReplyText(n.replyCode, n.replyMessage)) == [("StatusCode", n.replyCode), ("Message", n.replyMessage)]
  {
    var n := ServerNotification(cb, orderStatus, authenticated);
    ReplyConstantsPlain();
    if PhpEmpty(cb.orderId) {
      assert NoChar(cb.orderId, '&');
      ExceptionMessageNoAmpersand(MsgOrderIdEmpty, cb.orderId);
    } else {
      NotificationOutcomeReplies(cb, orderStatus, authenticated, TransactionStatus(cb.statusCode, cb.previousStatusCode));
    }
    ReplyTextDecodes(n.replyCode, n.replyMessage);
  }

  /** The fixed reply codes and messages hold no '&'. */
  lemma ReplyConstantsPlain()
    ensures NoChar(ReplyOk, '&') && NoChar(ReplyError, '&')
    ensures NoChar(MsgSuccess, '&') && NoChar(MsgUnsupportedStatus, '&') && NoChar(MsgOrderIdEmpty, '&')
  {
    var z, thirty, ok, unsupported, empty := ReplyOk, ReplyError, MsgSuccess, MsgUnsupportedStatus, MsgOrderIdEmpty;
    assert NoChar(z, '&') && NoChar(thirty, '&');
    assert NoChar(ok, '&');
    assert NoChar(unsupported, '&');
    assert NoChar(empty, '&');
  }

  /** A notification naming an order replies with one of the fixed codes and messages. */
  lemma NotificationOutcomeReplies(cb: Callback, orderStatus: string, authenticated: bool, s: TxStatus)
    ensures var n := NotificationOutcome(cb, orderStatus, authenticated, s);
      (n.replyCode == ReplyOk || n.replyCode == ReplyError) &&
      (n.replyMessage == MsgSuccess || n.replyMessage == MsgUnsupportedStatus)
  {
  }

  lemma ExceptionMessageNoAmpersand(message: string, orderId: string)
    requires NoChar(message, '&') && NoChar(orderId, '&')
    ensures NoChar(ExceptionMessage(message, orderId), '&')
  {
    var a, b, c := ExceptionHead, ExceptionMiddle, ".";
    assert NoChar(a, '&') && NoChar(b, '&') && NoChar(c, '&');
    NoCharConcat(a, message, '&');
    NoCharConcat(a + message, b, '&');
    NoCharConcat(a + message + b, orderId, '&');
    NoCharConcat(a + message + b + orderId, c, '&');
  }

  /**
   * A notification followed by the customer's redirect for the same order:
   * the customer reaches the order-received page exactly when the
   * notification recorded a success; otherwise the customer is sent back to
   * pay, with the message the notification stored.
   */
  lemma NotificationThenRedirect(cb: Callback, redirectOrderId: string, orderStatus: string, authenticated: bool,
                                 meta: Assoc<string, string>)
    requires !PhpEmpty(cb.orderId) && !PhpEmpty(redirectOrderId)
    ensures var n := ServerNotification(cb, orderStatus, authenticated);
      var s := if orderStatus == "processing" then TxDuplicated
               else TransactionStatus(cb.statusCode, cb.previousStatusCode);
      var (notices, out) := CustomerRedirect(redirectOrderId, ApplyMeta(meta, n.metaOps));
      (out == Redirect(OrderReceivedUrl) <==> s == TxSuccess) &&
      (s != TxSuccess ==>
        out == Redirect(CheckoutPaymentUrl(false)) &&
        notices == [Notice(CustomerError(s, cb.message, cb.statusCode), "error")])
  {
    if orderStatus != "processing" {
      NotificationOutcomeThenRedirect(cb, redirectOrderId, orderStatus, authenticated, meta,
                                      TransactionStatus(cb.statusCode, cb.previousStatusCode));
    } else {
      NotificationOutcomeThenRedirect(cb, redirectOrderId, orderStatus, authenticated, meta, TxDuplicated);
    }
  }

  /** NotificationThenRedirect for a given outcome s of the status table. */
  lemma NotificationOutcomeThenRedirect(cb: Callback, redirectOrderId: string, orderStatus: string, authenticated: bool,
                                        meta: Assoc<string, string>, s: TxStatus)
    requires !PhpEmpty(redirectOrderId)
    ensures var n := NotificationOutcome(cb, orderStatus, authenticated, s);
      var s' := if orderStatus == "processing" then TxDuplicated else s;
      var (notices, out) := CustomerRedirect(redirectOrderId, ApplyMeta(meta, n.metaOps));
      (out == Redirect(OrderReceivedUrl) <==> s' == TxSuccess) &&
      (s' != TxSuccess ==>
        out == Redirect(CheckoutPaymentUrl(false)) &&
        notices == [Notice(CustomerError(s', cb.message, cb.statusCode), "error")])
  {
    var n := NotificationOutcome(cb, orderStatus, authenticated, s);
    var s' := if orderStatus == "processing" then TxDuplicated else s;
    var init := if orderStatus == "processing" then [] else [SetMeta("CrossRef", cb.crossReference)];
    var error := CustomerError(s', cb.message, cb.statusCode);
    assert n.metaOps == init + [SetMeta("PaymentStatus", StatusName(s')), SetMeta("CustomerErrorMsg", error)];
    RedirectAfterOutcomeWrites(redirectOrderId, meta, init, StatusName(s'), error);
    StatusNameSuccess(s');
  }

  /** The customer's redirect reads the two keys an outcome writes last. */
  lemma RedirectAfterOutcomeWrites(redirectOrderId: string, meta: Assoc<string, string>, init: seq<MetaOp>,
                                   status: string, error: string)
    requires !PhpEmpty(redirectOrderId)
    ensures CustomerRedirect(redirectOrderId,
                             ApplyMeta(meta, init + [SetMeta("PaymentStatus", status), SetMeta("CustomerErrorMsg", error)])) ==
      if status == StatusName(TxSuccess) then ([], Redirect(OrderReceivedUrl))
      else ([Notice(error, "error")], Redirect(CheckoutPaymentUrl(false)))
  {
    var first, last := SetMeta("PaymentStatus", status), SetMeta("CustomerErrorMsg", error);
    MetaKeysDiffer();
    MetaValueLastButOne(meta, init, first, last);
    MetaValueLastOp(meta, init + [first], last);
    assert init + [first] + [last] == init + [first, last];
  }

  lemma MetaKeysDiffer()
    ensures "PaymentStatus" != "CustomerErrorMsg"
  {
    assert "PaymentStatus"[0] != "CustomerErrorMsg"[0];
  }

  /** Only a success is stored under the name "success". */
  lemma StatusNameSuccess(s: TxStatus)
    ensures StatusName(s) == StatusName(TxSuccess) <==> s == TxSuccess
  {
    assert StatusName(s)[0] == StatusName(TxSuccess)[0] ==> s == TxSuccess;
  }

  /**
   * After a POST result for a hosted order, the thank-you text is kept
   * exactly when the payment succeeded: a failure or an unsupported status
   * leaves a non-empty error message that blanks it.
   */
  lemma PostResponseThenReceivedText(cb: Callback, orderStatus: string, authenticated: bool,
                                     meta: Assoc<string, string>, text: string)
    requires !PhpEmpty(cb.orderId) && orderStatus != "processing"
    ensures var p := PostResponse(cb, orderStatus, authenticated);
      var s := TransactionStatus(cb.statusCode, cb.previousStatusCode);
      OrderReceivedText(text, HostedId, ApplyMeta(meta, p.metaOps)) == (if s == TxSuccess then text else "") &&
      p.out == Redirect(OrderReceivedUrl)
  {
    PostOutcomeThenReceivedText(cb, orderStatus, authenticated, meta, text,
                                TransactionStatus(cb.statusCode, cb.previousStatusCode));
  }

  /** PostResponseThenReceivedText for a given outcome s of the status table. */
  lemma PostOutcomeThenReceivedText(cb: Callback, orderStatus: string, authenticated: bool,
                                    meta: Assoc<string, string>, text: string, s: TxStatus)
    requires orderStatus != "processing"
    ensures var p := PostOutcome(cb, orderStatus, authenticated, s);
      OrderReceivedText(text, HostedId, ApplyMeta(meta, p.metaOps)) == (if s == TxSuccess then text else "") &&
      p.out == Redirect(OrderReceivedUrl)
  {
    var ops := PostOutcome(cb, orderStatus, authenticated, s).metaOps;
    assert ops == [ops[0]] + [ops[1]];
    MetaValueLastOp(meta, [ops[0]], ops[1]);
    if s != TxSuccess {
      CustomerErrorNotEmpty(s, cb.message, cb.statusCode);
    }
  }

  /** Every outcome but a success leaves a message that empty() does not discard. */
  lemma CustomerErrorNotEmpty(s: TxStatus, message: string, code: string)
    requires s != TxSuccess
    ensures !PhpEmpty(CustomerError(s, message, code))
  {
    assert |CustomerError(s, message, code)| > 1;
  }

  /** PHP's empty() makes a setting of "0" count as missing, so such a method is not offered. */
  lemma ZeroSettingUnconfigured(merchantId: string, password: string, preSharedKey: string)
    ensures Configured(merchantId, password, preSharedKey) ==>
      |merchantId| > 0 && |password| > 0 && |preSharedKey| > 0
    ensures !Configured(merchantId, "0", preSharedKey)
    ensures Configured("ABCDEF-1234567", "00", "key")
  {
  }
}
