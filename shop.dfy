/**
 * The WooCommerce collaborators the gateway changes: an order (its status,
 * its post meta and the record of notes and status changes), and the
 * storefront (customer notices, the session and the cart). Only the effects
 * the gateway relies on are modelled.
 */
module Shop {
  import opened PhpStrings
  import opened PhpArrays

  /** What happened to an order, in order. */
  datatype OrderEvent =
    | StatusChanged(status: string, note: string)
    | NoteAdded(note: string)
    | PaymentCompleted

  /** `delete_post_meta`: the array without the key; every other entry kept in order. */
  function RemoveKey(a: Assoc<string, string>, k: string): (r: Assoc<string, string>)
    ensures !HasKey(r, k)
    ensures forall j :: j != k && HasKey(a, j) ==> HasKey(r, j)
    ensures forall i :: 0 <= i < |r| ==> exists j :: 0 <= j < |a| && a[j] == r[i]
  {
    if a == [] then []
    else
      var rest := RemoveKey(a[1..], k);
      var r := (if a[0].0 == k then [] else [a[0]]) + rest;
      forall j | j != k && HasKey(a, j) ensures HasKey(r, j) {
        var i :| 0 <= i < |a| && a[i].0 == j;
        if i > 0 {
          assert a[1..][i - 1].0 == j;
          assert HasKey(a[1..], j);
          assert HasKey(rest, j);
          var m :| 0 <= m < |rest| && rest[m].0 == j;
          assert r[|r| - |rest| + m] == rest[m];
        } else {
          assert r[0].0 == j;
        }
      }
      forall i | 0 <= i < |r| ensures exists j :: 0 <= j < |a| && a[j] == r[i] {
        if a[0].0 == k || i > 0 {
          var i' := if a[0].0 == k then i else i - 1;
          var j :| 0 <= j < |a[1..]| && a[1..][j] == rest[i'];
          assert a[j + 1] == r[i];
        } else {
          assert a[0] == r[i];
        }
      }
      r
  }

  /** After a delete the key reads as missing; every other key reads as before. */
  lemma {:induction false} RemoveKeyLookup(a: Assoc<string, string>, k: string, key: string)
    ensures Lookup(RemoveKey(a, k), key) == if key == k then None else Lookup(a, key)
    decreases |a|
  {
    var r := RemoveKey(a, k);
    if key == k {
      assert IndexOf(r, key).None?;
    } else if a != [] {
      RemoveKeyLookup(a[1..], k, key);
      var rest := RemoveKey(a[1..], k);
      LookupTail(a, key);
      if a[0].0 == k {
        assert r == [] + rest;
        assert r == rest;
      } else {
        assert r == [a[0]] + rest;
        LookupCons(a[0], rest, key);
      }
    }
  }

  /** `get_post_meta($id, $key, true)`: the value, or '' when the key is missing. */
  function MetaValue(meta: Assoc<string, string>, key: string): string
  {
    match Lookup(meta, key)
    case Some(v) => v
    case None => ""
  }

  /** One write to an order's post meta: `update_post_meta` or `delete_post_meta`. */
  datatype MetaOp = SetMeta(key: string, value: string) | DeleteMetaKey(key: string)

  function ApplyMetaOp(meta: Assoc<string, string>, op: MetaOp): Assoc<string, string>
  {
    match op
    case SetMeta(k, v) => Put(meta, k, v)
    case DeleteMetaKey(k) => RemoveKey(meta, k)
  }

  /** The post meta after the writes, in order. */
  function ApplyMeta(meta: Assoc<string, string>, ops: seq<MetaOp>): Assoc<string, string>
    decreases |ops|
  {
    if ops == [] then meta else ApplyMeta(ApplyMetaOp(meta, ops[0]), ops[1..])
  }

  /** What an event does to the order's status: payment_complete moves it to 'processing'. */
  function StatusStep(status: string, e: OrderEvent): string
  {
    match e
    case StatusChanged(s, _) => s
    case NoteAdded(_) => status
    case PaymentCompleted => "processing"
  }

  /** The order's status after the events, in order. */
  function StatusAfter(status: string, events: seq<OrderEvent>): string
    decreases |events|
  {
    if events == [] then status else StatusAfter(StatusStep(status, events[0]), events[1..])
  }

  lemma {:induction false} ApplyMetaSnoc(meta: Assoc<string, string>, ops: seq<MetaOp>, op: MetaOp)
    ensures ApplyMeta(meta, ops + [op]) == ApplyMetaOp(ApplyMeta(meta, ops), op)
    decreases |ops|
  {
    if ops == [] {
      assert [] + [op] == [op];
      assert [op][1..] == [];
    } else {
      assert (ops + [op])[0] == ops[0];
      assert (ops + [op])[1..] == ops[1..] + [op];
      ApplyMetaSnoc(ApplyMetaOp(meta, ops[0]), ops[1..], op);
    }
  }

  /** Two meta writes in a row. */
  lemma ApplyTwoMeta(meta: Assoc<string, string>, first: MetaOp, second: MetaOp)
    ensures ApplyMeta(meta, [first, second]) == ApplyMetaOp(ApplyMetaOp(meta, first), second)
  {
    var once := ApplyMetaOp(meta, first);
    assert ApplyMeta(meta, [first, second]) == ApplyMeta(once, [second]) by {
      assert [first, second][0] == first && [first, second][1..] == [second];
    }
    assert ApplyMeta(once, [second]) == ApplyMeta(ApplyMetaOp(once, second), []) by {
      assert [second][0] == second && [second][1..] == [];
    }
  }

  /** A first meta write followed by the rest. */
  lemma ApplyMetaCons(meta: Assoc<string, string>, op: MetaOp, rest: seq<MetaOp>)
    ensures ApplyMeta(meta, [op] + rest) == ApplyMeta(ApplyMetaOp(meta, op), rest)
  {
    assert ([op] + rest)[0] == op && ([op] + rest)[1..] == rest;
  }

  lemma ApplyThreeMeta(meta: Assoc<string, string>, first: MetaOp, second: MetaOp, third: MetaOp)
    ensures ApplyMeta(meta, [first, second, third]) == ApplyMeta(ApplyMetaOp(meta, first), [second, third])
  {
    assert [first, second, third][1..] == [second, third];
  }

  lemma {:induction false} StatusAfterSnoc(status: string, events: seq<OrderEvent>, e: OrderEvent)
    ensures StatusAfter(status, events + [e]) == StatusStep(StatusAfter(status, events), e)
    decreases |events|
  {
    if events == [] {
      assert [] + [e] == [e];
      assert [e][1..] == [];
    } else {
      assert (events + [e])[0] == events[0];
      assert (events + [e])[1..] == events[1..] + [e];
      StatusAfterSnoc(StatusStep(status, events[0]), events[1..], e);
    }
  }

  /** Reading a key after writes: the value of the last write to it, if any, else what was there. */
  function LastWrite(ops: seq<MetaOp>, key: string): Option<Option<string>>
    decreases |ops|
  {
    if ops == [] then None
    else
      var op := ops[|ops| - 1];
      if op.key == key then Some(if op.SetMeta? then Some(op.value) else None)
      else LastWrite(ops[..|ops| - 1], key)
  }

  /** A key reads the last value written to it, '' after a delete, and its old value when untouched. */
  lemma {:induction false} MetaValueAfter(meta: Assoc<string, string>, ops: seq<MetaOp>, key: string)
    ensures MetaValue(ApplyMeta(meta, ops), key) ==
      match LastWrite(ops, key)
      case None => MetaValue(meta, key)
      case Some(None) => ""
      case Some(Some(v)) => v
    decreases |ops|
  {
    if ops != [] {
      var init := ops[..|ops| - 1];
      var op := ops[|ops| - 1];
      assert ops == init + [op];
      ApplyMetaSnoc(meta, init, op);
      MetaValueAfter(meta, init, key);
      var before := ApplyMeta(meta, init);
      match op
      case SetMeta(k, v) =>
        if k == key { LookupPut(before, k, v); } else { LookupPutOther(before, k, v, key); }
      case DeleteMetaKey(k) =>
        RemoveKeyLookup(before, k, key);
    }
  }

  /** The key of the last write reads that write. */
  lemma MetaValueLastOp(meta: Assoc<string, string>, ops: seq<MetaOp>, op: MetaOp)
    ensures MetaValue(ApplyMeta(meta, ops + [op]), op.key) == (if op.SetMeta? then op.value else "")
  {
    ApplyMetaSnoc(meta, ops, op);
    var before := ApplyMeta(meta, ops);
    match op
    case SetMeta(k, v) => LookupPut(before, k, v);
    case DeleteMetaKey(k) => RemoveKeyLookup(before, k, k);
  }

  /** The key of the last-but-one write reads that write when the last write is to another key. */
  lemma MetaValueLastButOne(meta: Assoc<string, string>, ops: seq<MetaOp>, op: MetaOp, last: MetaOp)
    requires op.key != last.key
    ensures MetaValue(ApplyMeta(meta, ops + [op, last]), op.key) == (if op.SetMeta? then op.value else "")
  {
    assert ops + [op, last] == (ops + [op]) + [last];
    ApplyMetaSnoc(meta, ops + [op], last);
    MetaValueLastOp(meta, ops, op);
    var before := ApplyMeta(meta, ops + [op]);
    match last
    case SetMeta(k, v) => LookupPutOther(before, k, v, op.key);
    case DeleteMetaKey(k) => RemoveKeyLookup(before, k, op.key);
  }

  class Order {
    const id: string
    const paymentMethod: string
    var status: string
    var meta: Assoc<string, string>
    var events: seq<OrderEvent>

    constructor(id: string, paymentMethod: string, status: string, meta: Assoc<string, string>)
      ensures this.id == id && this.paymentMethod == paymentMethod
      ensures this.status == status && this.meta == meta && events == []
    {
      this.id := id;
      this.paymentMethod := paymentMethod;
      this.status := status;
      this.meta := meta;
      events := [];
    }

    /** `update_status($status, $note)` */
    method UpdateStatus(newStatus: string, note: string)
      modifies this
      ensures status == newStatus && meta == old(meta)
      ensures events == old(events) + [StatusChanged(newStatus, note)]
    {
      status := newStatus;
      events := events + [StatusChanged(newStatus, note)];
    }

    /** `add_order_note($note)` */
    method AddNote(note: string)
      modifies this
      ensures status == old(status) && meta == old(meta)
      ensures events == old(events) + [NoteAdded(note)]
    {
      events := events + [NoteAdded(note)];
    }

    /** `payment_complete()`: the order moves to 'processing'. */
    method PaymentComplete()
      modifies this
      ensures status == "processing" && meta == old(meta)
      ensures events == old(events) + [PaymentCompleted]
    {
      status := "processing";
      events := events + [PaymentCompleted];
    }

    /** `update_post_meta($id, $key, $value)` */
    method UpdateMeta(key: string, value: string)
      modifies this
      ensures meta == Put(old(meta), key, value)
      ensures status == old(status) && events == old(events)
    {
      meta := Put(meta, key, value);
    }

    /** `delete_post_meta($id, $key)` */
    method DeleteMeta(key: string)
      modifies this
      ensures meta == RemoveKey(old(meta), key)
      ensures status == old(status) && events == old(events)
    {
      meta := RemoveKey(meta, key);
    }

    function GetMeta(key: string): string
      reads this
    {
      MetaValue(meta, key)
    }
  }

  /** `wc_add_notice($text, $type)` */
  datatype Notice = Notice(text: string, noticeType: string)

  /** Where the customer is sent. */
  datatype Location =
    | CheckoutPaymentUrl(onCheckoutPayPage: bool)   // `get_checkout_payment_url($on_checkout)`
    | OrderReceivedUrl                              // `get_checkout_order_received_url()`
    | ReturnUrl                                     // `get_return_url($order)`
    | OrderPayEndpoint                              // the 'order-pay' endpoint of the payment page

  class Storefront {
    var notices: seq<Notice>
    var session: Assoc<string, PhpValue>
    var cartEmptied: bool

    constructor()
      ensures notices == [] && session == [] && !cartEmptied
    {
      notices := [];
      session := [];
      cartEmptied := false;
    }

    method AddNotice(text: string, noticeType: string)
      modifies this
      ensures notices == old(notices) + [Notice(text, noticeType)]
      ensures session == old(session) && cartEmptied == old(cartEmptied)
    {
      notices := notices + [Notice(text, noticeType)];
    }

    /** `wc_clear_notices()` */
    method ClearNotices()
      modifies this
      ensures notices == []
      ensures session == old(session) && cartEmptied == old(cartEmptied)
    {
      notices := [];
    }

    /** `WC()->session->set($key, $value)` */
    method SetSession(key: string, value: PhpValue)
      modifies this
      ensures session == Put(old(session), key, value)
      ensures notices == old(notices) && cartEmptied == old(cartEmptied)
    {
      session := Put(session, key, value);
    }

    /** `WC()->cart->empty_cart()` */
    method EmptyCart()
      modifies this
      ensures cartEmptied
      ensures notices == old(notices) && session == old(session)
    {
      cartEmptied := true;
    }
  }
}
