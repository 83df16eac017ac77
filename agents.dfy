/**
 * The tool functions the customer-support agent calls (backend/agents.py):
 * a case-insensitive product catalog, an exact-key order table and the
 * refund gate that pauses large refunds for a human confirmation.
 */
module Agents {
  import opened Wrappers

  // ---------------------------------------------------------------------
  // Results of the lookup tools: `{"status": "success", ...}` or
  // `{"status": "error", "error_message": ...}`.
  // ---------------------------------------------------------------------

  datatype LookupResult<T> = Success(info: T) | Error(errorMessage: string)

  /** `s` occurs inside `text` starting at position `i`. */
  predicate OccursAt(text: string, s: string, i: int)
  {
    0 <= i <= |text| - |s| && text[i..i + |s|] == s
  }

  /** `s` occurs somewhere inside `text`. */
  ghost predicate Contains(text: string, s: string)
  {
    exists i :: OccursAt(text, s, i)
  }

  // ---------------------------------------------------------------------
  // product_catalog_lookup
  // ---------------------------------------------------------------------

  /** The fixed catalog; every key is already lower case. */
  function ProductCatalog(): map<string, string>
  {
    map[
      "iphone 15 pro" := "iPhone 15 Pro, $999, Low Stock (8 units), Titanium",
      "dell xps 15" := "Dell XPS 15, $1299, In Stock (45 units), 16GB RAM",
      "sony wh-1000xm5" := "Sony WH-1000XM5, $399, In Stock (67 units)"
    ]
  }

  function LowerChar(c: char): char
  {
    if 'A' <= c <= 'Z' then (c as int - 'A' as int + 'a' as int) as char else c
  }

  /** Python's `str.lower()`, restricted to the ASCII letters. */
  function ToLower(s: string): (r: string)
    ensures |r| == |s|
    ensures forall i :: 0 <= i < |s| ==> r[i] == LowerChar(s[i])
  {
    seq(|s|, i requires 0 <= i < |s| => LowerChar(s[i]))
  }

  /** Two characters that are equal up to ASCII letter case. */
  predicate SameLetterIgnoringCase(a: char, b: char)
  {
    a == b
    || ('A' <= a <= 'Z' && b as int == a as int + 32)
    || ('a' <= a <= 'z' && b as int == a as int - 32)
  }

  /** `b` is `a` with the case of some of its letters changed. */
  predicate CaseVariant(a: string, b: string)
  {
    |a| == |b| && forall i :: 0 <= i < |a| ==> SameLetterIgnoringCase(a[i], b[i])
  }

  function NotFoundMessage(productName: string): string
  {
    "Product '" + productName + "' not found"
  }

  /**
   * Looks the lower-cased name up in the catalog. A hit needs a truthy
   * (non-empty) entry; a miss reports the name exactly as given.
   */
  function ProductCatalogLookup(productName: string): (r: LookupResult<string>)
    ensures r.Success? <==> ToLower(productName) in ProductCatalog()
    ensures r.Success? ==> r.info == ProductCatalog()[ToLower(productName)]
    ensures r.Error? ==> r.errorMessage == NotFoundMessage(productName)
  {
    var key := ToLower(productName);
    if key in ProductCatalog() && ProductCatalog()[key] != "" then
      Success(ProductCatalog()[key])
    else
      Error(NotFoundMessage(productName))
  }

  /** Changing the case of letters in the input never changes the lookup key. */
  lemma {:induction false} CaseVariantSameKey(a: string, b: string)
    requires CaseVariant(a, b)
    ensures ToLower(a) == ToLower(b)
  {
  }

  /**
   * Case changes in the product name give the same success or failure, and
   * the same product information on success.
   */
  lemma {:induction false} ProductLookupIgnoresCase(a: string, b: string)
    requires CaseVariant(a, b)
    ensures ProductCatalogLookup(a).Success? <==> ProductCatalogLookup(b).Success?
    ensures ProductCatalogLookup(a).Success? ==> ProductCatalogLookup(a) == ProductCatalogLookup(b)
  {
    CaseVariantSameKey(a, b);
  }

  /** Every catalog key is found by itself. */
  lemma {:induction false} CatalogKeysFound(key: string)
    requires key in ProductCatalog()
    ensures ProductCatalogLookup(key) == Success(ProductCatalog()[key])
  {
    assert ToLower(key) == key;
  }

  // ---------------------------------------------------------------------
  // order_lookup
  // ---------------------------------------------------------------------

  datatype OrderRecord = OrderRecord(orderId: string, customer: string, amount: real, status: string)

  /** The fixed order table. */
  function Orders(): map<string, OrderRecord>
  {
    map[
      "ORD-001" := OrderRecord("ORD-001", "Ravi", 250.0, "DELIVERED"),
      "ORD-002" := OrderRecord("ORD-002", "Sam", 75.0, "RETURNED")
    ]
  }

  const OrderNotFound: string := "Order not found"

  /** An exact, case-sensitive key match in the order table. */
  function OrderLookup(orderId: string): (r: LookupResult<OrderRecord>)
    ensures r.Success? <==> orderId == "ORD-001" || orderId == "ORD-002"
    ensures r.Success? ==> r.info.orderId == orderId && r.info == Orders()[orderId]
    ensures r.Error? ==> r.errorMessage == OrderNotFound
  {
    if orderId in Orders() then Success(Orders()[orderId]) else Error(OrderNotFound)
  }

  // ---------------------------------------------------------------------
  // request_refund
  // ---------------------------------------------------------------------

  const LargeRefundThreshold: real := 100.0

  datatype RefundResult =
    | Approved(refundId: string, amount: real)
    | Pending(message: string)
    | Rejected(message: string)

  /** The `payload` of a confirmation request. */
  datatype RefundPayload = RefundPayload(orderId: string, amount: real)

  /** What `tool_context.request_confirmation` records. */
  datatype ConfirmationRequest = ConfirmationRequest(hint: string, payload: RefundPayload)

  /** The tool's answer together with the confirmation request it made, if any. */
  datatype RefundOutcome = RefundOutcome(result: RefundResult, request: Option<ConfirmationRequest>)

  const AutoSuffix: string := "-AUTO"
  const HumanSuffix: string := "-HUMAN"

  function RefundId(orderId: string, suffix: string): string
  {
    "REF-" + orderId + suffix
  }

  /**
   * The question shown to the approver; `amountText` is the amount as
   * Python renders a float inside an f-string.
   */
  function RefundHint(orderId: string, amountText: string): (h: string)
    ensures Contains(h, orderId) && Contains(h, amountText)
  {
    var prefix := "Approve refund of $";
    var h := prefix + amountText + " for order " + orderId + "?";
    assert OccursAt(h, amountText, |prefix|);
    assert OccursAt(h, orderId, |prefix + amountText + " for order "|);
    h
  }

  /**
   * The refund gate. `confirmation` is the prior human decision
   * (`tool_context.tool_confirmation`): None on the first call.
   */
  function RequestRefund(orderId: string, amount: real, confirmation: Option<bool>, amountText: string): (out: RefundOutcome)
    ensures out.request.Some? <==> out.result.Pending?
    ensures out.result.Pending? <==> amount > LargeRefundThreshold && confirmation.None?
    ensures out.result.Approved? ==> out.result.amount == amount
    ensures out.result.Rejected? <==> amount > LargeRefundThreshold && confirmation == Some(false)
    ensures out.request.Some? ==>
      out.request.value.payload == RefundPayload(orderId, amount)
      && Contains(out.request.value.hint, orderId)
      && Contains(out.request.value.hint, amountText)
  {
    if amount <= LargeRefundThreshold then
      RefundOutcome(Approved(RefundId(orderId, AutoSuffix), amount), None)
    else if confirmation.None? then
      RefundOutcome(
        Pending("Awaiting human approval"),
        Some(ConfirmationRequest(RefundHint(orderId, amountText), RefundPayload(orderId, amount))))
    else if confirmation.value then
      RefundOutcome(Approved(RefundId(orderId, HumanSuffix), amount), None)
    else
      RefundOutcome(Rejected("Refund rejected"), None)
  }

  predicate EndsWith(s: string, suffix: string)
  {
    |suffix| <= |s| && s[|s| - |suffix|..] == suffix
  }

  /**
   * The refund id names its order and its path: two refunds, automatic or
   * human-approved, share a refund id only for the same order on the same path.
   */
  lemma {:induction false} RefundIdInjective(a: string, s1: string, b: string, s2: string)
    requires s1 == AutoSuffix || s1 == HumanSuffix
    requires s2 == AutoSuffix || s2 == HumanSuffix
    requires RefundId(a, s1) == RefundId(b, s2)
    ensures a == b && s1 == s2
  {
    var ra, rb := RefundId(a, s1), RefundId(b, s2);
    assert ra[|ra| - 1] == s1[|s1| - 1];
    assert rb[|rb| - 1] == s2[|s2| - 1];
    assert s1 == s2;
    assert |a| == |b|;
    assert a == ra[4..4 + |a|];
    assert b == rb[4..4 + |b|];
  }

  /**
   * An approved refund id ends in "-AUTO" exactly when the amount is at or
   * below the threshold, and in "-HUMAN" otherwise.
   */
  lemma {:induction false} ApprovedSuffixTellsPath(orderId: string, amount: real, confirmation: Option<bool>, amountText: string)
    requires RequestRefund(orderId, amount, confirmation, amountText).result.Approved?
    ensures var id := RequestRefund(orderId, amount, confirmation, amountText).result.refundId;
      (EndsWith(id, AutoSuffix) <==> amount <= LargeRefundThreshold)
      && (EndsWith(id, HumanSuffix) <==> amount > LargeRefundThreshold)
  {
    var id := RequestRefund(orderId, amount, confirmation, amountText).result.refundId;
    if amount <= LargeRefundThreshold {
      assert id[|id| - |AutoSuffix|..] == AutoSuffix;
      assert id[|id| - 1] == 'O';
      assert !EndsWith(id, HumanSuffix);
    } else {
      assert id[|id| - |HumanSuffix|..] == HumanSuffix;
      assert id[|id| - 1] == 'N';
      assert !EndsWith(id, AutoSuffix);
    }
  }

  /** At or below the threshold the prior confirmation is ignored. */
  lemma {:induction false} SmallRefundAutoApproved(orderId: string, amount: real, confirmation: Option<bool>, amountText: string)
    requires amount <= LargeRefundThreshold
    ensures RequestRefund(orderId, amount, confirmation, amountText)
      == RefundOutcome(Approved("REF-" + orderId + "-AUTO", amount), None)
  {
  }

  /**
   * The pause-and-resume life of one large refund: the first call asks for a
   * confirmation and the resumed call settles it by the human's answer.
   */
  lemma {:induction false} LargeRefundLifecycle(orderId: string, amount: real, amountText: string)
    requires amount > LargeRefundThreshold
    ensures RequestRefund(orderId, amount, None, amountText).result == Pending("Awaiting human approval")
    ensures RequestRefund(orderId, amount, Some(true), amountText)
      == RefundOutcome(Approved("REF-" + orderId + "-HUMAN", amount), None)
    ensures RequestRefund(orderId, amount, Some(false), amountText)
      == RefundOutcome(Rejected("Refund rejected"), None)
  {
  }

  /**
   * The two orders of the table: refunding ORD-001 in full needs a human,
   * refunding ORD-002 in full is automatic.
   */
  lemma {:induction false} FullRefundsOfKnownOrders(amountText: string)
    ensures OrderLookup("ORD-001") == Success(OrderRecord("ORD-001", "Ravi", 250.0, "DELIVERED"))
    ensures RequestRefund("ORD-001", OrderLookup("ORD-001").info.amount, None, amountText).result.Pending?
    ensures RequestRefund("ORD-002", OrderLookup("ORD-002").info.amount, None, amountText).result
      == Approved("REF-ORD-002-AUTO", 75.0)
    ensures OrderLookup("ORD-999") == Error("Order not found")
    ensures OrderLookup("ord-001").Error?
  {
  }

  // ---------------------------------------------------------------------
  // The tool context: the only state request_refund changes.
  // ---------------------------------------------------------------------

  class ToolContext {
    /** The human's answer when the tool is resumed; None on the first call. */
    const toolConfirmation: Option<bool>
    /** The confirmation request recorded by this call of the tool, if any. */
    var requestedConfirmation: Option<ConfirmationRequest>

    constructor (toolConfirmation: Option<bool>)
      ensures this.toolConfirmation == toolConfirmation
      ensures requestedConfirmation.None?
    {
      this.toolConfirmation := toolConfirmation;
      requestedConfirmation := None;
    }

    method RequestConfirmation(hint: string, payload: RefundPayload)
      modifies this
      ensures requestedConfirmation == Some(ConfirmationRequest(hint, payload))
    {
      requestedConfirmation := Some(ConfirmationRequest(hint, payload));
    }
  }

  /**
   * request_refund as the agent runs it: the decision of RequestRefund, with
   * the confirmation request written into the context on the pending path
   * and the context left alone on the other two.
   */
  method RequestRefundTool(orderId: string, amount: real, amountText: string, ctx: ToolContext)
    returns (r: RefundResult)
    modifies ctx
    ensures r == RequestRefund(orderId, amount, ctx.toolConfirmation, amountText).result
    ensures ctx.requestedConfirmation ==
      if r.Pending? then RequestRefund(orderId, amount, ctx.toolConfirmation, amountText).request
      else old(ctx.requestedConfirmation)
  {
    if amount <= LargeRefundThreshold {
      return Approved(RefundId(orderId, AutoSuffix), amount);
    }
    if ctx.toolConfirmation.None? {
      ctx.RequestConfirmation(RefundHint(orderId, amountText), RefundPayload(orderId, amount));
      return Pending("Awaiting human approval");
    }
    if ctx.toolConfirmation.value {
      r := Approved(RefundId(orderId, HumanSuffix), amount);
    } else {
      r := Rejected("Refund rejected");
    }
  }
}
