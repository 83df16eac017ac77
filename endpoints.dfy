/**
 * The two HTTP handlers of backend/main.py, minus the web framework and the
 * agent runtime: the fold that turns the events of one agent turn into the
 * reply of `/message` and of `/approve`, and the confirmation message that
 * `/approve` sends to resume a paused turn.
 */
module Endpoints {
  import opened Wrappers
  import Agents

  // ---------------------------------------------------------------------
  // The runtime's event shapes (only the fields the handlers read).
  // ---------------------------------------------------------------------

  /** A JSON value, as carried by function-call arguments and responses. */
  datatype Value =
    | Null
    | Bool(b: bool)
    | Number(n: real)
    | Str(s: string)
    | List(items: seq<Value>)
    | Object(fields: map<string, Value>)

  datatype FunctionCall = FunctionCall(id: Option<string>, name: Option<string>, args: Option<map<string, Value>>)

  datatype FunctionResponse = FunctionResponse(id: Option<string>, name: Option<string>, response: Option<map<string, Value>>)

  datatype Part = Part(text: Option<string>, functionCall: Option<FunctionCall>, functionResponse: Option<FunctionResponse>)

  datatype Content = Content(role: Option<string>, parts: Option<seq<Part>>)

  datatype Event = Event(invocationId: string, content: Option<Content>)

  /** One entry of the `approvals` list of `/message`. */
  datatype Approval = Approval(approvalId: Option<string>, invocationId: string, payload: Option<map<string, Value>>)

  /** The body returned by `/message`. */
  datatype MessageReply = MessageReply(events: nat, responses: seq<string>, approvals: seq<Approval>)

  /** The body returned by `/approve`. */
  datatype ApproveReply = ApproveReply(events: nat, responses: seq<string>)

  /** The name under which the runtime asks for a human confirmation. */
  const ConfirmationFunctionName: string := "adk_request_confirmation"

  // ---------------------------------------------------------------------
  // The classification, as functions.
  // ---------------------------------------------------------------------

  /** The parts of an event; an event without content or without parts has none. */
  function PartsOf(e: Event): seq<Part>
  {
    if e.content.Some? && e.content.value.parts.Some? then e.content.value.parts.value else []
  }

  /** The part's text is present and truthy, i.e. not the empty string. */
  predicate HasText(p: Part)
  {
    p.text.Some? && p.text.value != ""
  }

  /** The part is a call of the confirmation function. */
  predicate IsConfirmationCall(p: Part)
  {
    p.functionCall.Some? && p.functionCall.value.name == Some(ConfirmationFunctionName)
  }

  /** The approval entry for a confirmation call inside an event with the given invocation id. */
  function ApprovalOf(invocationId: string, p: Part): Approval
    requires IsConfirmationCall(p)
  {
    Approval(p.functionCall.value.id, invocationId, p.functionCall.value.args)
  }

  /** The texts of the parts, in part order. */
  function TextsOfParts(ps: seq<Part>): (r: seq<string>)
    ensures |r| <= |ps|
    ensures forall t :: t in r ==> t != ""
  {
    if ps == [] then []
    else
      var last := ps[|ps| - 1];
      TextsOfParts(ps[..|ps| - 1]) + (if HasText(last) then [last.text.value] else [])
  }

  /** The approval entries of the parts, in part order. */
  function ApprovalsOfParts(invocationId: string, ps: seq<Part>): (r: seq<Approval>)
    ensures |r| <= |ps|
    ensures forall a :: a in r ==> a.invocationId == invocationId
  {
    if ps == [] then []
    else
      var last := ps[|ps| - 1];
      ApprovalsOfParts(invocationId, ps[..|ps| - 1])
        + (if IsConfirmationCall(last) then [ApprovalOf(invocationId, last)] else [])
  }

  function TotalParts(events: seq<Event>): nat
  {
    if events == [] then 0 else TotalParts(events[..|events| - 1]) + |PartsOf(events[|events| - 1])|
  }

  /** The `responses` of a turn: the texts of all parts, event by event. */
  function Responses(events: seq<Event>): (r: seq<string>)
    ensures |r| <= TotalParts(events)
    ensures forall t :: t in r ==> t != ""
  {
    if events == [] then []
    else Responses(events[..|events| - 1]) + TextsOfParts(PartsOf(events[|events| - 1]))
  }

  /** The `approvals` of a turn: the confirmation calls of all parts, event by event. */
  function Approvals(events: seq<Event>): (r: seq<Approval>)
    ensures |r| <= TotalParts(events)
  {
    if events == [] then []
    else
      var e := events[|events| - 1];
      Approvals(events[..|events| - 1]) + ApprovalsOfParts(e.invocationId, PartsOf(e))
  }

  // ---------------------------------------------------------------------
  // The handlers' loops.
  // ---------------------------------------------------------------------

  /**
   * The inner loop of `/message` over the parts of one event: appends each
   * non-empty text and the approval entry of each confirmation call.
   */
  method FoldParts(invocationId: string, parts: seq<Part>, responses0: seq<string>, approvals0: seq<Approval>)
    returns (responses: seq<string>, approvals: seq<Approval>)
    ensures responses == responses0 + TextsOfParts(parts)
    ensures approvals == approvals0 + ApprovalsOfParts(invocationId, parts)
  {
    responses, approvals := responses0, approvals0;
    for j := 0 to |parts|
      invariant responses == responses0 + TextsOfParts(parts[..j])
      invariant approvals == approvals0 + ApprovalsOfParts(invocationId, parts[..j])
    {
      var p := parts[j];
      assert parts[..j + 1][..j] == parts[..j];
      if p.text.Some? && p.text.value != "" {
        responses := responses + [p.text.value];
      }
      if p.functionCall.Some? {
        var fc := p.functionCall.value;
        if fc.name == Some(ConfirmationFunctionName) {
          approvals := approvals + [Approval(fc.id, invocationId, fc.args)];
        }
      }
    }
    assert parts[..|parts|] == parts;
  }

  /** The event loop of `/message` over the events the runtime produced for one turn. */
  method PostMessage(events: seq<Event>) returns (reply: MessageReply)
    ensures reply.events == |events|
    ensures reply.responses == Responses(events)
    ensures reply.approvals == Approvals(events)
  {
    var responses: seq<string> := [];
    var approvals: seq<Approval> := [];
    for i := 0 to |events|
      invariant responses == Responses(events[..i])
      invariant approvals == Approvals(events[..i])
    {
      var e := events[i];
      assert events[..i + 1][..i] == events[..i];
      if e.content.Some? && e.content.value.parts.Some? && e.content.value.parts.value != [] {
        responses, approvals := FoldParts(e.invocationId, e.content.value.parts.value, responses, approvals);
      }
    }
    assert events[..|events|] == events;
    reply := MessageReply(|events|, responses, approvals);
  }

  /** The inner loop of `/approve` over the parts of one event: appends each non-empty text. */
  method FoldTexts(parts: seq<Part>, responses0: seq<string>) returns (responses: seq<string>)
    ensures responses == responses0 + TextsOfParts(parts)
  {
    responses := responses0;
    for j := 0 to |parts|
      invariant responses == responses0 + TextsOfParts(parts[..j])
    {
      var p := parts[j];
      assert parts[..j + 1][..j] == parts[..j];
      if p.text.Some? && p.text.value != "" {
        responses := responses + [p.text.value];
      }
    }
    assert parts[..|parts|] == parts;
  }

  /** The event loop of `/approve`: texts only. */
  method Approve(events: seq<Event>) returns (reply: ApproveReply)
    ensures reply.events == |events|
    ensures reply.responses == Responses(events)
  {
    var finalResponses: seq<string> := [];
    for i := 0 to |events|
      invariant finalResponses == Responses(events[..i])
    {
      var e := events[i];
      assert events[..i + 1][..i] == events[..i];
      if e.content.Some? && e.content.value.parts.Some? && e.content.value.parts.value != [] {
        finalResponses := FoldTexts(e.content.value.parts.value, finalResponses);
      }
    }
    assert events[..|events|] == events;
    reply := ApproveReply(|events|, finalResponses);
  }

  // ---------------------------------------------------------------------
  // What the folds keep: membership in both directions.
  // ---------------------------------------------------------------------

  lemma {:induction false} TextsOfPartsMembership(ps: seq<Part>, t: string)
    ensures t in TextsOfParts(ps) <==> exists j :: 0 <= j < |ps| && ps[j].text == Some(t) && t != ""
  {
    if ps != [] {
      var init := ps[..|ps| - 1];
      TextsOfPartsMembership(init, t);
      if t in TextsOfParts(ps) && t in TextsOfParts(init) {
        var j :| 0 <= j < |init| && init[j].text == Some(t) && t != "";
        assert ps[j] == init[j];
      }
      if exists j :: 0 <= j < |ps| && ps[j].text == Some(t) && t != "" {
        var j :| 0 <= j < |ps| && ps[j].text == Some(t) && t != "";
        if j < |init| {
          assert init[j] == ps[j];
        }
      }
    }
  }

  /** Part `j` of event `i` carries the non-empty text `t`. */
  predicate TextAt(events: seq<Event>, i: int, j: int, t: string)
  {
    0 <= i < |events| && 0 <= j < |PartsOf(events[i])| && PartsOf(events[i])[j].text == Some(t) && t != ""
  }

  /**
   * A string is in `responses` exactly when some part of some event carries
   * it as a non-empty text.
   */
  lemma {:induction false} ResponsesMembership(events: seq<Event>, t: string)
    ensures t in Responses(events) <==> exists i, j :: TextAt(events, i, j, t)
  {
    if events != [] {
      var init, e := events[..|events| - 1], events[|events| - 1];
      assert Responses(events) == Responses(init) + TextsOfParts(PartsOf(e));
      ResponsesMembership(init, t);
      TextsOfPartsMembership(PartsOf(e), t);
      if t in Responses(init) {
        var i, j :| TextAt(init, i, j, t);
        assert init[i] == events[i];
        assert TextAt(events, i, j, t);
      } else if t in TextsOfParts(PartsOf(e)) {
        var j :| 0 <= j < |PartsOf(e)| && PartsOf(e)[j].text == Some(t) && t != "";
        assert TextAt(events, |init|, j, t);
      }
      if exists i, j :: TextAt(events, i, j, t) {
        var i, j :| TextAt(events, i, j, t);
        if i < |init| {
          assert init[i] == events[i];
          assert TextAt(init, i, j, t);
        } else {
          assert PartsOf(e)[j].text == Some(t);
        }
      }
    }
  }

  lemma {:induction false} ApprovalsOfPartsMembership(invocationId: string, ps: seq<Part>, a: Approval)
    ensures a in ApprovalsOfParts(invocationId, ps) <==>
      exists j :: 0 <= j < |ps| && IsConfirmationCall(ps[j]) && a == ApprovalOf(invocationId, ps[j])
  {
    if ps != [] {
      var init := ps[..|ps| - 1];
      ApprovalsOfPartsMembership(invocationId, init, a);
      if a in ApprovalsOfParts(invocationId, ps) && a in ApprovalsOfParts(invocationId, init) {
        var j :| 0 <= j < |init| && IsConfirmationCall(init[j]) && a == ApprovalOf(invocationId, init[j]);
        assert ps[j] == init[j];
      }
      if exists j :: 0 <= j < |ps| && IsConfirmationCall(ps[j]) && a == ApprovalOf(invocationId, ps[j]) {
        var j :| 0 <= j < |ps| && IsConfirmationCall(ps[j]) && a == ApprovalOf(invocationId, ps[j]);
        if j < |init| {
          assert init[j] == ps[j];
        }
      }
    }
  }

  /** Part `j` of event `i` is a confirmation call whose approval entry is `a`. */
  predicate ApprovalAt(events: seq<Event>, i: int, j: int, a: Approval)
  {
    0 <= i < |events| && 0 <= j < |PartsOf(events[i])|
    && IsConfirmationCall(PartsOf(events[i])[j])
    && a == ApprovalOf(events[i].invocationId, PartsOf(events[i])[j])
  }

  /**
   * An entry is in `approvals` exactly when some part of some event is a
   * confirmation call, and the entry copies that call's id and arguments
   * and the invocation id of the event around it.
   */
  lemma {:induction false} ApprovalsMembership(events: seq<Event>, a: Approval)
    ensures a in Approvals(events) <==> exists i, j :: ApprovalAt(events, i, j, a)
  {
    if events != [] {
      var init, e := events[..|events| - 1], events[|events| - 1];
      assert Approvals(events) == Approvals(init) + ApprovalsOfParts(e.invocationId, PartsOf(e));
      ApprovalsMembership(init, a);
      ApprovalsOfPartsMembership(e.invocationId, PartsOf(e), a);
      if a in Approvals(init) {
        var i, j :| ApprovalAt(init, i, j, a);
        assert init[i] == events[i];
        assert ApprovalAt(events, i, j, a);
      } else if a in ApprovalsOfParts(e.invocationId, PartsOf(e)) {
        var j :| 0 <= j < |PartsOf(e)| && IsConfirmationCall(PartsOf(e)[j]) && a == ApprovalOf(e.invocationId, PartsOf(e)[j]);
        assert ApprovalAt(events, |init|, j, a);
      }
      if exists i, j :: ApprovalAt(events, i, j, a) {
        var i, j :| ApprovalAt(events, i, j, a);
        if i < |init| {
          assert init[i] == events[i];
          assert ApprovalAt(init, i, j, a);
        } else {
          assert IsConfirmationCall(PartsOf(e)[j]) && a == ApprovalOf(e.invocationId, PartsOf(e)[j]);
        }
      }
    }
  }

  /** A part with both a text and a confirmation call feeds both lists. */
  lemma {:induction false} MixedPartFeedsBothLists(events: seq<Event>, i: int, j: int)
    requires 0 <= i < |events| && 0 <= j < |PartsOf(events[i])|
    requires HasText(PartsOf(events[i])[j]) && IsConfirmationCall(PartsOf(events[i])[j])
    ensures PartsOf(events[i])[j].text.value in Responses(events)
    ensures ApprovalOf(events[i].invocationId, PartsOf(events[i])[j]) in Approvals(events)
  {
    assert TextAt(events, i, j, PartsOf(events[i])[j].text.value);
    ResponsesMembership(events, PartsOf(events[i])[j].text.value);
    assert ApprovalAt(events, i, j, ApprovalOf(events[i].invocationId, PartsOf(events[i])[j]));
    ApprovalsMembership(events, ApprovalOf(events[i].invocationId, PartsOf(events[i])[j]));
  }

  // ---------------------------------------------------------------------
  // The folds distribute over the event sequence.
  // ---------------------------------------------------------------------

  lemma {:induction false} FoldsAppend(a: seq<Event>, b: seq<Event>)
    ensures Responses(a + b) == Responses(a) + Responses(b)
    ensures Approvals(a + b) == Approvals(a) + Approvals(b)
    ensures TotalParts(a + b) == TotalParts(a) + TotalParts(b)
    decreases |b|
  {
    if b != [] {
      var b' := b[..|b| - 1];
      assert (a + b)[..|a + b| - 1] == a + b';
      FoldsAppend(a, b');
    } else {
      assert a + b == a;
    }
  }

  /**
   * An event with no content or no parts leaves both lists as they would be
   * without it, wherever it occurs in the turn.
   */
  lemma {:induction false} PartlessEventIgnored(before: seq<Event>, e: Event, after: seq<Event>)
    requires PartsOf(e) == []
    ensures Responses(before + [e] + after) == Responses(before + after)
    ensures Approvals(before + [e] + after) == Approvals(before + after)
  {
    var withE := before + [e];
    assert withE[..|withE| - 1] == before;
    assert Responses(withE) == Responses(before);
    assert Approvals(withE) == Approvals(before);
    FoldsAppend(withE, after);
    FoldsAppend(before, after);
  }

  // ---------------------------------------------------------------------
  // A flat reference definition: one pass over all parts, each tagged with
  // the invocation id of its event.
  // ---------------------------------------------------------------------

  datatype TaggedPart = TaggedPart(invocationId: string, part: Part)

  function Tagged(invocationId: string, ps: seq<Part>): (r: seq<TaggedPart>)
    ensures |r| == |ps|
    ensures forall k :: 0 <= k < |ps| ==> r[k] == TaggedPart(invocationId, ps[k])
  {
    seq(|ps|, k requires 0 <= k < |ps| => TaggedPart(invocationId, ps[k]))
  }

  /** All parts of the turn, in event order and then part order. */
  function AllParts(events: seq<Event>): (r: seq<TaggedPart>)
    ensures |r| == TotalParts(events)
  {
    if events == [] then []
    else
      var e := events[|events| - 1];
      AllParts(events[..|events| - 1]) + Tagged(e.invocationId, PartsOf(e))
  }

  /** Keeps the truthy texts of a flat list of parts, in order. */
  function FlatTexts(tps: seq<TaggedPart>): seq<string>
  {
    if tps == [] then []
    else
      var last := tps[|tps| - 1];
      FlatTexts(tps[..|tps| - 1]) + (if HasText(last.part) then [last.part.text.value] else [])
  }

  /** Maps each confirmation call of a flat list of parts to its approval entry, in order. */
  function FlatApprovals(tps: seq<TaggedPart>): seq<Approval>
  {
    if tps == [] then []
    else
      var last := tps[|tps| - 1];
      FlatApprovals(tps[..|tps| - 1])
        + (if IsConfirmationCall(last.part) then [ApprovalOf(last.invocationId, last.part)] else [])
  }

  lemma {:induction false} FlatAppend(a: seq<TaggedPart>, b: seq<TaggedPart>)
    ensures FlatTexts(a + b) == FlatTexts(a) + FlatTexts(b)
    ensures FlatApprovals(a + b) == FlatApprovals(a) + FlatApprovals(b)
    decreases |b|
  {
    if b != [] {
      var b' := b[..|b| - 1];
      assert (a + b)[..|a + b| - 1] == a + b';
      FlatAppend(a, b');
    } else {
      assert a + b == a;
    }
  }

  lemma {:induction false} FlatOfOneEvent(invocationId: string, ps: seq<Part>)
    ensures FlatTexts(Tagged(invocationId, ps)) == TextsOfParts(ps)
    ensures FlatApprovals(Tagged(invocationId, ps)) == ApprovalsOfParts(invocationId, ps)
  {
    if ps != [] {
      var init := ps[..|ps| - 1];
      assert Tagged(invocationId, ps)[..|ps| - 1] == Tagged(invocationId, init);
      FlatOfOneEvent(invocationId, init);
    }
  }

  /**
   * The nested folds of the handlers are one order-preserving filter over
   * all parts of the turn: `responses` holds one text per texted part and
   * `approvals` one entry per confirmation call, tagged with its own event.
   */
  lemma {:induction false} FoldsAreFlatFilters(events: seq<Event>)
    ensures Responses(events) == FlatTexts(AllParts(events))
    ensures Approvals(events) == FlatApprovals(AllParts(events))
  {
    if events != [] {
      var init, e := events[..|events| - 1], events[|events| - 1];
      FoldsAreFlatFilters(init);
      FlatAppend(AllParts(init), Tagged(e.invocationId, PartsOf(e)));
      FlatOfOneEvent(e.invocationId, PartsOf(e));
    }
  }

  // ---------------------------------------------------------------------
  // The confirmation message `/approve` sends to resume a paused turn.
  // ---------------------------------------------------------------------

  /**
   * The human's decision as the resumed runtime reads it from a message: one
   * part that is only a function response to the confirmation function,
   * whose response holds the key "confirmed" and nothing else.
   */
  function DecisionOf(c: Content): Option<(string, bool)>
  {
    if c.parts.Some? && |c.parts.value| == 1 then
      var p := c.parts.value[0];
      if p.text.None? && p.functionCall.None? && p.functionResponse.Some? then
        var fr := p.functionResponse.value;
        if fr.id.Some? && fr.name == Some(ConfirmationFunctionName) && fr.response.Some?
           && fr.response.value.Keys == {"confirmed"} && fr.response.value["confirmed"].Bool?
        then Some((fr.id.value, fr.response.value["confirmed"].b))
        else None
      else None
    else None
  }

  /**
   * A user message holding one function response to the confirmation
   * function, answered under the approval id.
   */
  function ConfirmationMessage(approvalId: string, confirmed: bool): (c: Content)
    ensures c.role == Some("user") && c.parts.Some? && |c.parts.value| == 1
    ensures DecisionOf(c) == Some((approvalId, confirmed))
    ensures !HasText(c.parts.value[0]) && !IsConfirmationCall(c.parts.value[0])
  {
    var response := FunctionResponse(Some(approvalId), Some(ConfirmationFunctionName), Some(map["confirmed" := Bool(confirmed)]));
    Content(Some("user"), Some([Part(None, None, Some(response))]))
  }

  /**
   * The contract of ConfirmationMessage determines it: any user message
   * from which the same decision reads back is that message.
   */
  lemma {:induction false} ConfirmationMessageUnique(c: Content, approvalId: string, confirmed: bool)
    requires c.role == Some("user")
    requires DecisionOf(c) == Some((approvalId, confirmed))
    ensures c == ConfirmationMessage(approvalId, confirmed)
  {
    var response := c.parts.value[0].functionResponse.value.response.value;
    assert response == map["confirmed" := Bool(confirmed)];
    assert c.parts.value == [c.parts.value[0]];
  }

  /**
   * Resuming a large refund with the message `/approve` builds settles it by
   * the decision sent: approved by a human when confirmed, rejected otherwise.
   */
  lemma {:induction false} ResumedRefundFollowsDecision(approvalId: string, confirmed: bool, orderId: string, amount: real, amountText: string)
    requires amount > Agents.LargeRefundThreshold
    ensures DecisionOf(ConfirmationMessage(approvalId, confirmed)).Some?
    ensures var r := Agents.RequestRefund(orderId, amount, Some(DecisionOf(ConfirmationMessage(approvalId, confirmed)).value.1), amountText).result;
      (confirmed ==> r == Agents.Approved(Agents.RefundId(orderId, Agents.HumanSuffix), amount))
      && (!confirmed ==> r == Agents.Rejected("Refund rejected"))
  {
  }
}
