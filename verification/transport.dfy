/** The Lambda entry point `handler` (app.py:128-138). A request that the Slack
    platform re-delivered carries the `x-slack-retry-num` header; it is answered
    with 200 at once and never reaches the mention handler. Every other request is
    handed to the Bolt request handler, whose routing is outside this model: it
    either yields a mention to process or nothing. */
module Transport {
  import opened Wrappers
  import History
  import Mention

  const RetryHeader: string := "x-slack-retry-num"

  datatype Request = Request(headers: map<string, string>)

  /** `Status(200)` is the short-circuit answer; `Forwarded` is whatever the Bolt
      adapter answers. */
  datatype Response = Status(code: int) | Forwarded

  datatype Delivery = Delivery(response: Response, effects: seq<Mention.Effect>, store: History.Store)

  predicate IsRetry(req: Request)
  {
    RetryHeader in req.headers
  }

  /** `handler`: `routed` is the mention Bolt dispatches for this request, if any. */
  function Handle(req: Request, routed: Option<Mention.Turn>, store: History.Store): (d: Delivery)
    ensures IsRetry(req) ==> d.response == Status(200) && d.effects == [] && d.store == store
    ensures !IsRetry(req) ==> d.response == Forwarded
    ensures !IsRetry(req) && routed.Some? ==>
      && d.effects == Mention.HandleMention(routed.value, store).effects
      && d.store == Mention.HandleMention(routed.value, store).store
    ensures !IsRetry(req) && routed.None? ==> d.effects == [] && d.store == store
  {
    if IsRetry(req) then
      Delivery(Status(200), [], store)
    else
      match routed
      case None => Delivery(Forwarded, [], store)
      case Some(t) =>
        var o := Mention.HandleMention(t, store);
        Delivery(Forwarded, o.effects, o.store)
  }

  /** Whatever the request, the store it leaves is what its effect trace writes. */
  lemma HandleReplays(req: Request, routed: Option<Mention.Turn>, store: History.Store)
    ensures Mention.Replay(store, Handle(req, routed, store).effects) == Handle(req, routed, store).store
  {
    if !IsRetry(req) && routed.Some? {
      Mention.HandleMentionReplays(routed.value, store);
    }
  }

  /** No request, delivered or re-delivered, handled or failed, stores a system message. */
  lemma HandleKeepsConversational(req: Request, routed: Option<Mention.Turn>, store: History.Store)
    requires History.Conversational(store)
    ensures History.Conversational(Handle(req, routed, store).store)
  {
    if !IsRetry(req) && routed.Some? {
      Mention.HandleMentionKeepsConversational(routed.value, store);
    }
  }

  /** A re-delivery of an event after it was handled changes nothing further: no
      Slack call, no history write, no model call, and the store stays as the first
      delivery left it, holding that turn once. */
  lemma RetryAfterDeliveryIsNoOp(first: Request, retry: Request, t: Mention.Turn, store: History.Store)
    requires !IsRetry(first) && IsRetry(retry)
    ensures var d1 := Handle(first, Some(t), store);
      var d2 := Handle(retry, Some(t), d1.store);
      && d2.effects == []
      && d2.store == d1.store
      && (t.reply.Some? ==> d2.store == History.RecordTurn(store, Mention.ThreadKey(t.event), t.stripped, t.reply.value))
  {
  }
}
