/** `handle_mention` (app.py:84-121): one app_mention event, from the placeholder
    post to the stored reply. The Slack calls, the history writes and the model
    invocation are returned, in the order the source makes them, as an effect trace;
    what the collaborators hand back (the stripped text, the placeholder's ts, the
    token stream and the reply, or the lack of one when the model call raises)
    comes in as a `Turn`. */
module Mention {
  import opened Wrappers
  import History
  import StreamRelay

  /** The text of the placeholder message posted before the model is called. */
  const PlaceholderText: string := "\n\nTyping..."

  /** The fields of the Slack event the handler reads. `text` is kept for
      completeness only: the model never reads it, and `Turn.stripped` stands in for
      it once the mention has been removed. */
  datatype Event = Event(channel: string, ts: string, threadTs: Option<string>, text: string)

  /** One mention together with what the excluded collaborators produce for it:
      `stripped` is the event text with the mention removed by the regular
      expression at app.py:87, taken as given and not related to `event.text`
      (the regular expression is not modelled), `placeholderTs` the ts
      returned by `say`, `loadTime` the handler class's load time, `arrivals` the
      tokens streamed before the call returned or raised, with their clock
      readings, and `reply` the model's answer, `None` when `llm(messages)` raised. */
  datatype Turn = Turn(
    event: Event,
    stripped: string,
    placeholderTs: string,
    loadTime: int,
    arrivals: seq<StreamRelay.Arrival>,
    reply: Option<string>)

  /** One externally visible action of the handler. */
  datatype Effect =
    | PostPlaceholder(channel: string, threadTs: string, text: string)
    | AppendHistory(key: string, message: History.Message)
    | InvokeModel(prompt: seq<History.Message>)
    | UpdateMessage(edit: StreamRelay.Edit)

  datatype Outcome = Outcome(key: string, prompt: seq<History.Message>, effects: seq<Effect>, store: History.Store)

  /** The history session id: the thread root's ts inside a thread, else the event's own ts. */
  function ThreadKey(e: Event): (k: string)
    ensures e.threadTs.Some? ==> k == e.threadTs.value
    ensures e.threadTs.None? ==> k == e.ts
  {
    e.threadTs.GetOr(e.ts)
  }

  /** A reply inside a thread is filed under the same key as the message that
      started the thread. */
  lemma ThreadReplySharesKey(root: Event, reply: Event)
    requires root.threadTs.None? && reply.threadTs == Some(root.ts)
    ensures ThreadKey(reply) == ThreadKey(root)
  {
  }

  function Updates(edits: seq<StreamRelay.Edit>): (r: seq<Effect>)
    ensures |r| == |edits|
    ensures forall i :: 0 <= i < |r| ==> r[i] == UpdateMessage(edits[i])
  {
    if |edits| == 0 then [] else Updates(edits[..|edits| - 1]) + [UpdateMessage(edits[|edits| - 1])]
  }

  /** The edits the relay sends during the model call: the progress edits, and the
      final edit only when the call returned, since only `on_llm_end` sends it. */
  function RelayEdits(t: Turn): (edits: seq<StreamRelay.Edit>)
    ensures t.reply.Some? ==> edits == StreamRelay.Session(t.event.channel, t.placeholderTs, t.loadTime, t.arrivals)
    ensures t.reply.None? ==> edits == StreamRelay.Run(StreamRelay.Init(t.event.channel, t.placeholderTs, t.loadTime), t.arrivals).edits
  {
    if t.reply.Some? then StreamRelay.Session(t.event.channel, t.placeholderTs, t.loadTime, t.arrivals)
    else StreamRelay.Run(StreamRelay.Init(t.event.channel, t.placeholderTs, t.loadTime), t.arrivals).edits
  }

  /** The history writes after the model call: the reply, or nothing when the call
      raised before `history.add_message` was reached. */
  function ReplyWrite(key: string, reply: Option<string>): seq<Effect>
  {
    match reply
    case Some(r) => [AppendHistory(key, History.Message(History.AI, r))]
    case None => []
  }

  function HandleMention(t: Turn, store: History.Store): (o: Outcome)
    ensures o.key == ThreadKey(t.event)
    ensures o.prompt == History.Assemble(store, o.key, t.stripped)
    ensures |o.effects| == |RelayEdits(t)| + 3 + |ReplyWrite(o.key, t.reply)|
    ensures o.effects[..3] == [
      PostPlaceholder(t.event.channel, t.event.ts, PlaceholderText),
      AppendHistory(o.key, History.Message(History.Human, t.stripped)),
      InvokeModel(o.prompt)]
    ensures t.reply.Some? ==>
      && o.store == History.RecordTurn(store, o.key, t.stripped, t.reply.value)
      && o.effects[3..|o.effects| - 1] == Updates(RelayEdits(t))
      && o.effects[|o.effects| - 1] == AppendHistory(o.key, History.Message(History.AI, t.reply.value))
    ensures t.reply.None? ==>
      && o.store == History.Add(store, o.key, History.Message(History.Human, t.stripped))
      && o.effects[3..] == Updates(RelayEdits(t))
  {
    var key := ThreadKey(t.event);
    var prompt := History.Assemble(store, key, t.stripped);
    var head :=
      [ PostPlaceholder(t.event.channel, t.event.ts, PlaceholderText),
        AppendHistory(key, History.Message(History.Human, t.stripped)),
        InvokeModel(prompt) ];
    var mid := Updates(RelayEdits(t));
    var tail := ReplyWrite(key, t.reply);
    var effects := head + mid + tail;
    assert effects[..3] == head;
    assert effects[3..|effects| - |tail|] == mid;
    var stored :=
      if t.reply.Some? then History.RecordTurn(store, key, t.stripped, t.reply.value)
      else History.Add(store, key, History.Message(History.Human, t.stripped));
    Outcome(key, prompt, effects, stored)
  }

  /** The store reached by performing the history writes of an effect trace in order. */
  function Replay(store: History.Store, effects: seq<Effect>): History.Store
  {
    if |effects| == 0 then store
    else
      var before := Replay(store, effects[..|effects| - 1]);
      match effects[|effects| - 1]
      case AppendHistory(k, m) => History.Add(before, k, m)
      case _ => before
  }

  lemma {:induction false} ReplayAppend(store: History.Store, a: seq<Effect>, b: seq<Effect>)
    ensures Replay(store, a + b) == Replay(Replay(store, a), b)
    decreases |b|
  {
    if |b| == 0 {
      assert a + b == a;
    } else {
      assert (a + b)[..|a + b| - 1] == a + b[..|b| - 1];
      ReplayAppend(store, a, b[..|b| - 1]);
    }
  }

  lemma {:induction false} ReplayUpdates(store: History.Store, edits: seq<StreamRelay.Edit>)
    ensures Replay(store, Updates(edits)) == store
    decreases |edits|
  {
    if |edits| > 0 {
      var u := Updates(edits);
      assert u[..|u| - 1] == Updates(edits[..|edits| - 1]);
      ReplayUpdates(store, edits[..|edits| - 1]);
    }
  }

  /** The store the handler reports is exactly what its own history writes produce:
      the trace and the resulting store agree. */
  lemma HandleMentionReplays(t: Turn, store: History.Store)
    ensures Replay(store, HandleMention(t, store).effects) == HandleMention(t, store).store
  {
    var o := HandleMention(t, store);
    var key := o.key;
    var post := PostPlaceholder(t.event.channel, t.event.ts, PlaceholderText);
    var user := AppendHistory(key, History.Message(History.Human, t.stripped));
    var head := [post, user, InvokeModel(o.prompt)];
    var mid := Updates(RelayEdits(t));
    var tail := ReplyWrite(key, t.reply);
    assert o.effects == head + mid + tail;
    ReplayAppend(store, head + mid, tail);
    ReplayAppend(store, head, mid);
    var afterHead := Replay(store, head);
    assert Replay(store, [post]) == store by {
      assert [post][..0] == [];
    }
    assert Replay(store, [post, user]) == History.Add(store, key, History.Message(History.Human, t.stripped)) by {
      assert [post, user][..1] == [post];
    }
    assert head[..2] == [post, user];
    assert afterHead == History.Add(store, key, History.Message(History.Human, t.stripped));
    ReplayUpdates(afterHead, RelayEdits(t));
    if t.reply.Some? {
      assert tail[..0] == [];
    }
  }

  /** Whether the model call returns or raises, the handler never stores a system
      message, so the one-system-message property of the next prompt keeps holding. */
  lemma HandleMentionKeepsConversational(t: Turn, store: History.Store)
    requires History.Conversational(store)
    ensures History.Conversational(HandleMention(t, store).store)
  {
    var key := ThreadKey(t.event);
    match t.reply
    case Some(r) =>
      History.RecordTurnKeepsConversational(store, key, t.stripped, r);
    case None =>
      History.AddKeepsConversational(store, key, History.Message(History.Human, t.stripped));
  }

  /** The user text is stored before the model is invoked, and nothing reaches the
      placeholder message before the model is invoked. */
  lemma UserStoredBeforeInvocation(t: Turn, store: History.Store)
    ensures var effects := HandleMention(t, store).effects;
      && effects[1].AppendHistory? && effects[2].InvokeModel?
      && (forall i :: 0 <= i < 3 ==> !effects[i].UpdateMessage?)
  {
  }

  /** When the model's reply is the concatenation of its streamed tokens, the last
      edit of the placeholder shows exactly the reply that is stored. */
  lemma FinalEditShowsStoredReply(t: Turn, store: History.Store)
    requires t.reply == Some(StreamRelay.Text(t.arrivals))
    ensures var effects := HandleMention(t, store).effects;
      && |effects| >= 5
      && effects[|effects| - 2].UpdateMessage?
      && effects[|effects| - 2].edit.text == t.reply.value
      && effects[|effects| - 1] == AppendHistory(ThreadKey(t.event), History.Message(History.AI, t.reply.value))
  {
    var o := HandleMention(t, store);
    var edits := RelayEdits(t);
    StreamRelay.SessionShape(t.event.channel, t.placeholderTs, t.loadTime, t.arrivals);
    var mid := o.effects[3..|o.effects| - 1];
    assert mid == Updates(edits);
    assert o.effects[|o.effects| - 2] == mid[|mid| - 1];
  }

  /** When the model call raises, the placeholder is left on a progress edit (or on
      the placeholder itself): every edit sent ends in the typing marker, none carries
      the footer, and the thread's history keeps the user text without a reply. */
  lemma FailedInvocationLeavesTyping(t: Turn, store: History.Store)
    requires t.reply.None?
    ensures var o := HandleMention(t, store);
      && History.Messages(o.store, o.key) == History.Messages(store, o.key) + [History.Message(History.Human, t.stripped)]
      && (forall i :: 3 <= i < |o.effects| ==>
            o.effects[i].UpdateMessage?
            && StreamRelay.IsProgress(o.effects[i].edit, t.event.channel, t.placeholderTs))
  {
    var o := HandleMention(t, store);
    var s := StreamRelay.Init(t.event.channel, t.placeholderTs, t.loadTime);
    StreamRelay.RunEditsArePrefixes(s, t.arrivals);
    var edits := RelayEdits(t);
    assert o.effects[3..] == Updates(edits);
    forall i | 3 <= i < |o.effects|
      ensures o.effects[i].UpdateMessage?
      ensures StreamRelay.IsProgress(o.effects[i].edit, t.event.channel, t.placeholderTs)
    {
      assert o.effects[i] == o.effects[3..][i - 3] == UpdateMessage(edits[i - 3]);
    }
  }
}
