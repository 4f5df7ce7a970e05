# Slack streaming relay for a Bedrock chat bot, modelled in Dafny

The modelled program is a Lambda-hosted Slack bot (`app.py`). When the bot is
mentioned it does five things. It posts a "Typing..." placeholder in the thread. It builds a
prompt from a fixed system directive, the thread's stored history and the new
text. It stores the user text in the thread's history. It streams the model's
answer into the placeholder through `SlackStreamingCallbackHandler`. Finally,
once the model call has returned, it stores the reply in the thread's history. Requests that Slack re-delivers are answered with 200 and
dropped.

The model has six modules:

- `Backoff` (`backoff.dfy`): the flush interval. It starts at `CHAT_UPDATE_INTERVAL_SEC = 1`
  and doubles after a flush when `update_count / 10 > interval`. The Python
  true division is written in real arithmetic and proved equal to the integer
  test `count > 10 * interval`. `Calibrated(interval, count)` is the invariant:
  the interval is a power of two, `count <= 10 * interval`, and the interval is 1
  or `5 * interval < count`. This pins the interval down as a function of the
  flush count.
- `StreamRelay` (`relay.dfy`): the callback handler as pure functions.
  `Init` is `__init__`, `Step` is `on_llm_new_token` and `Finish` is `on_llm_end`.
  `Run` folds `Step` over a token stream, and `Session` is `Run` followed by `Finish`.
  Every Slack `chat_update` becomes an `Edit` value. Each token arrives with the
  clock reading `now` that the source takes right after appending it.
- `History` (`history.dfy`): the DynamoDB chat history as a map from session id
  to messages, plus prompt assembly.
- `Mention` (`mention.dfy`): `handle_mention` as an ordered trace of effects. The effects are
  the placeholder post, the history writes, the model invocation and the edits.
  `Replay` re-derives the store from that trace.
- `Transport` (`transport.dfy`): the retry-header short-circuit of `handler`.
- `Wrappers` (`wrappers.dfy`): `Option`.

Inputs that come from outside the modelled code are parameters. They are the
clock readings, the class-load time that `last_send_time` starts from, the
mention text with the mention already removed, the ts that `say` returns, the
streamed tokens and the model's reply.

Four consequences of the code that are easy to misread:

- Flush count. The doubling backoff does not make the number of progress edits
  logarithmic in the stream's length. The interval doubles only after ten times
  its value in flushes, so it grows linearly with the flush count, and the count
  grows like the square root of the stream's duration. `FlushCountBound` proves
  that n = 0 or `(n - 1) * (n - 1) <= 20 * d` for the n progress edits of a stream
  whose clock readings lie within d seconds of each other.
- Edit lengths. Edit texts are not monotone in length: the final edit drops the
  11-character `"\n\nTyping..."` suffix, so it can be shorter than the last
  progress edit. What does grow is the text each edit shows once the suffix is
  removed: these texts form a prefix chain ending in the full reply
  (`RunEditsArePrefixes`, `SessionShape`).
- Failed model calls. The source has no abort path into the final edit: only
  `on_llm_end` sends it. When `llm(messages)` raises, the placeholder is left on
  its last progress edit, or on the placeholder text when none was sent, and the thread's history keeps the user text without a
  reply, because the user text was stored before the call. The model returns this
  outcome for a turn whose reply is `None` (`FailedInvocationLeavesTyping`,
  `NextTurnAfterFailure`).
- Short streams. The relay compares the clock with the class-load time, because
  `last_send_time` is set when the module is imported. A stream read entirely
  within the first interval after import sends only the final edit
  (`QuietStreamSendsOnlyFinal`). In a process loaded earlier, the first token
  already triggers a progress edit (`WarmProcessShortStream`).

## Model

| member | source | states |
|---|---|---|
| Backoff.ExceedsIsIntegerTest | app.py:62 | `update_count / 10 > interval` in true division holds exactly when `update_count > 10 * interval` |
| Backoff.Next | app.py:62-63 | after a flush the interval either stays or doubles, and it doubles exactly when the new count exceeds ten times the old interval |
| Backoff.CalibratedNext | app.py:46-63 | one more flush with the doubling rule keeps the interval a power of two with `count <= 10 * interval` and no larger than needed |
| Backoff.CalibratedUnique | app.py:46-63 | two calibrated intervals for the same flush count are equal, so the backoff schedule is determined by the count alone |
| StreamRelay.Init | app.py:40-47 | a new handler targets the given (channel, ts) and has an empty message, zero updates and interval 1; its last send time is the class-load time; it satisfies the backoff and pacing invariants |
| StreamRelay.Step | app.py:49-63 | the token is appended. An edit is emitted iff more than the interval has passed, and when none is, only the message changes. An emitted edit targets the handler's (channel, ts) with text message + "\n\nTyping..." and no blocks; the send time becomes `now` and the count rises by one. The interval stays or doubles, doubling iff there was an edit and the new count exceeds ten times the old interval |
| StreamRelay.Finish | app.py:65-82 | the final edit targets the handler's (channel, ts) with the accumulated message verbatim as text. Its blocks are exactly section(message), divider, context(disclaimer) |
| StreamRelay.Run | app.py:49-63 | after any token stream the message is the old message followed by every token in order. The count rises by the number of progress edits; (channel, ts) never change; the interval and the last send time never decrease |
| StreamRelay.Session | app.py:39-82 | a relay for one invocation always sends at least one edit |
| StreamRelay.StepPreservesValid | app.py:46-63 | each token keeps the interval calibrated to the update count |
| StreamRelay.StepPreservesPaced | app.py:52-63 | a token read at a time in [t0, t0 + d] keeps this true: no progress edit yet, or the last one was sent in [t0, t0 + d] and `(count - 1)^2 <= 20 * (last_send_time - t0)`, so the time since t0 pays for the flushes after the first |
| StreamRelay.RunPreservesValid | app.py:46-63 | over any token stream the interval stays a power of two with `update_count <= 10 * interval`, no larger than needed |
| StreamRelay.RunPreservesPaced | app.py:52-63 | over any token stream read within [t0, t0 + d] the same holds: no progress edit yet, or the last one was sent in the window and the time since t0 pays for the flushes after the first |
| StreamRelay.RunAppend | app.py:49-63 | feeding two stretches of tokens one after the other is feeding their concatenation: the state carries over and the edits are the first stretch's followed by the second's |
| StreamRelay.RunEditsArePrefixes | app.py:50-58 | every progress edit targets the same message and ends in the typing marker. The text it shows lies between the starting message and the current message, and each edit's shown text extends the previous one's |
| StreamRelay.RunEditsAreTokenAligned | app.py:50-57 | every progress edit is sent by the step on one token: the run up to that token had sent exactly the edits before it, the step on it sends this edit, and the edit's text is the starting message, then the tokens read up to and including that one, then the typing marker |
| StreamRelay.FlushCountBound | app.py:40-63 | for a stream whose clock readings lie in [t0, t0 + d], the number n of progress edits satisfies n = 0 or (n - 1)^2 <= 20 * d, whenever the class was loaded |
| StreamRelay.SessionShape | app.py:49-82 | a whole relay sends (update count + 1) edits. The last is the final edit with text equal to the concatenation of all tokens and the three-block layout. The ones before it are progress edits showing a prefix chain of that text |
| StreamRelay.QuietRunSendsNothing | app.py:50-53 | if no clock reading passes the interval, a stream sends no edit and changes only the message |
| StreamRelay.QuietStreamSendsOnlyFinal | app.py:40-82 | a stream whose every clock reading is at most one second after the class-load time sends exactly one edit, the final one, with no progress edit before it |
| StreamRelay.ShortStreamScenario | app.py:40-82 | the three tokens "Hi", " there", "!" read within a second of the class load produce exactly one edit: "Hi there!" with the footer |
| StreamRelay.WarmProcessShortStream | app.py:40-82 | in a process loaded more than a second before the first token, that token triggers a progress edit showing it with the typing marker; if the rest of the stream arrives within a second of it, the final edit follows and nothing else is sent |
| History.Messages | app.py:96-104 | a thread's history is the stored list for its key, and an unseen key has an empty history |
| History.Add | app.py:106 | adding a message appends it at the end of that key's history and leaves every other key's history untouched |
| History.Assemble | app.py:101-105 | the prompt is the system directive, then the stored history in order, then the new human text |
| History.RecordTurn | app.py:104-121 | after a turn the key's history is the old history followed by the human text and then the AI reply; other keys are unchanged |
| History.RecordTurnKeepsConversational | app.py:106-121 | recording a turn never stores a system message |
| History.AddKeepsConversational | app.py:106 | storing a user or assistant message never introduces a system message |
| History.AssembleOneSystem | app.py:101-105 | over a store without system messages, the prompt holds exactly one system message and one more human message than the history, also when the history is empty |
| History.NextTurnSeesPrevious | app.py:101-121 | the next prompt in the same thread is system, old history, previous human text, previous reply, new text, so the new text appears once |
| History.NextTurnAfterFailure | app.py:101-121 | when the previous turn's model call raised, the next prompt in the thread is system, old history, the previous human text and then the new one: two human messages in a row |
| Mention.ThreadKey | app.py:89-91 | the session id is the event's thread_ts when present, else its ts |
| Mention.ThreadReplySharesKey | app.py:89-91 | a reply inside a thread is filed under the same key as the message that started it |
| Mention.HandleMention | app.py:84-121 | the handler uses the thread key and the assembled prompt. Its effects start with a placeholder post "\n\nTyping..." with thread_ts = the event's ts, the user-text write and the model invocation with that prompt, followed by the relay's edits on the placeholder. When the model call returns, the final edit and then the reply write follow, and the store is `RecordTurn`. When it raises, the trace ends after the progress edits and the store holds the user text alone |
| Mention.RelayEdits | app.py:49-120 | the placeholder gets the whole relay session when the model call returns, and only the progress edits when it raises |
| Mention.HandleMentionReplays | app.py:104-121 | performing the history writes of the handler's effect trace in order yields exactly the store it reports |
| Mention.HandleMentionKeepsConversational | app.py:104-121 | whether the model call returns or raises, a store free of system messages stays free of them, so the next prompt again holds exactly one system message |
| Mention.UserStoredBeforeInvocation | app.py:93-120 | the user text is written before the model is invoked, and no edit precedes the invocation |
| Mention.FinalEditShowsStoredReply | app.py:77-121 | when the model call returns a reply equal to the concatenation of the streamed tokens, the last edit shows exactly the reply, and the reply write follows it |
| Mention.FailedInvocationLeavesTyping | app.py:106-121 | when the model call raises, every edit sent is a progress edit ending in the typing marker, and the thread's history gains the user text alone |
| Transport.Handle | app.py:128-138 | a request with the `x-slack-retry-num` header gets 200 with no effect and an unchanged store. Any other request is forwarded and has exactly the mention handler's effects and store, or none when no mention is routed |
| Transport.HandleReplays | app.py:128-138 | for every request, the store it leaves is what its effect trace writes |
| Transport.HandleKeepsConversational | app.py:128-138 | no request, retried or not, stores a system message |
| Transport.RetryAfterDeliveryIsNoOp | app.py:133-135 | a re-delivery after a handled mention makes no call and no write and leaves the store as the first delivery left it; when that delivery's model call returned, the store holds its turn exactly once |

## Left out

- Slack Bolt app construction, the `ack` listener, lazy dispatch and the Lambda adapter (app.py:32-36, 123-126, 137-138). These are framework calls: the model gives Bolt's routing as the `routed` argument and its response as `Forwarded`.
- The network calls `say` and `chat_update`. They become `Effect` and `Edit` values, and their failures are not modelled. A failing `chat_update` at app.py:54 would skip lines 59-60, leaving `last_send_time` and `update_count` unchanged; where the exception goes from there is decided by the callback library, not by this code.
- The Bedrock/LangChain model invocation (app.py:110-120). It is a foreign call; its token stream and its reply, or the fact that it raised, are inputs. Whether the reply equals the streamed tokens is the library's business, so `Mention.FinalEditShowsStoredReply` takes it as a precondition.
- The DynamoDB history (app.py:96-99). It is replaced by a map from session id to messages; storage errors are not modelled.
- Removing the mention with `re.sub("<@.*>", "", ...)` (app.py:87). It depends on Python's greedy, newline-sensitive regex; the stripped text is an input.
- Wall-clock time (app.py:40, 52). Clock readings are integer inputs, so fractional-second timestamps are not modelled. The class-level `last_send_time` is the module import time, so it is a parameter (`loadTime`).
- Logging, `load_dotenv` and environment lookups (app.py:17-29, 129-131).
- Concurrency. The class attributes `message` and `last_send_time` start every instance from the same values; each instance then writes its own copies. The model gives every relay its own state, which is what the Python attribute semantics produce for one instance.
