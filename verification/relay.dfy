/** SlackStreamingCallbackHandler (app.py:39-82): accumulates the model's tokens and
    relays them into one placeholder chat message. A progress edit is sent only when
    more than the current interval has passed since the last one; the end of the
    stream sends one final edit with a disclaimer footer.

    Chat calls are returned as `Edit` values instead of being performed, and the
    clock is an input: every token arrives with the time `now` it was read. */
module StreamRelay {
  import opened Wrappers
  import Backoff

  /** Appended to the text of every progress edit. */
  const TypingSuffix: string := "\n\nTyping..."

  /** The fixed small-print footer of the final edit. */
  const Disclaimer: string := "Claude2で生成される情報は不正確または不適切な場合がありますが、当社の見解を述べるものではありません。"

  /** A Slack layout block; every text in it is mrkdwn. */
  datatype Block = Section(text: string) | Divider | Context(elements: seq<string>)

  /** One chat_update call on message `ts` of `channel`. An empty `blocks` stands for
      a call that passes no blocks argument. */
  datatype Edit = Edit(channel: string, ts: string, text: string, blocks: seq<Block>)

  /** The handler's fields. `lastSendTime` starts at the class-load time, not at
      construction time, since the source initialises it in the class body. */
  datatype RelayState = RelayState(
    channel: string,
    ts: string,
    message: string,
    lastSendTime: int,
    interval: Backoff.Interval,
    updateCount: nat)

  /** One token from the model, stamped with the clock reading taken after it. */
  datatype Arrival = Arrival(token: string, now: int)

  datatype StepResult = StepResult(state: RelayState, edit: Option<Edit>)

  datatype RunResult = RunResult(state: RelayState, edits: seq<Edit>)

  predicate Valid(s: RelayState)
  {
    Backoff.Calibrated(s.interval, s.updateCount)
  }

  /** Either no progress edit has been sent, or the last one was sent at a clock
      reading in [t0, t0 + d] and the time since t0 pays for the flushes after the
      first: each flush waits more than the interval, and the interval grows with
      the count. */
  predicate PacedWithin(s: RelayState, t0: int, d: nat)
  {
    || s.updateCount == 0
    || (&& t0 <= s.lastSendTime <= t0 + d
        && 20 * (s.lastSendTime - t0) >= (s.updateCount - 1) * (s.updateCount - 1))
  }

  /** `__init__`: a fresh handler for message `ts` in `channel`. */
  function Init(channel: string, ts: string, loadTime: int): (s: RelayState)
    ensures s.channel == channel && s.ts == ts
    ensures s.message == "" && s.updateCount == 0
    ensures s.lastSendTime == loadTime
    ensures s.interval == Backoff.InitialInterval
    ensures Valid(s)
  {
    Backoff.InitialCalibrated();
    RelayState(channel, ts, "", loadTime, Backoff.InitialInterval, 0)
  }

  /** `on_llm_new_token`: append the token, and send a progress edit if the
      interval has been exceeded. */
  function Step(s: RelayState, token: string, now: int): (r: StepResult)
    ensures r.state.channel == s.channel && r.state.ts == s.ts
    ensures r.state.message == s.message + token
    ensures r.edit.Some? <==> now - s.lastSendTime > s.interval
    ensures r.edit.None? ==> r.state == s.(message := s.message + token)
    ensures r.edit.Some? ==>
      && r.edit.value == Edit(s.channel, s.ts, r.state.message + TypingSuffix, [])
      && r.state.lastSendTime == now
      && r.state.updateCount == s.updateCount + 1
    ensures r.state.interval == s.interval || r.state.interval == 2 * s.interval
    ensures r.state.interval == 2 * s.interval <==> r.edit.Some? && r.state.updateCount > 10 * s.interval
  {
    var message := s.message + token;
    if now - s.lastSendTime > s.interval then
      var count := s.updateCount + 1;
      var next := s.(message := message, lastSendTime := now, updateCount := count,
                     interval := Backoff.Next(count, s.interval));
      StepResult(next, Some(Edit(s.channel, s.ts, message + TypingSuffix, [])))
    else
      StepResult(s.(message := message), None)
  }

  /** `on_llm_end`: the final edit, sent whatever happened before. */
  function Finish(s: RelayState): (e: Edit)
    ensures e.channel == s.channel && e.ts == s.ts
    ensures e.text == s.message
    ensures e.blocks == [Section(s.message), Divider, Context([Disclaimer])]
  {
    Edit(s.channel, s.ts, s.message, [Section(s.message), Divider, Context([Disclaimer])])
  }

  /** Every token of the stream, concatenated in arrival order. */
  function Text(arrivals: seq<Arrival>): string
  {
    if |arrivals| == 0 then "" else Text(arrivals[..|arrivals| - 1]) + arrivals[|arrivals| - 1].token
  }

  /** Feed a whole token stream through `Step`, collecting the progress edits. */
  function Run(s: RelayState, arrivals: seq<Arrival>): (r: RunResult)
    ensures r.state.channel == s.channel && r.state.ts == s.ts
    ensures r.state.message == s.message + Text(arrivals)
    ensures r.state.updateCount == s.updateCount + |r.edits|
    ensures r.state.interval >= s.interval
    ensures r.state.lastSendTime >= s.lastSendTime
    decreases |arrivals|
  {
    if |arrivals| == 0 then
      RunResult(s, [])
    else
      var prev := Run(s, arrivals[..|arrivals| - 1]);
      var last := arrivals[|arrivals| - 1];
      var step := Step(prev.state, last.token, last.now);
      RunResult(step.state, prev.edits + step.edit.ToSeq())
  }

  /** A relay for one model invocation: every edit it sends, the final one last. */
  function Session(channel: string, ts: string, loadTime: int, arrivals: seq<Arrival>): (edits: seq<Edit>)
    ensures |edits| >= 1
  {
    var run := Run(Init(channel, ts, loadTime), arrivals);
    run.edits + [Finish(run.state)]
  }

  // ----- Invariants of a single step -----

  lemma StepPreservesValid(s: RelayState, token: string, now: int)
    requires Valid(s)
    ensures Valid(Step(s, token, now).state)
  {
    if now - s.lastSendTime > s.interval {
      Backoff.CalibratedNext(s.interval, s.updateCount);
    }
  }

  lemma StepPreservesPaced(s: RelayState, token: string, now: int, t0: int, d: nat)
    requires Valid(s) && PacedWithin(s, t0, d)
    requires t0 <= now <= t0 + d
    ensures PacedWithin(Step(s, token, now).state, t0, d)
  {
    if now - s.lastSendTime > s.interval && s.updateCount > 0 {
      var c := s.updateCount;
      assert c * c == (c - 1) * (c - 1) + 2 * c - 1;
      assert 20 * (now - s.lastSendTime) >= 20 * s.interval + 20;
    }
  }

  // ----- Invariants of a run -----

  /** Over any token stream the interval stays a power of two matched to the flush count. */
  lemma {:induction false} RunPreservesValid(s: RelayState, arrivals: seq<Arrival>)
    requires Valid(s)
    ensures Valid(Run(s, arrivals).state)
    decreases |arrivals|
  {
    if |arrivals| > 0 {
      var prev := Run(s, arrivals[..|arrivals| - 1]);
      var last := arrivals[|arrivals| - 1];
      RunPreservesValid(s, arrivals[..|arrivals| - 1]);
      StepPreservesValid(prev.state, last.token, last.now);
    }
  }

  /** Over a token stream read within [t0, t0 + d], the time spent pays for the flushes. */
  lemma {:induction false} RunPreservesPaced(s: RelayState, arrivals: seq<Arrival>, t0: int, d: nat)
    requires Valid(s) && PacedWithin(s, t0, d)
    requires forall k :: 0 <= k < |arrivals| ==> t0 <= arrivals[k].now <= t0 + d
    ensures PacedWithin(Run(s, arrivals).state, t0, d)
    decreases |arrivals|
  {
    if |arrivals| > 0 {
      var prev := Run(s, arrivals[..|arrivals| - 1]);
      var last := arrivals[|arrivals| - 1];
      RunPreservesPaced(s, arrivals[..|arrivals| - 1], t0, d);
      RunPreservesValid(s, arrivals[..|arrivals| - 1]);
      StepPreservesPaced(prev.state, last.token, last.now, t0, d);
    }
  }

  /** Feeding two stretches of a stream one after the other is feeding their
      concatenation: the state carries over and the edits are the first stretch's
      followed by the second's. */
  lemma {:induction false} RunAppend(s: RelayState, a: seq<Arrival>, b: seq<Arrival>)
    ensures Run(s, a + b).state == Run(Run(s, a).state, b).state
    ensures Run(s, a + b).edits == Run(s, a).edits + Run(Run(s, a).state, b).edits
    decreases |b|
  {
    if |b| == 0 {
      assert a + b == a;
    } else {
      var b' := b[..|b| - 1];
      assert (a + b)[..|a + b| - 1] == a + b';
      assert (a + b)[|a + b| - 1] == b[|b| - 1];
      RunAppend(s, a, b');
    }
  }

  /** A progress edit of message `ts` in `channel`: text-only, ending in the typing marker. */
  predicate IsProgress(e: Edit, channel: string, ts: string)
  {
    && e.channel == channel && e.ts == ts && e.blocks == []
    && |e.text| >= |TypingSuffix|
    && e.text[|e.text| - |TypingSuffix|..] == TypingSuffix
  }

  /** The accumulated text a progress edit shows, without the typing marker. */
  function Body(e: Edit): string
    requires |e.text| >= |TypingSuffix|
  {
    e.text[..|e.text| - |TypingSuffix|]
  }

  /** `edits` are progress edits of (`channel`, `ts`) whose shown texts lie between
      `lo` and `hi` and extend one another in order. */
  predicate PrefixChain(edits: seq<Edit>, channel: string, ts: string, lo: string, hi: string)
  {
    && (forall i :: 0 <= i < |edits| ==> IsProgress(edits[i], channel, ts))
    && (forall i :: 0 <= i < |edits| ==> lo <= Body(edits[i]) <= hi)
    && (forall i, j :: 0 <= i < j < |edits| ==> Body(edits[i]) <= Body(edits[j]))
  }

  /** Every progress edit shows an accumulation of the tokens read so far, and each
      shows an extension of what the previous one showed. */
  lemma {:induction false} RunEditsArePrefixes(s: RelayState, arrivals: seq<Arrival>)
    ensures PrefixChain(Run(s, arrivals).edits, s.channel, s.ts, s.message, Run(s, arrivals).state.message)
    decreases |arrivals|
  {
    if |arrivals| > 0 {
      var prev := Run(s, arrivals[..|arrivals| - 1]);
      var last := arrivals[|arrivals| - 1];
      var step := Step(prev.state, last.token, last.now);
      RunEditsArePrefixes(s, arrivals[..|arrivals| - 1]);
      assert PrefixChain(prev.edits, s.channel, s.ts, s.message, prev.state.message);
      var r := Run(s, arrivals);
      var m := step.state.message;
      assert r.edits == prev.edits + step.edit.ToSeq();
      assert r.state.message == m;
      assert prev.state.message <= m;
      forall i | 0 <= i < |prev.edits|
        ensures IsProgress(prev.edits[i], s.channel, s.ts)
        ensures s.message <= Body(prev.edits[i]) <= m
      {
        assert IsProgress(prev.edits[i], s.channel, s.ts);
        PrefixTransitive(Body(prev.edits[i]), prev.state.message, m);
      }
      if step.edit.Some? {
        var e := step.edit.value;
        assert e.text == m + TypingSuffix;
        assert e.text[..|m|] == m;
        assert e.text[|m|..] == TypingSuffix;
        assert Body(e) == m;
        assert IsProgress(e, s.channel, s.ts);
        PrefixTransitive(s.message, prev.state.message, m);
        assert forall i :: 0 <= i < |prev.edits| ==> r.edits[i] == prev.edits[i];
        assert r.edits[|r.edits| - 1] == e;
      } else {
        assert r.edits == prev.edits;
      }
    }
  }

  /** Edit i of `edits` was sent by the step that read token j - 1 (counting from 0):
      the run up to that token had sent exactly the edits before it, the step on it
      sent edit i, and the edit shows the starting message, every token read so
      far and the typing marker. */
  predicate SentBy(s: RelayState, arrivals: seq<Arrival>, edits: seq<Edit>, i: int, j: int)
    requires 0 <= i < |edits|
  {
    && 1 <= j <= |arrivals|
    && Run(s, arrivals[..j - 1]).edits == edits[..i]
    && Run(s, arrivals[..j]).edits == edits[..i + 1]
    && edits[i].text == s.message + Text(arrivals[..j]) + TypingSuffix
  }

  /** Every edit of `edits` was sent by some token of `arrivals`, in the sense of `SentBy`. */
  predicate TokenAligned(s: RelayState, arrivals: seq<Arrival>, edits: seq<Edit>)
  {
    forall i :: 0 <= i < |edits| ==> SentByToken(s, arrivals, edits, i)
  }

  predicate SentByToken(s: RelayState, arrivals: seq<Arrival>, edits: seq<Edit>, i: int)
    requires 0 <= i < |edits|
  {
    exists j :: 1 <= j <= |arrivals| && SentBy(s, arrivals, edits, i, j)
  }

  /** Every progress edit is sent right after the token that triggered it and shows
      exactly the tokens read up to and including that one, followed by the typing
      marker: no edit cuts a token, and none shows a token read later. */
  lemma {:induction false} RunEditsAreTokenAligned(s: RelayState, arrivals: seq<Arrival>)
    ensures TokenAligned(s, arrivals, Run(s, arrivals).edits)
    decreases |arrivals|
  {
    if |arrivals| == 0 {
      assert Run(s, arrivals).edits == [];
    } else {
      var pre := arrivals[..|arrivals| - 1];
      var prev := Run(s, pre);
      var last := arrivals[|arrivals| - 1];
      var step := Step(prev.state, last.token, last.now);
      RunEditsAreTokenAligned(s, pre);
      assert TokenAligned(s, pre, prev.edits);
      var r := Run(s, arrivals);
      assert r.edits == prev.edits + step.edit.ToSeq();
      assert prev.edits == r.edits[..|prev.edits|];
      forall i | 0 <= i < |r.edits|
        ensures SentByToken(s, arrivals, r.edits, i)
      {
        if i < |prev.edits| {
          assert SentByToken(s, pre, prev.edits, i);
          var j :| 1 <= j <= |pre| && SentBy(s, pre, prev.edits, i, j);
          SentByEarlier(s, pre, arrivals, prev.edits, r.edits, i, j);
        } else {
          SentByLast(s, arrivals);
        }
      }
      assert TokenAligned(s, arrivals, r.edits);
    }
  }

  /** An edit sent while reading a stream is still sent by the same token once more
      tokens have been read and more edits sent. */
  lemma {:induction false} SentByEarlier(s: RelayState, pre: seq<Arrival>, arrivals: seq<Arrival>,
                                         preEdits: seq<Edit>, edits: seq<Edit>, i: int, j: int)
    requires |pre| <= |arrivals| && pre == arrivals[..|pre|]
    requires |preEdits| <= |edits| && preEdits == edits[..|preEdits|]
    requires 0 <= i < |preEdits|
    requires SentBy(s, pre, preEdits, i, j)
    ensures SentBy(s, arrivals, edits, i, j)
  {
    assert pre[..j] == arrivals[..j];
    assert pre[..j - 1] == arrivals[..j - 1];
    assert preEdits[..i + 1] == edits[..i + 1];
    assert preEdits[..i] == edits[..i];
    assert preEdits[i] == edits[i];
  }

  /** When the last token of a stream triggers an edit, that edit is sent by it. */
  lemma {:induction false} SentByLast(s: RelayState, arrivals: seq<Arrival>)
    requires |arrivals| > 0
    requires |Run(s, arrivals[..|arrivals| - 1]).edits| < |Run(s, arrivals).edits|
    ensures SentBy(s, arrivals, Run(s, arrivals).edits, |Run(s, arrivals[..|arrivals| - 1]).edits|, |arrivals|)
  {
    var pre := arrivals[..|arrivals| - 1];
    var prev := Run(s, pre);
    var r := Run(s, arrivals);
    var last := arrivals[|arrivals| - 1];
    var step := Step(prev.state, last.token, last.now);
    var i := |prev.edits|;
    assert r.edits == prev.edits + step.edit.ToSeq();
    assert r.edits[i] == step.edit.value;
    assert arrivals[..|arrivals|] == arrivals;
    assert r.edits[..i] == prev.edits;
    assert r.edits[..i + 1] == r.edits;
  }

  lemma PrefixTransitive(a: string, b: string, c: string)
    requires a <= b && b <= c
    ensures a <= c
  {
    assert c[..|b|][..|a|] == c[..|a|];
  }

  /** The number n of progress edits sent while reading a stream whose clock
      readings all lie in [t0, t0 + d] grows like the square root of d:
      n = 0 or (n - 1) * (n - 1) <= 20 * d, however long ago the class was loaded. */
  lemma FlushCountBound(channel: string, ts: string, loadTime: int, arrivals: seq<Arrival>, t0: int, d: nat)
    requires forall k :: 0 <= k < |arrivals| ==> t0 <= arrivals[k].now <= t0 + d
    ensures var n := |Run(Init(channel, ts, loadTime), arrivals).edits|;
      n == 0 || (n - 1) * (n - 1) <= 20 * d
  {
    var s := Init(channel, ts, loadTime);
    RunPreservesPaced(s, arrivals, t0, d);
  }

  /** One whole relay: progress edits first, then exactly one final edit whose text is
      every token in order, with the three-block layout, even when no progress edit
      was ever sent. */
  lemma SessionShape(channel: string, ts: string, loadTime: int, arrivals: seq<Arrival>)
    ensures var edits := Session(channel, ts, loadTime, arrivals);
      && |edits| == Run(Init(channel, ts, loadTime), arrivals).state.updateCount + 1
      && edits[|edits| - 1] == Edit(channel, ts, Text(arrivals), [Section(Text(arrivals)), Divider, Context([Disclaimer])])
      && PrefixChain(edits[..|edits| - 1], channel, ts, "", Text(arrivals))
  {
    var s := Init(channel, ts, loadTime);
    var run := Run(s, arrivals);
    RunEditsArePrefixes(s, arrivals);
    var edits := Session(channel, ts, loadTime, arrivals);
    assert edits == run.edits + [Finish(run.state)];
    assert edits[..|edits| - 1] == run.edits;
  }

  /** A stream read entirely within the first interval after the class was loaded
      produces only the final edit. The clock is compared with the class-load time,
      so this holds for a cold process, not for a short stream in a warm one. */
  lemma QuietStreamSendsOnlyFinal(channel: string, ts: string, loadTime: int, arrivals: seq<Arrival>)
    requires forall k :: 0 <= k < |arrivals| ==> arrivals[k].now - loadTime <= Backoff.InitialInterval
    ensures Session(channel, ts, loadTime, arrivals) == [Finish(Run(Init(channel, ts, loadTime), arrivals).state)]
  {
    var s := Init(channel, ts, loadTime);
    QuietRunSendsNothing(s, arrivals);
    assert Run(s, arrivals).edits == [];
  }

  lemma {:induction false} QuietRunSendsNothing(s: RelayState, arrivals: seq<Arrival>)
    requires forall k :: 0 <= k < |arrivals| ==> arrivals[k].now - s.lastSendTime <= s.interval
    ensures Run(s, arrivals).edits == []
    ensures Run(s, arrivals).state == s.(message := s.message + Text(arrivals))
    decreases |arrivals|
  {
    if |arrivals| > 0 {
      QuietRunSendsNothing(s, arrivals[..|arrivals| - 1]);
    }
  }

  /** Three tokens read within one second of the class load: one edit, the final one. */
  lemma ShortStreamScenario()
    ensures Session("C1", "100.5", 100, [Arrival("Hi", 100), Arrival(" there", 101), Arrival("!", 101)])
         == [Edit("C1", "100.5", "Hi there!", [Section("Hi there!"), Divider, Context([Disclaimer])])]
  {
    var a := [Arrival("Hi", 100), Arrival(" there", 101), Arrival("!", 101)];
    QuietStreamSendsOnlyFinal("C1", "100.5", 100, a);
    assert a[..2][..1] == [Arrival("Hi", 100)];
    assert a[..2] == [Arrival("Hi", 100), Arrival(" there", 101)];
    assert Text(a) == "Hi there!";
  }

  /** A short stream in a process loaded long before: the first token is already
      more than an interval past the class-load time, so it triggers a progress
      edit, and a final edit follows when the rest arrives within a second of it. */
  lemma WarmProcessShortStream(channel: string, ts: string, loadTime: int, first: Arrival, rest: seq<Arrival>)
    requires first.now - loadTime > Backoff.InitialInterval
    requires forall k :: 0 <= k < |rest| ==> rest[k].now - first.now <= Backoff.InitialInterval
    ensures var edits := Session(channel, ts, loadTime, [first] + rest);
      var text := first.token + Text(rest);
      && |edits| == 2
      && edits[0] == Edit(channel, ts, first.token + TypingSuffix, [])
      && edits[1] == Edit(channel, ts, text, [Section(text), Divider, Context([Disclaimer])])
  {
    WarmProcessRun(channel, ts, loadTime, first, rest);
  }

  /** The relay run behind `WarmProcessShortStream`: one progress edit, then only the
      message grows. */
  lemma {:induction false} WarmProcessRun(channel: string, ts: string, loadTime: int, first: Arrival, rest: seq<Arrival>)
    requires first.now - loadTime > Backoff.InitialInterval
    requires forall k :: 0 <= k < |rest| ==> rest[k].now - first.now <= Backoff.InitialInterval
    ensures Run(Init(channel, ts, loadTime), [first] + rest).edits == [Edit(channel, ts, first.token + TypingSuffix, [])]
    ensures Run(Init(channel, ts, loadTime), [first] + rest).state.message == first.token + Text(rest)
  {
    var s0 := Init(channel, ts, loadTime);
    var step := Step(s0, first.token, first.now);
    RunSingle(s0, first);
    assert s0.message + first.token == first.token;
    QuietRunSendsNothing(step.state, rest);
    RunAppend(s0, [first], rest);
  }

  /** A stream of one token is one step. */
  lemma RunSingle(s: RelayState, a: Arrival)
    ensures Run(s, [a]) == RunResult(Step(s, a.token, a.now).state, Step(s, a.token, a.now).edit.ToSeq())
  {
    assert [a][..0] == [];
  }
}
