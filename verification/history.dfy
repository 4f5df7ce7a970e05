/** Per-thread conversation history and prompt assembly (app.py:96-106, 120-121).
    The DynamoDB-backed history is an abstract map from session id (the thread key)
    to the ordered list of stored messages. */
module History {

  /** The LangChain message classes the source uses. */
  datatype Role = System | Human | AI

  datatype Message = Message(role: Role, content: string)

  /** Session id to stored messages, oldest first. */
  type Store = map<string, seq<Message>>

  /** The system prompt put in front of every invocation. */
  const SystemDirective: string := "You are a good assistant."

  /** `history.messages`: the stored messages of `key`, none for an unseen key. */
  function Messages(store: Store, key: string): (h: seq<Message>)
    ensures key in store ==> h == store[key]
    ensures key !in store ==> h == []
  {
    if key in store then store[key] else []
  }

  /** `history.add_message`: one message appended to `key`'s history. */
  function Add(store: Store, key: string, m: Message): (r: Store)
    ensures Messages(r, key) == Messages(store, key) + [m]
    ensures forall k :: k != key ==> Messages(r, k) == Messages(store, k)
    ensures r.Keys == store.Keys + {key}
  {
    store[key := Messages(store, key) + [m]]
  }

  /** The prompt for a new user text: the system directive, the stored history in
      order, then the new text, read before the new text is stored. */
  function Assemble(store: Store, key: string, text: string): (prompt: seq<Message>)
    ensures |prompt| == |Messages(store, key)| + 2
    ensures prompt[0] == Message(System, SystemDirective)
    ensures prompt[1..|prompt| - 1] == Messages(store, key)
    ensures prompt[|prompt| - 1] == Message(Human, text)
  {
    [Message(System, SystemDirective)] + Messages(store, key) + [Message(Human, text)]
  }

  /** What one completed turn leaves in the store: `add_user_message(text)` and then
      `add_message(reply)`. */
  function RecordTurn(store: Store, key: string, text: string, reply: string): (r: Store)
    ensures Messages(r, key) == Messages(store, key) + [Message(Human, text), Message(AI, reply)]
    ensures forall k :: k != key ==> Messages(r, k) == Messages(store, k)
    ensures r.Keys == store.Keys + {key}
  {
    Add(Add(store, key, Message(Human, text)), key, Message(AI, reply))
  }

  /** No stored history holds a system message: the source only ever stores user
      and assistant messages. */
  predicate Conversational(store: Store)
  {
    forall k, i :: k in store && 0 <= i < |store[k]| ==> store[k][i].role != System
  }

  function CountRole(ms: seq<Message>, role: Role): nat
  {
    if |ms| == 0 then 0 else CountRole(ms[..|ms| - 1], role) + (if ms[|ms| - 1].role == role then 1 else 0)
  }

  lemma {:induction false} CountRoleAppend(a: seq<Message>, b: seq<Message>, role: Role)
    ensures CountRole(a + b, role) == CountRole(a, role) + CountRole(b, role)
    decreases |b|
  {
    if |b| == 0 {
      assert a + b == a;
    } else {
      assert (a + b)[..|a + b| - 1] == a + b[..|b| - 1];
      CountRoleAppend(a, b[..|b| - 1], role);
    }
  }

  lemma {:induction false} CountRoleAbsent(ms: seq<Message>, role: Role)
    requires forall i :: 0 <= i < |ms| ==> ms[i].role != role
    ensures CountRole(ms, role) == 0
    decreases |ms|
  {
    if |ms| > 0 {
      CountRoleAbsent(ms[..|ms| - 1], role);
    }
  }

  /** Recording a turn never introduces a system message into the store. */
  lemma RecordTurnKeepsConversational(store: Store, key: string, text: string, reply: string)
    requires Conversational(store)
    ensures Conversational(RecordTurn(store, key, text, reply))
  {
    var r: Store := RecordTurn(store, key, text, reply);
    forall k: string, i: int | k in r && 0 <= i < |r[k]|
      ensures r[k][i].role != System
    {
      if k == key {
        var before := Messages(store, key);
        assert r[k] == before + [Message(Human, text), Message(AI, reply)];
        if i < |before| {
          assert r[k][i] == store[k][i];
        }
      } else {
        assert r[k] == store[k];
      }
    }
  }

  /** Storing a user or assistant message never introduces a system message; this
      covers the user-text write that is all a turn stores when the model call raises. */
  lemma AddKeepsConversational(store: Store, key: string, m: Message)
    requires Conversational(store) && m.role != System
    ensures Conversational(Add(store, key, m))
  {
    var r: Store := Add(store, key, m);
    forall k: string, i: int | k in r && 0 <= i < |r[k]|
      ensures r[k][i].role != System
    {
      if k == key {
        var before := Messages(store, key);
        assert r[k] == before + [m];
        if i < |before| {
          assert r[k][i] == store[k][i];
        }
      } else {
        assert r[k] == store[k];
      }
    }
  }

  /** Over a conversational store the assembled prompt holds exactly one system
      message, and one more human message than the stored history, whether or not
      the history is empty. */
  lemma AssembleOneSystem(store: Store, key: string, text: string)
    requires Conversational(store)
    ensures CountRole(Assemble(store, key, text), System) == 1
    ensures CountRole(Assemble(store, key, text), Human) == CountRole(Messages(store, key), Human) + 1
  {
    var h := Messages(store, key);
    var sys := [Message(System, SystemDirective)];
    var user := [Message(Human, text)];
    assert Assemble(store, key, text) == (sys + h) + user;
    CountRoleAppend(sys + h, user, System);
    CountRoleAppend(sys, h, System);
    CountRoleAppend(sys + h, user, Human);
    CountRoleAppend(sys, h, Human);
    assert forall i :: 0 <= i < |h| ==> h[i].role != System by {
      if key in store {
        assert forall i :: 0 <= i < |h| ==> h[i] == store[key][i];
      }
    }
    CountRoleAbsent(h, System);
    assert sys[..0] == [] && user[..0] == [];
  }

  /** The next turn in the same thread sees the previous turn, user text then reply,
      between the system directive and the new text. */
  lemma NextTurnSeesPrevious(store: Store, key: string, text1: string, reply1: string, text2: string)
    ensures Assemble(RecordTurn(store, key, text1, reply1), key, text2)
         == [Message(System, SystemDirective)] + Messages(store, key)
            + [Message(Human, text1), Message(AI, reply1), Message(Human, text2)]
  {
  }

  /** When the model call of the previous turn raised, only its user text was
      stored, so the next prompt in the thread holds two human messages in a row. */
  lemma NextTurnAfterFailure(store: Store, key: string, text1: string, text2: string)
    ensures var prompt := Assemble(Add(store, key, Message(Human, text1)), key, text2);
      && prompt == [Message(System, SystemDirective)] + Messages(store, key)
                   + [Message(Human, text1), Message(Human, text2)]
      && prompt[|prompt| - 2].role == Human && prompt[|prompt| - 1].role == Human
  {
  }
}
