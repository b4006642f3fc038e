/** One batch of `worker_loop`: every entry read from the stream is decoded, answered by
    handle_message, its reply sent, and only then acknowledged; an exception anywhere
    leaves that entry pending and the loop goes on with the next one. */
module Worker {

  import opened Common
  import opened Json
  import opened Sessions
  import opened Orchestrator
  import opened Conversation

  /** A stream entry: its id and its fields. A field is None when its bytes are not
      valid UTF-8; a missing field is absent from the map. */
  datatype Entry = Entry(id: string, fields: map<string, Option<string>>)

  /** What XREADGROUP returns: for each stream, its entries in order. An empty reply is []. */
  type Batch = seq<(string, seq<Entry>)>

  /** The entries of a batch in processing order, stream by stream. */
  function Entries(batch: Batch): seq<Entry>
  {
    if batch == [] then [] else Entries(batch[..|batch| - 1]) + batch[|batch| - 1].1
  }

  /** `fields[name].decode("utf-8")`: None when it raises. */
  function Field(fields: map<string, Option<string>>, name: string): Option<string>
  {
    if name in fields then fields[name] else None
  }

  predicate Decodable(e: Entry)
  {
    Field(e.fields, "user_id").Some? && Field(e.fields, "from_number").Some? && Field(e.fields, "body").Some?
  }

  /** What the worker changes: the conversation lists in Redis and the ids it has
      acknowledged, in order. */
  datatype WorkerState = WorkerState(lists: map<string, seq<string>>, acked: seq<string>)

  /** handle_message as a function of the stored lists, the user and the body. */
  type Handler = (map<string, seq<string>>, string, string) -> Handled

  /** The modelled ConversationService.handle_message with its dependencies. */
  ghost function HandlerOf(env: Env): Handler
    requires EnvValid(env)
  {
    (lists: map<string, seq<string>>, userId: string, body: string) => Handle(lists, env, userId, body)
  }

  /** The body of the try block for one entry. `send` is send_whatsapp: false when it
      raises. */
  function Step(handle: Handler, send: (string, string) -> bool, st: WorkerState, e: Entry): WorkerState
  {
    if !Decodable(e) then st
    else
      var h := handle(st.lists, Field(e.fields, "user_id").value, Field(e.fields, "body").value);
      if h.reply.Ok? && send(Field(e.fields, "from_number").value, h.reply.value) then WorkerState(h.lists, st.acked + [e.id])
      else WorkerState(h.lists, st.acked)
  }

  /** The loop over the entries, in order. */
  function Process(handle: Handler, send: (string, string) -> bool, st: WorkerState, entries: seq<Entry>): WorkerState
  {
    if entries == [] then st else Step(handle, send, Process(handle, send, st, entries[..|entries| - 1]), entries[|entries| - 1])
  }

  /** An entry is acknowledged exactly when its fields decode, handle_message returns a
      reply and the reply is sent; otherwise the acked ids stay as they were. */
  lemma StepAck(handle: Handler, send: (string, string) -> bool, st: WorkerState, e: Entry)
    ensures var s := Step(handle, send, st, e);
      s.acked == st.acked + [e.id] || s.acked == st.acked
    ensures Step(handle, send, st, e).acked == st.acked + [e.id] <==>
      Decodable(e) &&
      var h := handle(st.lists, Field(e.fields, "user_id").value, Field(e.fields, "body").value);
      h.reply.Ok? && send(Field(e.fields, "from_number").value, h.reply.value)
  {
    var s := Step(handle, send, st, e);
    if s.acked == st.acked + [e.id] {
      assert |s.acked| != |st.acked|;
    }
  }

  /** An entry missing a field, or with a field that is not UTF-8, is neither answered
      nor acknowledged: nothing changes. */
  lemma UndecodableSkipped(handle: Handler, send: (string, string) -> bool, st: WorkerState, e: Entry)
    requires !Decodable(e)
    ensures Step(handle, send, st, e) == st
  {
  }

  /** The reply is sent before the ack: when sending fails the turns are still
      recorded, but the entry stays pending. */
  lemma SendFailureLeavesPending(handle: Handler, send: (string, string) -> bool, st: WorkerState, e: Entry)
    requires Decodable(e)
    requires var h := handle(st.lists, Field(e.fields, "user_id").value, Field(e.fields, "body").value);
      h.reply.Ok? && !send(Field(e.fields, "from_number").value, h.reply.value)
    ensures var h := handle(st.lists, Field(e.fields, "user_id").value, Field(e.fields, "body").value);
      Step(handle, send, st, e) == WorkerState(h.lists, st.acked)
  {
  }

  /** Processing two runs of entries one after the other is processing them together. */
  lemma {:induction false} ProcessAppend(handle: Handler, send: (string, string) -> bool, st: WorkerState, a: seq<Entry>, b: seq<Entry>)
    ensures Process(handle, send, st, a + b) == Process(handle, send, Process(handle, send, st, a), b)
  {
    if b == [] {
      assert a + b == a;
    } else {
      assert (a + b)[..|a + b| - 1] == a + b[..|b| - 1];
      assert (a + b)[|a + b| - 1] == b[|b| - 1];
      ProcessAppend(handle, send, st, a, b[..|b| - 1]);
    }
  }

  /** A failing entry does not stop the batch: the entries after it are processed from
      the state it left, which has the same acked ids as before it. */
  lemma FailureIsolated(handle: Handler, send: (string, string) -> bool, st: WorkerState, a: seq<Entry>, e: Entry, b: seq<Entry>)
    requires Step(handle, send, Process(handle, send, st, a), e).acked == Process(handle, send, st, a).acked
    ensures var before := Process(handle, send, st, a);
      Process(handle, send, st, a + [e] + b) == Process(handle, send, WorkerState(Step(handle, send, before, e).lists, before.acked), b)
  {
    var before := Process(handle, send, st, a);
    ProcessAppend(handle, send, st, a + [e], b);
    ProcessAppend(handle, send, st, a, [e]);
    assert Process(handle, send, before, [e]) == Step(handle, send, Process(handle, send, before, []), e);
  }

  /** `a` is `b` with some elements left out, the rest in the same order. */
  predicate IsSubsequence<T(==)>(a: seq<T>, b: seq<T>)
    decreases |b|
  {
    if a == [] then true
    else if b == [] then false
    else if a[|a| - 1] == b[|b| - 1] then IsSubsequence(a[..|a| - 1], b[..|b| - 1])
    else IsSubsequence(a, b[..|b| - 1])
  }

  lemma {:induction false} SubsequenceExtend<T>(a: seq<T>, b: seq<T>, x: T)
    requires IsSubsequence(a, b)
    ensures IsSubsequence(a, b + [x])
    decreases |b|, 1
  {
    if a != [] && a[|a| - 1] != x {
      assert (b + [x])[..|b|] == b;
    } else if a != [] {
      assert (b + [x])[..|b|] == b;
      SubsequenceDropLast(a, b);
    }
  }

  /** Dropping the last element of `a` keeps it a subsequence. */
  lemma {:induction false} SubsequenceDropLast<T>(a: seq<T>, b: seq<T>)
    requires a != [] && IsSubsequence(a, b)
    ensures IsSubsequence(a[..|a| - 1], b)
    decreases |b|, 0
  {
    var init := a[..|a| - 1];
    if init != [] {
      if a[|a| - 1] == b[|b| - 1] {
        SubsequenceExtend(init, b[..|b| - 1], b[|b| - 1]);
        assert b[..|b| - 1] + [b[|b| - 1]] == b;
      } else {
        SubsequenceDropLast(a, b[..|b| - 1]);
        SubsequenceExtend(init, b[..|b| - 1], b[|b| - 1]);
        assert b[..|b| - 1] + [b[|b| - 1]] == b;
      }
    }
  }

  function Ids(entries: seq<Entry>): seq<string>
  {
    seq(|entries|, i requires 0 <= i < |entries| => entries[i].id)
  }

  /** A batch only appends to the acked ids, and what it appends are ids of its own
      entries, at most one per entry, in the order the entries were read. */
  lemma {:induction false} ProcessAcks(handle: Handler, send: (string, string) -> bool, st: WorkerState, entries: seq<Entry>)
    ensures var acked := Process(handle, send, st, entries).acked;
      |st.acked| <= |acked| <= |st.acked| + |entries| &&
      acked[..|st.acked|] == st.acked &&
      IsSubsequence(acked[|st.acked|..], Ids(entries))
  {
    if entries != [] {
      var init := entries[..|entries| - 1];
      var e := entries[|entries| - 1];
      ProcessAcks(handle, send, st, init);
      var mid := Process(handle, send, st, init);
      StepAck(handle, send, mid, e);
      assert Ids(entries) == Ids(init) + [e.id];
      var acked := Process(handle, send, st, entries).acked;
      if acked == mid.acked {
        SubsequenceExtend(mid.acked[|st.acked|..], Ids(init), e.id);
      } else {
        assert acked[|st.acked|..] == mid.acked[|st.acked|..] + [e.id];
        assert (Ids(init) + [e.id])[..|Ids(init)|] == Ids(init);
        assert (mid.acked[|st.acked|..] + [e.id])[..|mid.acked[|st.acked|..]|] == mid.acked[|st.acked|..];
      }
    }
  }

  /** An empty reply from XREADGROUP changes nothing. */
  lemma EmptyBatch(handle: Handler, send: (string, string) -> bool, st: WorkerState)
    ensures Process(handle, send, st, Entries([])) == st
  {
  }

  /** The consumer-group queue, reduced to the acknowledgements it receives. */
  class StreamQueue {
    var acked: seq<string>

    constructor ()
      ensures acked == []
    {
      acked := [];
    }

    /** XACK of one entry id. */
    method Ack(id: string)
      modifies this
      ensures acked == old(acked) + [id]
    {
      acked := acked + [id];
    }
  }

  /** One message inside the try block. */
  method ProcessEntry(queue: StreamQueue, svc: ConversationService, env: Env, send: (string, string) -> bool, e: Entry)
    requires EnvValid(env) && svc.sessions.Valid() && svc.sessions.maxTurns == env.maxTurns
    modifies queue, svc.sessions
    ensures svc.sessions.Valid()
    ensures WorkerState(svc.sessions.lists, queue.acked) == Step(HandlerOf(env), send, WorkerState(old(svc.sessions.lists), old(queue.acked)), e)
  {
    var userId := Field(e.fields, "user_id");
    var fromNumber := Field(e.fields, "from_number");
    var body := Field(e.fields, "body");
    if userId.None? || fromNumber.None? || body.None? {
      return;
    }
    var reply := svc.HandleMessage(env, userId.value, fromNumber.value, body.value);
    if reply.Err? {
      return;
    }
    if !send(fromNumber.value, reply.value) {
      return;
    }
    queue.Ack(e.id);
  }

  /** The inner loop, over the entries of one stream. */
  method ProcessEntries(queue: StreamQueue, svc: ConversationService, env: Env, send: (string, string) -> bool, entries: seq<Entry>)
    requires EnvValid(env) && svc.sessions.Valid() && svc.sessions.maxTurns == env.maxTurns
    modifies queue, svc.sessions
    ensures svc.sessions.Valid()
    ensures WorkerState(svc.sessions.lists, queue.acked) == Process(HandlerOf(env), send, WorkerState(old(svc.sessions.lists), old(queue.acked)), entries)
  {
    ghost var handle := HandlerOf(env);
    ghost var start := WorkerState(svc.sessions.lists, queue.acked);
    for k := 0 to |entries|
      invariant svc.sessions.Valid()
      invariant WorkerState(svc.sessions.lists, queue.acked) == Process(handle, send, start, entries[..k])
    {
      assert entries[..k + 1][..k] == entries[..k];
      ProcessEntry(queue, svc, env, send, entries[k]);
    }
    assert entries[..|entries|] == entries;
  }

  /** The outer loop, over the streams of one batch. */
  method ProcessBatch(queue: StreamQueue, svc: ConversationService, env: Env, send: (string, string) -> bool, batch: Batch)
    requires EnvValid(env) && svc.sessions.Valid() && svc.sessions.maxTurns == env.maxTurns
    modifies queue, svc.sessions
    ensures svc.sessions.Valid()
    ensures WorkerState(svc.sessions.lists, queue.acked) == Process(HandlerOf(env), send, WorkerState(old(svc.sessions.lists), old(queue.acked)), Entries(batch))
  {
    ghost var handle := HandlerOf(env);
    ghost var start := WorkerState(svc.sessions.lists, queue.acked);
    for i := 0 to |batch|
      invariant svc.sessions.Valid()
      invariant WorkerState(svc.sessions.lists, queue.acked) == Process(handle, send, start, Entries(batch[..i]))
    {
      assert batch[..i + 1][..i] == batch[..i];
      ProcessAppend(handle, send, start, Entries(batch[..i]), batch[i].1);
      ProcessEntries(queue, svc, env, send, batch[i].1);
    }
    assert batch[..|batch|] == batch;
  }
}
