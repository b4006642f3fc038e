/** `ConversationService.handle_message`: read the user's history, record the user
    turn, run the agent on the history as it was before that turn, then record the
    reply. */
module Conversation {

  import opened Common
  import opened Json
  import opened Sessions
  import opened Orchestrator

  /** What handling one message leaves in Redis, and what it returns or raises. */
  datatype Handled = Handled(lists: map<string, seq<string>>, reply: Result<string, Failure>)

  /** The lists after handle_message wrote the user item and, when the agent replied,
      the assistant item, each by append_turn. */
  function Record(lists: map<string, seq<string>>, key: string, userItem: string, assistantItem: Option<string>, maxTurns: nat): map<string, seq<string>>
  {
    var withUser := PushTrim(ListAt(lists, key), userItem, maxTurns);
    lists[key := if assistantItem.Some? then PushTrim(withUser, assistantItem.value, maxTurns) else withUser]
  }

  /** What handle_message leaves and returns once the agent has answered `reply`. An
      exception from the agent propagates after the user turn was appended, so the
      user turn stays and no assistant turn is written. */
  function Respond(lists: map<string, seq<string>>, maxTurns: nat, userId: string, body: string, reply: Result<string, Failure>): Handled
  {
    var assistantItem := if reply.Ok? then Some(EncodeTurn("assistant", reply.value)) else None;
    Handled(Record(lists, Key(userId), EncodeTurn("user", body), assistantItem, maxTurns), reply)
  }

  /** handle_message on the lists Redis holds: the agent sees the history read before
      the user turn is appended. */
  function Handle(lists: map<string, seq<string>>, env: Env, userId: string, body: string): Handled
    requires EnvValid(env)
  {
    var history := Parsed(ListAt(lists, Key(userId)), env.parse);
    Respond(lists, env.maxTurns, userId, body, RunAgentSpec(env, history, body).reply)
  }

  /** Record is the two append_turn writes in turn: the user item, then the assistant
      item on the list as it is after the first write. */
  lemma RecordInTwoWrites(lists: map<string, seq<string>>, key: string, userItem: string, assistantItem: Option<string>, maxTurns: nat)
    ensures var first := lists[key := PushTrim(ListAt(lists, key), userItem, maxTurns)];
      Record(lists, key, userItem, assistantItem, maxTurns) ==
        if assistantItem.Some? then first[key := PushTrim(ListAt(first, key), assistantItem.value, maxTurns)] else first
  {
  }

  /** Recording a message keeps every list within 2 * maxTurns entries. */
  lemma RecordKeepsBound(lists: map<string, seq<string>>, key: string, userItem: string, assistantItem: Option<string>, maxTurns: nat)
    requires maxTurns >= 1
    requires forall k :: k in lists ==> |lists[k]| <= 2 * maxTurns
    ensures var r := Record(lists, key, userItem, assistantItem, maxTurns);
      forall k :: k in r ==> |r[k]| <= 2 * maxTurns
  {
    var withUser := PushTrim(ListAt(lists, key), userItem, maxTurns);
    PushTrimBound(ListAt(lists, key), userItem, maxTurns);
    if assistantItem.Some? {
      PushTrimBound(withUser, assistantItem.value, maxTurns);
    }
    var r := Record(lists, key, userItem, assistantItem, maxTurns);
    UpdateKeepsBound(lists, key, r[key], 2 * maxTurns);
  }

  /** The history ends with `a`. */
  predicate EndsWithOne(h: seq<Json>, a: Json)
  {
    |h| >= 1 && h[|h| - 1] == a
  }

  /** The history ends with `a` and then `b`. */
  predicate EndsWithPair(h: seq<Json>, a: Json, b: Json)
  {
    |h| >= 2 && h[|h| - 2] == a && h[|h| - 1] == b
  }

  /** A list that ends with a parsable entry reads back ending with its parse. */
  lemma ParsedLast(pre: seq<string>, item: string, parse: string -> Option<Json>)
    requires parse(item).Some?
    ensures Parsed(pre + [item], parse) == Parsed(pre, parse) + [parse(item).value]
  {
    var s := pre + [item];
    assert s[..|s| - 1] == pre;
  }

  /** append_turn leaves the list ending with the item just written. */
  lemma PushTrimEnds(list: seq<string>, item: string, maxTurns: nat)
    requires maxTurns >= 1
    ensures var r := PushTrim(list, item, maxTurns);
      |r| >= 1 && r == r[..|r| - 1] + [item]
  {
    PushTrimSpec(list, item, maxTurns);
  }

  /** Two appends leave the list ending with the two items, in order. */
  lemma PushTwiceEnds(list: seq<string>, first: string, second: string, maxTurns: nat)
    requires maxTurns >= 1
    ensures var r := PushTrim(PushTrim(list, first, maxTurns), second, maxTurns);
      |r| >= 2 && r == r[..|r| - 2] + [first] + [second]
  {
    var r1 := PushTrim(list, first, maxTurns);
    var r2 := PushTrim(r1, second, maxTurns);
    PushTrimSpec(list, first, maxTurns);
    PushTrimSpec(r1, second, maxTurns);
    LTrimLast(r1 + [second], 2 * maxTurns);
    assert r2 == (r1 + [second])[|r1 + [second]| - |r2|..];
    assert r2[|r2| - 2] == first;
  }

  /** The history after a list received two more turns ends with those two turns. */
  lemma TwoTurnsReadBack(list: seq<string>, first: string, second: string, maxTurns: nat, parse: string -> Option<Json>)
    requires maxTurns >= 1
    requires parse(first).Some? && parse(second).Some?
    ensures EndsWithPair(Parsed(PushTrim(PushTrim(list, first, maxTurns), second, maxTurns), parse), parse(first).value, parse(second).value)
  {
    var r := PushTrim(PushTrim(list, first, maxTurns), second, maxTurns);
    PushTwiceEnds(list, first, second, maxTurns);
    var pre := r[..|r| - 2];
    ParsedLast(pre + [first], second, parse);
    ParsedLast(pre, first, parse);
  }

  /** Read back after recording, the history ends with the user item and, when there
      is one, the assistant item after it. */
  lemma RecordReadBack(lists: map<string, seq<string>>, key: string, userItem: string, assistantItem: Option<string>, maxTurns: nat, parse: string -> Option<Json>)
    requires maxTurns >= 1
    requires parse(userItem).Some? && (assistantItem.Some? ==> parse(assistantItem.value).Some?)
    ensures var h := Parsed(ListAt(Record(lists, key, userItem, assistantItem, maxTurns), key), parse);
      (assistantItem.None? ==> EndsWithOne(h, parse(userItem).value)) &&
      (assistantItem.Some? ==> EndsWithPair(h, parse(userItem).value, parse(assistantItem.value).value))
  {
    var before := ListAt(lists, key);
    if assistantItem.Some? {
      TwoTurnsReadBack(before, userItem, assistantItem.value, maxTurns, parse);
    } else {
      var withUser := PushTrim(before, userItem, maxTurns);
      PushTrimEnds(before, userItem, maxTurns);
      ParsedLast(withUser[..|withUser| - 1], userItem, parse);
    }
  }

  /** Two turns written by append_turn are read back last, in order. */
  lemma RecordTurnsReadBack(lists: map<string, seq<string>>, key: string, role1: string, content1: string, role2: string, content2: string, maxTurns: nat, parse: string -> Option<Json>)
    requires maxTurns >= 1 && LoadsTurns(parse)
    ensures EndsWithPair(Parsed(ListAt(Record(lists, key, EncodeTurn(role1, content1), Some(EncodeTurn(role2, content2)), maxTurns), key), parse),
      TurnObject(role1, content1), TurnObject(role2, content2))
  {
    var item1, item2 := EncodeTurn(role1, content1), EncodeTurn(role2, content2);
    assert parse(item1) == Some(TurnObject(role1, content1));
    assert parse(item2) == Some(TurnObject(role2, content2));
    RecordReadBack(lists, key, item1, Some(item2), maxTurns, parse);
  }

  /** After a reply, the user's history read back ends with the user turn and the
      reply, in that order, whatever the reply is. */
  lemma RespondReadBack(lists: map<string, seq<string>>, maxTurns: nat, userId: string, body: string, reply: string, parse: string -> Option<Json>)
    requires maxTurns >= 1 && LoadsTurns(parse)
    ensures EndsWithPair(Parsed(ListAt(Respond(lists, maxTurns, userId, body, Ok(reply)).lists, Key(userId)), parse),
      TurnObject("user", body), TurnObject("assistant", reply))
  {
    RecordTurnsReadBack(lists, Key(userId), "user", body, "assistant", reply, maxTurns, parse);
  }

  /** After an exception the user turn is still recorded, last. */
  lemma RespondFailureKeepsUserTurn(lists: map<string, seq<string>>, maxTurns: nat, userId: string, body: string, failure: Failure, parse: string -> Option<Json>)
    requires maxTurns >= 1 && LoadsTurns(parse)
    ensures EndsWithOne(Parsed(ListAt(Respond(lists, maxTurns, userId, body, Err(failure)).lists, Key(userId)), parse), TurnObject("user", body))
  {
    var userItem := EncodeTurn("user", body);
    assert parse(userItem) == Some(TurnObject("user", body));
    RecordReadBack(lists, Key(userId), userItem, None, maxTurns, parse);
  }

  /** Only the user's own list changes. */
  lemma RespondKeepsOthers(lists: map<string, seq<string>>, maxTurns: nat, userId: string, body: string, reply: Result<string, Failure>, u: string)
    requires u != userId
    ensures ListAt(Respond(lists, maxTurns, userId, body, reply).lists, Key(u)) == ListAt(lists, Key(u))
  {
    var r := Respond(lists, maxTurns, userId, body, reply);
    UpdateKeepsOthers(lists, userId, r.lists[Key(userId)]);
  }

  /** Every list stays within 2 * HISTORY_MAX_TURNS entries. */
  lemma RespondKeepsBound(lists: map<string, seq<string>>, maxTurns: nat, userId: string, body: string, reply: Result<string, Failure>)
    requires maxTurns >= 1
    requires forall k :: k in lists ==> |lists[k]| <= 2 * maxTurns
    ensures var r := Respond(lists, maxTurns, userId, body, reply).lists;
      forall k :: k in r ==> |r[k]| <= 2 * maxTurns
  {
    var assistantItem := if reply.Ok? then Some(EncodeTurn("assistant", reply.value)) else None;
    RecordKeepsBound(lists, Key(userId), EncodeTurn("user", body), assistantItem, maxTurns);
  }

  class ConversationService {

    /** The session store over the shared Redis connection. */
    const sessions: SessionStore

    constructor (sessions: SessionStore)
      ensures this.sessions == sessions
    {
      this.sessions := sessions;
    }

    /** handle_message; `fromNumber` is only logged. */
    method HandleMessage(env: Env, userId: string, fromNumber: string, body: string) returns (reply: Result<string, Failure>)
      requires EnvValid(env) && sessions.Valid() && sessions.maxTurns == env.maxTurns
      modifies sessions
      ensures sessions.Valid()
      ensures reply == RunAgentSpec(env, Parsed(old(sessions.Stored(userId)), env.parse), body).reply
      ensures Handled(sessions.lists, reply) == Respond(old(sessions.lists), env.maxTurns, userId, body, reply)
    {
      var before, key := sessions.lists, Key(userId);
      var history := sessions.GetHistory(userId, env.parse);
      sessions.AppendTurn(userId, "user", body);
      reply := RunAgent(env, history, body);
      RespondKeepsBound(before, env.maxTurns, userId, body, reply);
      var assistantItem := if reply.Ok? then Some(EncodeTurn("assistant", reply.value)) else None;
      if reply.Ok? {
        sessions.AppendTurn(userId, "assistant", reply.value);
      }
      RecordInTwoWrites(before, key, EncodeTurn("user", body), assistantItem, env.maxTurns);
    }
  }
}
