/** The per-user conversation history: one Redis list per user, holding the turns as
    JSON documents, trimmed to the most recent 2 * HISTORY_MAX_TURNS entries. The
    Redis server is modelled by the map from keys to lists that it holds. */
module Sessions {

  import opened Common
  import opened Json

  const KeyPrefix: string := "conv:"
  const KeySuffix: string := ":history"

  /** `_key(user_id)`: the Redis key of a user's history. */
  function Key(userId: string): string
  {
    KeyPrefix + userId + KeySuffix
  }

  /** Distinct users have distinct keys. */
  lemma KeyInjective(u: string, v: string)
    ensures Key(u) == Key(v) <==> u == v
  {
    if Key(u) == Key(v) {
      assert |u| == |v|;
      assert u == Key(u)[|KeyPrefix|..|KeyPrefix| + |u|];
      assert v == Key(v)[|KeyPrefix|..|KeyPrefix| + |v|];
    }
  }

  /** The list stored under a key; Redis treats a missing key as an empty list. */
  function ListAt(lists: map<string, seq<string>>, key: string): seq<string>
  {
    if key in lists then lists[key] else []
  }

  /** Redis `LTRIM key start stop` on a list: negative indexes count from the end, an
      out-of-range start is clamped to 0 and an out-of-range stop to the last element,
      and an empty range leaves nothing. */
  function LTrim<T>(s: seq<T>, start: int, stop: int): seq<T>
  {
    var n := |s|;
    var a := if start < 0 then Max(n + start, 0) else start;
    var b := if stop < 0 then n + stop else Min(stop, n - 1);
    if a > b || a >= n then [] else s[a..b + 1]
  }

  /** `LTRIM key -m -1` keeps the last m elements. */
  lemma LTrimLast<T>(s: seq<T>, m: nat)
    requires m >= 1
    ensures LTrim(s, 0 - m, -1) == LastN(s, m)
  {
  }

  /** With HISTORY_MAX_TURNS = 0 the trim is `LTRIM key 0 -1`, which keeps the whole
      list: the history would grow without bound. */
  lemma LTrimZero<T>(s: seq<T>)
    ensures LTrim(s, -0, -1) == s
  {
  }

  /** What append_turn leaves in a list: RPUSH of the item, then LTRIM to the last
      2 * maxTurns entries. */
  function PushTrim(list: seq<string>, item: string, maxTurns: nat): seq<string>
  {
    LTrim(list + [item], -(maxTurns * 2), -1)
  }

  /** After append_turn the list is the last min(old length + 1, 2 * maxTurns)
      entries of the old list followed by the new item: the oldest are dropped first,
      the order is kept, and the newest entry is the item. */
  lemma PushTrimSpec(list: seq<string>, item: string, maxTurns: nat)
    requires maxTurns >= 1
    ensures var r := PushTrim(list, item, maxTurns);
      r == LastN(list + [item], 2 * maxTurns) &&
      |r| == Min(|list| + 1, 2 * maxTurns) &&
      r[|r| - 1] == item
  {
    LTrimLast(list + [item], maxTurns * 2);
  }

  /** append_turn leaves between 1 and 2 * maxTurns entries. */
  lemma PushTrimBound(list: seq<string>, item: string, maxTurns: nat)
    requires maxTurns >= 1
    ensures 1 <= |PushTrim(list, item, maxTurns)| <= 2 * maxTurns
  {
    PushTrimSpec(list, item, maxTurns);
  }

  /** The list after appending the items one by one. */
  function PushAll(list: seq<string>, items: seq<string>, maxTurns: nat): seq<string>
  {
    if items == [] then list
    else PushTrim(PushAll(list, items[..|items| - 1], maxTurns), items[|items| - 1], maxTurns)
  }

  /** Appending several turns keeps the last 2 * maxTurns of the old list followed by
      all the new items. */
  lemma {:induction false} PushAllRecent(list: seq<string>, items: seq<string>, maxTurns: nat)
    requires maxTurns >= 1 && items != []
    ensures PushAll(list, items, maxTurns) == LastN(list + items, 2 * maxTurns)
  {
    var init, x := items[..|items| - 1], items[|items| - 1];
    assert items == init + [x];
    PushTrimSpec(PushAll(list, init, maxTurns), x, maxTurns);
    if init == [] {
      assert list + items == list + [x];
    } else {
      PushAllRecent(list, init, maxTurns);
      LastNAppend(list + init, x, 2 * maxTurns);
      assert list + init + [x] == list + items;
    }
  }

  /** Appending at least 2 * maxTurns turns leaves exactly the 2 * maxTurns most
      recent of them, whatever was stored before. */
  lemma ManyTurnsKeepMostRecent(list: seq<string>, items: seq<string>, maxTurns: nat)
    requires maxTurns >= 1 && |items| >= 2 * maxTurns
    ensures PushAll(list, items, maxTurns) == items[|items| - 2 * maxTurns..]
  {
    PushAllRecent(list, items, maxTurns);
    assert (list + items)[|list + items| - 2 * maxTurns..] == items[|items| - 2 * maxTurns..];
  }

  /** get_history as a function of the stored entries: every entry that `json.loads`
      accepts, in stored order; entries it rejects are skipped. */
  function Parsed(raw: seq<string>, parse: string -> Option<Json>): seq<Json>
  {
    if raw == [] then []
    else
      var init := Parsed(raw[..|raw| - 1], parse);
      match parse(raw[|raw| - 1])
      case None => init
      case Some(j) => init + [j]
  }

  lemma {:induction false} ParsedAppend(a: seq<string>, b: seq<string>, parse: string -> Option<Json>)
    ensures Parsed(a + b, parse) == Parsed(a, parse) + Parsed(b, parse)
  {
    if b != [] {
      var s := a + b;
      assert s[..|s| - 1] == a + b[..|b| - 1];
      assert s[|s| - 1] == b[|b| - 1];
      ParsedAppend(a, b[..|b| - 1], parse);
    } else {
      assert a + b == a;
    }
  }

  /** Only what fails to parse is skipped: when every entry parses, get_history
      returns all of them, decoded, in order (whatever JSON value each one is). */
  lemma {:induction false} ParsedKeepsAll(raw: seq<string>, parse: string -> Option<Json>)
    requires forall i :: 0 <= i < |raw| ==> parse(raw[i]).Some?
    ensures |Parsed(raw, parse)| == |raw|
    ensures forall i :: 0 <= i < |raw| ==> Parsed(raw, parse)[i] == parse(raw[i]).value
  {
    if raw != [] {
      ParsedKeepsAll(raw[..|raw| - 1], parse);
    }
  }

  /** Every value get_history returns is the parse of a stored entry. */
  lemma {:induction false} ParsedFromEntries(raw: seq<string>, parse: string -> Option<Json>)
    ensures forall j :: j in Parsed(raw, parse) ==> exists i :: 0 <= i < |raw| && parse(raw[i]) == Some(j)
  {
    if raw != [] {
      var init := raw[..|raw| - 1];
      ParsedFromEntries(init, parse);
      forall j | j in Parsed(raw, parse) ensures exists i :: 0 <= i < |raw| && parse(raw[i]) == Some(j) {
        if j in Parsed(init, parse) {
          var i :| 0 <= i < |init| && parse(init[i]) == Some(j);
          assert raw[i] == init[i];
        } else {
          assert parse(raw[|raw| - 1]) == Some(j);
        }
      }
    }
  }

  /** `json.loads` reads back every turn document this store writes as the object
      {"role": role, "content": content}; EncodeDecodeTurn shows the document holds
      exactly that role and content. */
  ghost predicate LoadsTurns(parse: string -> Option<Json>)
  {
    forall role: string, content: string :: parse(EncodeTurn(role, content)) == Some(TurnObject(role, content))
  }

  /** `json.loads` on the documents this store writes: a turn document read by the
      decoder of the encoding becomes the object it was written from. */
  function LoadTurn(s: string): Option<Json>
  {
    match DecodeTurn(s)
    case Some((role, content)) => Some(TurnObject(role, content))
    case None => None
  }

  /** The turn decoder meets LoadsTurns, so the read-back lemmas hold of it. */
  lemma TurnDecoderLoads()
    ensures LoadsTurns(LoadTurn)
  {
    forall role: string, content: string
      ensures LoadTurn(EncodeTurn(role, content)) == Some(TurnObject(role, content))
    {
      EncodeDecodeTurn(role, content);
    }
  }

  /** After append_turn the history read back ends with the turn just written. */
  lemma LastTurnReadBack(list: seq<string>, role: string, content: string, maxTurns: nat, parse: string -> Option<Json>)
    requires maxTurns >= 1 && LoadsTurns(parse)
    ensures var h := Parsed(PushTrim(list, EncodeTurn(role, content), maxTurns), parse);
      |h| >= 1 && h[|h| - 1] == TurnObject(role, content)
  {
    var r := PushTrim(list, EncodeTurn(role, content), maxTurns);
    PushTrimSpec(list, EncodeTurn(role, content), maxTurns);
    assert parse(r[|r| - 1]) == Some(TurnObject(role, content));
  }

  /** Writing a user's key leaves every other user's list as it was. */
  lemma UpdateKeepsOthers(lists: map<string, seq<string>>, userId: string, list: seq<string>)
    ensures forall u :: u != userId ==> ListAt(lists[Key(userId) := list], Key(u)) == ListAt(lists, Key(u))
  {
    forall u | u != userId ensures ListAt(lists[Key(userId) := list], Key(u)) == ListAt(lists, Key(u)) {
      KeyInjective(u, userId);
    }
  }

  lemma UpdateKeepsBound(lists: map<string, seq<string>>, key: string, list: seq<string>, bound: nat)
    requires forall k :: k in lists ==> |lists[k]| <= bound
    requires |list| <= bound
    ensures var updated := lists[key := list]; forall k :: k in updated ==> |updated[k]| <= bound
  {
  }

  class SessionStore {

    /** The lists held by Redis, by key. */
    var lists: map<string, seq<string>>

    /** HISTORY_MAX_TURNS. */
    const maxTurns: nat

    ghost predicate Valid()
      reads this
    {
      maxTurns >= 1 && forall k :: k in lists ==> |lists[k]| <= 2 * maxTurns
    }

    constructor (maxTurns: nat)
      requires maxTurns >= 1
      ensures Valid() && this.maxTurns == maxTurns && lists == map[]
    {
      this.maxTurns := maxTurns;
      lists := map[];
    }

    /** The entries stored for a user, oldest first. */
    function Stored(userId: string): seq<string>
      reads this
    {
      ListAt(lists, Key(userId))
    }

    /** append_turn: serialise the turn, RPUSH it, then LTRIM to the last
        2 * HISTORY_MAX_TURNS entries. Only the user's own list changes. */
    method AppendTurn(userId: string, role: string, content: string)
      requires Valid()
      modifies this
      ensures Valid()
      ensures lists == old(lists)[Key(userId) := PushTrim(ListAt(old(lists), Key(userId)), EncodeTurn(role, content), maxTurns)]
      ensures forall u :: u != userId ==> ListAt(lists, Key(u)) == ListAt(old(lists), Key(u))
    {
      var item := EncodeTurn(role, content);
      var key := Key(userId);
      ghost var before := lists;
      RPush(key, item);
      var maxItems := maxTurns * 2;
      LTrimKey(key, -maxItems, -1);
      assert lists == before[key := PushTrim(ListAt(before, key), item, maxTurns)];
      PushTrimSpec(ListAt(before, key), item, maxTurns);
      UpdateKeepsOthers(before, userId, lists[key]);
      UpdateKeepsBound(before, key, lists[key], 2 * maxTurns);
    }

    /** Redis `RPUSH key item`: the item goes at the tail of the list. */
    method RPush(key: string, item: string)
      modifies this
      ensures lists == old(lists)[key := ListAt(old(lists), key) + [item]]
    {
      lists := lists[key := ListAt(lists, key) + [item]];
    }

    /** Redis `LTRIM key start stop`. */
    method LTrimKey(key: string, start: int, stop: int)
      modifies this
      ensures lists == old(lists)[key := LTrim(ListAt(old(lists), key), start, stop)]
    {
      lists := lists[key := LTrim(ListAt(lists, key), start, stop)];
    }

    /** get_history: LRANGE the whole list and keep every entry that parses. */
    method GetHistory(userId: string, parse: string -> Option<Json>) returns (out: seq<Json>)
      ensures out == Parsed(Stored(userId), parse)
    {
      var raw := ListAt(lists, Key(userId));
      out := [];
      for i := 0 to |raw|
        invariant out == Parsed(raw[..i], parse)
      {
        assert raw[..i + 1][..i] == raw[..i];
        match parse(raw[i]) {
          case None =>
            continue;
          case Some(j) =>
            out := out + [j];
        }
      }
      assert raw[..|raw|] == raw;
    }
  }
}
