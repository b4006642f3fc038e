/** JSON values as Python's `json.loads` returns them, and the one JSON document the
    repository writes itself: a conversation turn `{"role": ..., "content": ...}` as
    `json.dumps(..., ensure_ascii=False)` serialises it. */
module Json {

  import opened Common
  import opened Text

  datatype Json =
    | Null
    | Bool(b: bool)
    | Num(n: real)
    | Str(s: string)
    | Arr(items: seq<Json>)
    | Obj(fields: map<string, Json>)

  /** Python truthiness of a decoded value (`if value:`). */
  predicate JsonTruthy(j: Json)
  {
    match j
    case Null => false
    case Bool(b) => b
    case Num(n) => n != 0.0
    case Str(s) => s != ""
    case Arr(items) => items != []
    case Obj(fields) => fields != map[]
  }

  /** `d.get(key)` on a decoded object. */
  function Get(fields: map<string, Json>, key: string): Option<Json>
  {
    if key in fields then Some(fields[key]) else None
  }

  /** The dictionary `{"role": role, "content": content}` as a decoded value. */
  function TurnObject(role: string, content: string): Json
  {
    Obj(map["role" := Str(role), "content" := Str(content)])
  }

  /** How `json.dumps(..., ensure_ascii=False)` writes one character inside a string
      literal: quote, backslash and the control characters below U+0020 are escaped,
      everything else is written as it is. */
  function EscapeChar(c: char): (r: string)
    ensures 1 <= |r| && r[0] != '"'
  {
    if c == '"' then "\\\""
    else if c == '\\' then "\\\\"
    else if c == '\n' then "\\n"
    else if c == '\r' then "\\r"
    else if c == '\t' then "\\t"
    else if c == '\U{8}' then "\\b"
    else if c == '\U{c}' then "\\f"
    else if c < ' ' then "\\u00" + [HexDigit(c as int / 16), HexDigit(c as int % 16)]
    else [c]
  }

  /** The pieces joined one after the other. */
  function Concat(parts: seq<string>): string
  {
    if parts == [] then [] else parts[0] + Concat(parts[1..])
  }

  /** A text as it appears inside a string literal: each character escaped in turn. */
  function Escape(s: string): string
  {
    Concat(seq(|s|, i requires 0 <= i < |s| => EscapeChar(s[i])))
  }

  lemma EscapeCons(s: string)
    requires s != []
    ensures Escape(s) == EscapeChar(s[0]) + Escape(s[1..])
  {
    var parts := seq(|s|, i requires 0 <= i < |s| => EscapeChar(s[i]));
    assert parts[1..] == seq(|s| - 1, i requires 0 <= i < |s| - 1 => EscapeChar(s[1..][i]));
  }

  /** `json.dumps({"role": role, "content": content}, ensure_ascii=False)`, with the
      default separators ", " and ": ". */
  function EncodeTurn(role: string, content: string): string
  {
    RoleKey + Escape(role) + "\"" + ContentKey + Escape(content) + "\"" + "}"
  }

  /** The fixed text before the role's value, `{"role": "`, and between the role's
      closing quote and the content's value, `, "content": "`. */
  const RoleKey: string := "{\"role\": \""
  const ContentKey: string := ", \"content\": \""

  /** One character of a JSON string literal, plain or escaped: the character and how
      many input characters it took. Unescaped control characters are refused, as in
      `json.loads`; escapes of UTF-16 surrogates are outside this decoder. */
  function LexChar(s: string): (r: Option<(char, nat)>)
    ensures r.Some? ==> 1 <= r.value.1 <= |s|
  {
    if s == [] || s[0] < ' ' || s[0] == '"' then None
    else if s[0] != '\\' then Some((s[0], 1))
    else if |s| < 2 then None
    else
      var e := s[1];
      if e == '"' then Some(('"', 2))
      else if e == '\\' then Some(('\\', 2))
      else if e == '/' then Some(('/', 2))
      else if e == 'b' then Some(('\U{8}', 2))
      else if e == 'f' then Some(('\U{c}', 2))
      else if e == 'n' then Some(('\n', 2))
      else if e == 'r' then Some(('\r', 2))
      else if e == 't' then Some(('\t', 2))
      else if e == 'u' && |s| >= 6 && AllHex(s[2..6]) then
        var v := HexValue(s[2..6]);
        if v < 0xD800 || 0xE000 <= v < 0x11_0000 then Some((v as char, 6)) else None
      else None
  }

  /** The body of a string literal up to its closing quote: the decoded text and what
      follows the quote. */
  function ParseString(s: string): Option<(string, string)>
    decreases |s|
  {
    if s == [] then None
    else if s[0] == '"' then Some(([], s[1..]))
    else
      match LexChar(s)
      case None => None
      case Some((c, n)) =>
        match ParseString(s[n..])
        case None => None
        case Some((v, rest)) => Some(([c] + v, rest))
  }

  /** `json.loads` on documents of exactly the form EncodeTurn writes, giving the role
      and the content; None for anything else. */
  function DecodeTurn(s: string): Option<(string, string)>
  {
    match AfterPrefix(RoleKey, s)
    case None => None
    case Some(s1) =>
      match ParseString(s1)
      case None => None
      case Some((role, s2)) =>
        match AfterPrefix(ContentKey, s2)
        case None => None
        case Some(s3) =>
          match ParseString(s3)
          case None => None
          case Some((content, tail)) => if tail == "}" then Some((role, content)) else None
  }

  /** What follows p in s, when s starts with p. */
  function AfterPrefix(p: string, s: string): Option<string>
  {
    if |p| <= |s| && s[..|p|] == p then Some(s[|p|..]) else None
  }

  lemma AfterPrefixOf(p: string, t: string)
    ensures AfterPrefix(p, p + t) == Some(t)
  {
    assert (p + t)[..|p|] == p;
    assert (p + t)[|p|..] == t;
  }

  lemma HexValue4(a: char, b: char, c: char, d: char)
    requires IsHexDigit(a) && IsHexDigit(b) && IsHexDigit(c) && IsHexDigit(d)
    ensures HexValue([a, b, c, d]) ==
      ((HexDigitValue(a) * 16 + HexDigitValue(b)) * 16 + HexDigitValue(c)) * 16 + HexDigitValue(d)
  {
    var va, vb, vc, vd := HexDigitValue(a), HexDigitValue(b), HexDigitValue(c), HexDigitValue(d);
    assert [a, b, c, d][..3] == [a, b, c];
    assert [a, b, c][..2] == [a, b];
    assert [a, b][..1] == [a];
    assert [a][..0] == [];
    assert HexValue([a]) == va;
    assert HexValue([a, b]) == va * 16 + vb;
    assert HexValue([a, b, c]) == (va * 16 + vb) * 16 + vc;
  }

  lemma LexEscaped(c: char, t: string)
    ensures LexChar(EscapeChar(c) + t) == Some((c, |EscapeChar(c)|))
  {
    var e := EscapeChar(c);
    var s := e + t;
    if c < ' ' && c != '\n' && c != '\r' && c != '\t' && c != '\U{8}' && c != '\U{c}' {
      var hi, lo := HexDigit(c as int / 16), HexDigit(c as int % 16);
      assert s[2..6] == ['0', '0', hi, lo];
      HexValue4('0', '0', hi, lo);
      assert HexValue(s[2..6]) == c as int;
    } else {
      assert s[..|e|] == e;
    }
  }

  /** Decoding an escaped text followed by the closing quote gives the text back. */
  lemma {:induction false} ParseEscaped(x: string, rest: string)
    ensures ParseString(Escape(x) + "\"" + rest) == Some((x, rest))
  {
    var s := Escape(x) + "\"" + rest;
    if x == [] {
      assert Escape(x) == [];
      assert s == "\"" + rest;
    } else {
      EscapeCons(x);
      var e := EscapeChar(x[0]);
      var tail := Escape(x[1..]) + "\"" + rest;
      assert s == e + tail;
      LexEscaped(x[0], tail);
      assert s[|e|..] == tail;
      ParseEscaped(x[1..], rest);
      assert [x[0]] + x[1..] == x;
    }
  }

  /** What append_turn stores decodes to exactly the role and content it was given. */
  lemma EncodeDecodeTurn(role: string, content: string)
    ensures DecodeTurn(EncodeTurn(role, content)) == Some((role, content))
  {
    var q, c := "\"", "}";
    var er, ec := Escape(role), Escape(content);
    var after := ContentKey + (ec + q + c);
    var s := EncodeTurn(role, content);
    assert s == RoleKey + (er + q + after);
    AfterPrefixOf(RoleKey, er + q + after);
    ParseEscaped(role, after);
    AfterPrefixOf(ContentKey, ec + q + c);
    ParseEscaped(content, c);
  }
}
