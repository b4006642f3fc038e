/** The Python string operations the repository uses: `str.strip`, `str.lower`,
    `str.split(sep)`, `str.split(" ", 1)` and `sep.join`. */
module Text {

  import opened Common

  /** Python truthiness of an optional string: None and "" are false. */
  predicate Truthy(s: Option<string>)
  {
    s.Some? && s.value != ""
  }

  /** The characters Python's `str.isspace` accepts, which `str.strip()` removes. */
  predicate IsSpace(c: char)
  {
    c == ' ' || ('\t' <= c <= '\r') || ('\U{1c}' <= c <= '\U{1f}') ||
    c == '\U{85}' || c == '\U{a0}' || c == '\U{1680}' ||
    ('\U{2000}' <= c <= '\U{200a}') || c == '\U{2028}' || c == '\U{2029}' ||
    c == '\U{202f}' || c == '\U{205f}' || c == '\U{3000}'
  }

  predicate AllSpace(s: string)
  {
    forall i :: 0 <= i < |s| ==> IsSpace(s[i])
  }

  /** A string with no whitespace at either end, as `strip()` leaves it. */
  predicate Stripped(s: string)
  {
    s == [] || (!IsSpace(s[0]) && !IsSpace(s[|s| - 1]))
  }

  /** The index of the first character of s at or after i that is not whitespace,
      or |s| when there is none. */
  function SkipSpace(s: string, i: nat): (j: nat)
    requires i <= |s|
    ensures i <= j <= |s| && (j < |s| ==> !IsSpace(s[j]))
    ensures forall k :: i <= k < j ==> IsSpace(s[k])
    decreases |s| - i
  {
    if i == |s| || !IsSpace(s[i]) then i else SkipSpace(s, i + 1)
  }

  /** The index just after the last character of s before j that is not whitespace,
      or 0 when there is none. */
  function SkipSpaceBack(s: string, j: nat): (i: nat)
    requires j <= |s|
    ensures i <= j && (i > 0 ==> !IsSpace(s[i - 1]))
    ensures forall k :: i <= k < j ==> IsSpace(s[k])
    decreases j
  {
    if j == 0 || !IsSpace(s[j - 1]) then j else SkipSpaceBack(s, j - 1)
  }

  /** `s.lstrip()`. */
  function TrimLeft(s: string): (r: string)
    ensures |r| <= |s| && r == s[|s| - |r|..]
    ensures r == [] || !IsSpace(r[0])
    ensures AllSpace(s[..|s| - |r|])
  {
    s[SkipSpace(s, 0)..]
  }

  /** `s.rstrip()`. */
  function TrimRight(s: string): (r: string)
    ensures |r| <= |s| && r == s[..|r|]
    ensures r == [] || !IsSpace(r[|r| - 1])
    ensures AllSpace(s[|r|..])
  {
    s[..SkipSpaceBack(s, |s|)]
  }

  /** Python's `s.strip()`. */
  function Trim(s: string): string
  {
    TrimRight(TrimLeft(s))
  }

  /** strip() removes whitespace from both ends and nothing else: the result is a
      contiguous piece of s, with only whitespace on either side of it. */
  lemma {:induction false} TrimSpec(s: string)
    ensures Stripped(Trim(s))
    ensures var i := |s| - |TrimLeft(s)|;
      Trim(s) == s[i..i + |Trim(s)|] && AllSpace(s[..i]) && AllSpace(s[i + |Trim(s)|..])
  {
    var l := TrimLeft(s);
    var r := TrimRight(l);
    var i := |s| - |l|;
    assert r == s[i..i + |r|];
    assert s[i + |r|..] == l[|r|..];
    if r != [] {
      assert r[0] == l[0];
    }
  }

  /** strip() leaves an already stripped string unchanged. */
  lemma TrimStripped(s: string)
    requires Stripped(s)
    ensures Trim(s) == s
  {
    assert SkipSpace(s, 0) == 0;
    assert s[0..] == s;
    assert SkipSpaceBack(s, |s|) == |s|;
  }

  lemma TrimIdempotent(s: string)
    ensures Trim(Trim(s)) == Trim(s)
  {
    TrimSpec(s);
    TrimStripped(Trim(s));
  }

  /** strip() yields "" exactly for empty or whitespace-only strings. */
  lemma {:induction false} TrimEmptyIff(s: string)
    ensures Trim(s) == [] <==> AllSpace(s)
  {
    var l := TrimLeft(s);
    if !AllSpace(s) {
      var k :| 0 <= k < |s| && !IsSpace(s[k]);
      assert k >= |s| - |l|;
      assert l[k - (|s| - |l|)] == s[k];
    }
  }

  lemma TrimSpaceEnd(r: string, sep: char)
    requires Stripped(r) && IsSpace(sep) && r != []
    ensures Trim(r + [sep]) == r
  {
    var q := r + [sep];
    assert q[0] == r[0];
    assert SkipSpace(q, 0) == 0;
    assert TrimLeft(q) == q;
    assert q[|r| - 1] == r[|r| - 1];
    assert SkipSpaceBack(q, |r|) == |r|;
    assert SkipSpaceBack(q, |q|) == |r|;
    assert q[..|r|] == r;
  }

  lemma TrimSpaceStart(r: string, sep: char)
    requires Stripped(r) && IsSpace(sep) && r != []
    ensures Trim([sep] + r) == r
  {
    var p := [sep] + r;
    assert p[1] == r[0];
    assert SkipSpace(p, 1) == 1;
    assert SkipSpace(p, 0) == 1;
    assert p[1..] == r;
    TrimStripped(r);
  }

  lemma TrimSpaceAfter(r: string, sep: char)
    requires Stripped(r) && IsSpace(sep)
    ensures Trim(r + [sep]) == r && Trim([sep] + r) == r
  {
    if r != [] {
      TrimSpaceEnd(r, sep);
      TrimSpaceStart(r, sep);
    } else {
      assert SkipSpace([sep], 0) == SkipSpace([sep], 1) == 1;
    }
  }

  /** Stripping `a + sep + b` for stripped a and b and a whitespace sep gives a, b, or
      the joined text. */
  lemma JoinedTrim(a: string, b: string, sep: char)
    requires Stripped(a) && Stripped(b) && IsSpace(sep)
    ensures a != [] && b == [] ==> Trim(a + [sep] + b) == a
    ensures a == [] && b != [] ==> Trim(a + [sep] + b) == b
    ensures a != [] && b != [] ==> Trim(a + [sep] + b) == a + [sep] + b
  {
    if b == [] {
      assert a + [sep] + b == a + [sep];
      TrimSpaceAfter(a, sep);
    } else if a == [] {
      assert a + [sep] + b == [sep] + b;
      TrimSpaceAfter(b, sep);
    } else {
      var q := a + [sep] + b;
      assert q[0] == a[0] && q[|q| - 1] == b[|b| - 1];
      TrimStripped(q);
    }
  }

  /** A character that `str.lower()` changes: ASCII A-Z and the Latin-1 capitals
      U+00C0..U+00DE except the multiplication sign U+00D7. */
  predicate IsUpper(c: char)
  {
    ('A' <= c <= 'Z') || ('\U{c0}' <= c <= '\U{de}' && c != '\U{d7}')
  }

  function LowerChar(c: char): (r: char)
    ensures !IsUpper(r)
    ensures !IsUpper(c) ==> r == c
    ensures IsSpace(r) <==> IsSpace(c)
  {
    if IsUpper(c) then (c as int + 32) as char else c
  }

  /** Python's `s.lower()` on the letters IsUpper covers. */
  function Lower(s: string): (r: string)
    ensures |r| == |s|
    ensures forall i :: 0 <= i < |s| ==> r[i] == LowerChar(s[i])
  {
    seq(|s|, i requires 0 <= i < |s| => LowerChar(s[i]))
  }

  predicate NoUpper(s: string)
  {
    forall i :: 0 <= i < |s| ==> !IsUpper(s[i])
  }

  /** lower() leaves no capital behind and so is idempotent; it never turns a
      stripped string into one with whitespace at an end. */
  lemma LowerSpec(s: string)
    ensures NoUpper(Lower(s))
    ensures Lower(Lower(s)) == Lower(s)
    ensures NoUpper(s) ==> Lower(s) == s
    ensures Stripped(s) ==> Stripped(Lower(s))
  {
  }

  /** lower() works character by character, so it commutes with slicing. */
  lemma LowerSlice(s: string, i: nat, j: nat)
    requires i <= j <= |s|
    ensures Lower(s)[i..j] == Lower(s[i..j])
  {
  }

  /** lower() keeps whitespace whitespace, so it commutes with strip(). */
  lemma {:induction false} LowerSkipSpace(s: string, i: nat)
    requires i <= |s|
    ensures SkipSpace(Lower(s), i) == SkipSpace(s, i)
    decreases |s| - i
  {
    if i < |s| {
      LowerSkipSpace(s, i + 1);
    }
  }

  lemma {:induction false} LowerSkipSpaceBack(s: string, j: nat)
    requires j <= |s|
    ensures SkipSpaceBack(Lower(s), j) == SkipSpaceBack(s, j)
  {
    if j > 0 {
      LowerSkipSpaceBack(s, j - 1);
    }
  }

  lemma LowerTrim(s: string)
    ensures Trim(Lower(s)) == Lower(Trim(s))
  {
    var i := SkipSpace(s, 0);
    LowerSkipSpace(s, 0);
    LowerSlice(s, i, |s|);
    assert TrimLeft(Lower(s)) == Lower(TrimLeft(s));
    var l := TrimLeft(s);
    var j := SkipSpaceBack(l, |l|);
    LowerSkipSpaceBack(l, |l|);
    LowerSlice(l, 0, j);
    assert l[0..j] == l[..j];
    assert Lower(l)[0..j] == Lower(l)[..j];
  }

  /** lower() works character by character, so it distributes over concatenation. */
  lemma LowerAppend(a: string, b: string)
    ensures Lower(a + b) == Lower(a) + Lower(b)
  {
    assert forall i :: 0 <= i < |a + b| ==> Lower(a + b)[i] == (Lower(a) + Lower(b))[i];
  }

  /** Python's `s.split(sep)` for a one-character separator: always at least one piece. */
  function Split(s: string, sep: char): (r: seq<string>)
    ensures |r| >= 1
  {
    if s == [] then [[]]
    else
      var rest := Split(s[1..], sep);
      if s[0] == sep then [[]] + rest else [[s[0]] + rest[0]] + rest[1..]
  }

  /** Python's `sep.join(parts)`. */
  function Join(parts: seq<string>, sep: string): string
  {
    if parts == [] then []
    else if |parts| == 1 then parts[0]
    else parts[0] + sep + Join(parts[1..], sep)
  }

  lemma JoinAppend(parts: seq<string>, x: string, sep: string)
    requires parts != []
    ensures Join(parts + [x], sep) == Join(parts, sep) + sep + x
  {
    if |parts| == 1 {
      assert parts + [x] == [parts[0], x];
    } else {
      assert (parts + [x])[1..] == parts[1..] + [x];
      JoinAppend(parts[1..], x, sep);
    }
  }

  /** Splitting on sep yields pieces that do not contain it, and joining them back
      with sep gives the original string. */
  lemma {:induction false} SplitJoin(s: string, sep: char)
    ensures forall k :: 0 <= k < |Split(s, sep)| ==> sep !in Split(s, sep)[k]
    ensures Join(Split(s, sep), [sep]) == s
  {
    if s != [] {
      SplitJoin(s[1..], sep);
      var rest := Split(s[1..], sep);
      if s[0] == sep {
        assert Join([[]] + rest, [sep]) == [] + [sep] + Join(rest, [sep]);
      } else {
        var r := [[s[0]] + rest[0]] + rest[1..];
        if |rest| == 1 {
          assert Join(r, [sep]) == [s[0]] + rest[0];
        } else {
          assert r[1..] == rest[1..];
          assert Join(r, [sep]) == [s[0]] + rest[0] + [sep] + Join(rest[1..], [sep]);
          assert Join(rest, [sep]) == rest[0] + [sep] + Join(rest[1..], [sep]);
        }
        assert s == [s[0]] + s[1..];
        forall k | 0 <= k < |r| ensures sep !in r[k] {
          if k == 0 { assert sep !in rest[0]; } else { assert r[k] == rest[k]; }
        }
      }
    }
  }

  /** The text before the first occurrence of sep, or all of s. */
  function Before(s: string, sep: char): (r: string)
    ensures |r| <= |s| && r == s[..|r|] && sep !in r
    ensures |r| < |s| ==> s[|r|] == sep
  {
    if s == [] || s[0] == sep then [] else [s[0]] + Before(s[1..], sep)
  }

  lemma BeforeJoin(a: string, b: string, sep: char)
    ensures Before(a + [sep] + b, sep) == Before(a, sep)
  {
    if a != [] {
      assert (a + [sep] + b)[1..] == a[1..] + [sep] + b;
      BeforeJoin(a[1..], b, sep);
    }
  }

  lemma BeforeWhole(s: string, sep: char)
    requires sep !in s
    ensures Before(s, sep) == s
  {
    if s != [] { BeforeWhole(s[1..], sep); }
  }

  /** Python's `s.split(" ", 1)`: the text before the first space and, when there is
      a space, the remainder after it. */
  function SplitFirstSpace(s: string): (r: (string, Option<string>))
    ensures ' ' !in r.0
    ensures r.1.None? ==> r.0 == s
    ensures r.1.Some? ==> s == r.0 + " " + r.1.value
  {
    var head := Before(s, ' ');
    if |head| == |s| then (s, None) else (head, Some(s[|head| + 1..]))
  }

  predicate IsHexDigit(c: char)
  {
    ('0' <= c <= '9') || ('a' <= c <= 'f') || ('A' <= c <= 'F')
  }

  function HexDigitValue(c: char): (v: nat)
    requires IsHexDigit(c)
    ensures v < 16
  {
    if '0' <= c <= '9' then c as int - '0' as int
    else if 'a' <= c <= 'f' then c as int - 'a' as int + 10
    else c as int - 'A' as int + 10
  }

  /** The lower-case hex digit Python's `hexdigest()` and `format(n, "x")` write for n. */
  function HexDigit(n: nat): (c: char)
    requires n < 16
    ensures IsHexDigit(c) && HexDigitValue(c) == n
  {
    if n < 10 then ('0' as int + n) as char else ('a' as int + n - 10) as char
  }

  predicate AllHex(s: string)
  {
    forall i :: 0 <= i < |s| ==> IsHexDigit(s[i])
  }

  function Pow16(n: nat): (p: nat)
    ensures p >= 1
  {
    if n == 0 then 1 else 16 * Pow16(n - 1)
  }

  /** Python's `int(s, 16)` on a string of hex digits, most significant first. */
  function HexValue(s: string): (v: nat)
    requires AllHex(s)
  {
    if s == [] then 0 else HexValue(s[..|s| - 1]) * 16 + HexDigitValue(s[|s| - 1])
  }

  /** A number written with k hex digits is below 16^k. */
  lemma {:induction false} HexValueBound(s: string)
    requires AllHex(s)
    ensures HexValue(s) < Pow16(|s|)
  {
    if s != [] {
      HexValueBound(s[..|s| - 1]);
      assert HexValue(s[..|s| - 1]) + 1 <= Pow16(|s| - 1);
      assert HexValue(s) < (HexValue(s[..|s| - 1]) + 1) * 16;
    }
  }
}
