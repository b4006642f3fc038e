/** The deterministic part of the knowledge ingestion script: `chunk_text`, which
    packs the paragraphs of a page into chunks, and `stable_point_id`, which derives
    the vector store id of a chunk from a hash of its source and content. */
module Ingest {

  import opened Common
  import opened Text

  /** A paragraph as the list comprehension keeps it: stripped, non-empty, and,
      being a piece of a split at "\n", free of newlines. */
  predicate Paragraph(p: string)
  {
    p != "" && Stripped(p) && '\n' !in p
  }

  predicate AllParagraphs(ps: seq<string>)
  {
    forall i :: 0 <= i < |ps| ==> Paragraph(ps[i])
  }

  /** `[p.strip() for p in pieces if p.strip()]`. */
  function KeptParagraphs(pieces: seq<string>): seq<string>
  {
    if pieces == [] then []
    else (if Trim(pieces[0]) != "" then [Trim(pieces[0])] else []) + KeptParagraphs(pieces[1..])
  }

  /** The paragraphs of a page: its lines, stripped, without the blank ones. */
  function Paragraphs(text: string): seq<string>
  {
    KeptParagraphs(Split(text, '\n'))
  }

  /** A piece of a string that holds no sep keeps none after strip(). */
  lemma TrimKeepsOut(s: string, sep: char)
    requires sep !in s
    ensures sep !in Trim(s)
  {
    TrimSpec(s);
    var i := |s| - |TrimLeft(s)|;
    assert Trim(s) == s[i..i + |Trim(s)|];
  }

  /** A line stripped is a paragraph unless it is blank. */
  lemma StrippedLine(s: string)
    requires '\n' !in s
    ensures Trim(s) != "" ==> Paragraph(Trim(s))
  {
    TrimSpec(s);
    TrimKeepsOut(s, '\n');
  }

  lemma {:induction false} KeptShape(pieces: seq<string>)
    requires forall k :: 0 <= k < |pieces| ==> '\n' !in pieces[k]
    ensures AllParagraphs(KeptParagraphs(pieces))
  {
    if pieces != [] {
      KeptShape(pieces[1..]);
      StrippedLine(pieces[0]);
    }
  }

  /** Every paragraph is stripped, non-empty and without a newline. */
  lemma ParagraphsShape(text: string)
    ensures AllParagraphs(Paragraphs(text))
  {
    SplitJoin(text, '\n');
    KeptShape(Split(text, '\n'));
  }

  lemma {:induction false} KeptBlank(pieces: seq<string>)
    requires forall k :: 0 <= k < |pieces| ==> AllSpace(pieces[k])
    ensures KeptParagraphs(pieces) == []
  {
    if pieces != [] {
      KeptBlank(pieces[1..]);
      TrimEmptyIff(pieces[0]);
    }
  }

  /** A split piece of a string is made of its characters. */
  lemma {:induction false} SplitChars(s: string, sep: char, k: int, c: char)
    requires 0 <= k < |Split(s, sep)| && c in Split(s, sep)[k]
    ensures c in s
  {
    SplitJoin(s, sep);
    var pieces := Split(s, sep);
    JoinHolds(pieces, [sep], k, c);
  }

  /** A part of a join is found in the join. */
  lemma {:induction false} JoinHolds(parts: seq<string>, sep: string, k: int, c: char)
    requires 0 <= k < |parts| && c in parts[k]
    ensures c in Join(parts, sep)
  {
    if k < |parts| - 1 {
      var init := parts[..|parts| - 1];
      assert parts == init + [parts[|parts| - 1]];
      JoinAppend(init, parts[|parts| - 1], sep);
      assert init[k] == parts[k];
      JoinHolds(init, sep, k, c);
    } else if |parts| == 1 {
      assert Join(parts, sep) == parts[0];
    } else {
      var init := parts[..|parts| - 1];
      assert parts == init + [parts[|parts| - 1]];
      JoinAppend(init, parts[|parts| - 1], sep);
    }
  }

  /** A text made only of whitespace has no paragraphs. */
  lemma BlankTextHasNoParagraphs(text: string)
    requires AllSpace(text)
    ensures Paragraphs(text) == []
  {
    var pieces := Split(text, '\n');
    forall k | 0 <= k < |pieces| ensures AllSpace(pieces[k]) {
      forall j | 0 <= j < |pieces[k]| ensures IsSpace(pieces[k][j]) {
        SplitChars(text, '\n', k, pieces[k][j]);
      }
    }
    KeptBlank(pieces);
  }

  /** A string with no newline and nothing to strip is a paragraph of its own. */
  lemma {:induction false} SplitNoSep(s: string, sep: char)
    requires sep !in s
    ensures Split(s, sep) == [s]
  {
    if s != [] {
      SplitNoSep(s[1..], sep);
      assert [s[0]] + s[1..] == s;
    }
  }

  lemma OneParagraph(p: string)
    requires Paragraph(p)
    ensures Paragraphs(p) == [p]
  {
    SplitNoSep(p, '\n');
    TrimStripped(p);
    assert [p][1..] == [];
    assert KeptParagraphs([p]) == [p] + KeptParagraphs([]);
  }

  /** The loop's state: the chunks already emitted and `buff`. */
  datatype Chunking = Chunking(chunks: seq<string>, buff: string)

  /** One iteration of the loop over the paragraphs. */
  function Absorb(st: Chunking, p: string, maxChars: int): Chunking
  {
    if |st.buff| + |p| <= maxChars then Chunking(st.chunks, Trim(st.buff + "\n" + p))
    else Chunking(if st.buff != "" then st.chunks + [st.buff] else st.chunks, p)
  }

  /** The state after the loop has run over `ps`. */
  function Fold(ps: seq<string>, maxChars: int): Chunking
  {
    if ps == [] then Chunking([], "") else Absorb(Fold(ps[..|ps| - 1], maxChars), ps[|ps| - 1], maxChars)
  }

  /** The chunks of `ps`, with the last buffer flushed when it is not empty. */
  function Chunks(ps: seq<string>, maxChars: int): seq<string>
  {
    var st := Fold(ps, maxChars);
    if st.buff != "" then st.chunks + [st.buff] else st.chunks
  }

  /** `chunk_text(text, max_chars)`. */
  function ChunkTextSpec(text: string, maxChars: int): seq<string>
  {
    Chunks(Paragraphs(text), maxChars)
  }

  /** The buffer as it is while the loop runs: empty only before the first paragraph,
      and stripped. */
  predicate BufferShape(ps: seq<string>, st: Chunking)
  {
    (st.buff == "" <==> ps == []) && (ps == [] ==> st.chunks == []) && Stripped(st.buff) &&
    forall i :: 0 <= i < |st.chunks| ==> st.chunks[i] != ""
  }

  /** A newline-joined pair of stripped, non-empty strings is stripped. */
  lemma StrippedJoin(a: string, b: string)
    requires Stripped(a) && Stripped(b) && a != "" && b != ""
    ensures Stripped(a + "\n" + b)
  {
    var s := a + "\n" + b;
    assert s[0] == a[0];
    assert s[|s| - 1] == b[|b| - 1];
  }

  /** One iteration on a stripped buffer: a paragraph that fits is appended to a
      non-empty buffer after a newline, or starts an empty one; otherwise a non-empty
      buffer is emitted and the paragraph starts the next. The buffer stays stripped
      and non-empty. */
  lemma AbsorbSpec(st: Chunking, p: string, maxChars: int)
    requires Stripped(st.buff) && Paragraph(p)
    ensures Absorb(st, p, maxChars) ==
      if |st.buff| + |p| <= maxChars then Chunking(st.chunks, if st.buff == "" then p else st.buff + "\n" + p)
      else Chunking(if st.buff != "" then st.chunks + [st.buff] else st.chunks, p)
    ensures Stripped(Absorb(st, p, maxChars).buff) && Absorb(st, p, maxChars).buff != ""
  {
    if |st.buff| + |p| <= maxChars {
      JoinedTrim(st.buff, p, '\n');
      if st.buff == "" {
        assert st.buff + "\n" + p == st.buff + ['\n'] + p;
      } else {
        StrippedJoin(st.buff, p);
      }
    }
  }

  lemma {:induction false} FoldShape(ps: seq<string>, maxChars: int)
    requires AllParagraphs(ps)
    ensures BufferShape(ps, Fold(ps, maxChars))
  {
    if ps != [] {
      var init, p := ps[..|ps| - 1], ps[|ps| - 1];
      FoldShape(init, maxChars);
      var st := Fold(init, maxChars);
      AbsorbSpec(st, p, maxChars);
    }
  }

  /** The buffer and the emitted chunks, joined by newlines, are the paragraphs read so
      far joined by newlines: nothing is lost, reordered or duplicated. */
  /** Appending to the last part of a join extends the join. */
  lemma JoinExtendLast(xs: seq<string>, a: string, p: string)
    ensures Join(xs + [a + "\n" + p], "\n") == Join(xs + [a], "\n") + "\n" + p
  {
    if xs == [] {
      assert Join([a + "\n" + p], "\n") == a + "\n" + p;
      assert Join([a], "\n") == a;
    } else {
      JoinAppend(xs, a + "\n" + p, "\n");
      JoinAppend(xs, a, "\n");
    }
  }

  lemma {:induction false} FoldJoin(ps: seq<string>, maxChars: int)
    requires AllParagraphs(ps) && ps != []
    ensures var st := Fold(ps, maxChars); Join(st.chunks + [st.buff], "\n") == Join(ps, "\n")
  {
    var init, p := ps[..|ps| - 1], ps[|ps| - 1];
    assert ps == init + [p];
    var st := Fold(init, maxChars);
    FoldShape(init, maxChars);
    AbsorbSpec(st, p, maxChars);
    var next := Fold(ps, maxChars);
    if init == [] {
      assert next.chunks + [next.buff] == [p];
    } else {
      FoldJoin(init, maxChars);
      JoinAppend(init, p, "\n");
      if |st.buff| + |p| <= maxChars {
        assert next == Chunking(st.chunks, st.buff + "\n" + p);
        JoinExtendLast(st.chunks, st.buff, p);
      } else {
        assert next.chunks + [next.buff] == (st.chunks + [st.buff]) + [p];
        JoinAppend(st.chunks + [st.buff], p, "\n");
      }
    }
  }

  /** A buffer, and so a chunk, is either one paragraph or at most max_chars + 1 long
      (the newline is counted after the length test). */
  predicate Fits(c: string, ps: seq<string>, maxChars: int)
  {
    c in ps || |c| <= maxChars + 1
  }

  predicate AllFit(cs: seq<string>, ps: seq<string>, maxChars: int)
  {
    forall i :: 0 <= i < |cs| ==> Fits(cs[i], ps, maxChars)
  }

  /** What fits among the first paragraphs fits among all of them. */
  lemma FitsWiden(cs: seq<string>, init: seq<string>, p: string, maxChars: int)
    requires AllFit(cs, init, maxChars)
    ensures AllFit(cs, init + [p], maxChars)
  {
    forall i | 0 <= i < |cs| ensures Fits(cs[i], init + [p], maxChars) {
      if cs[i] in init {
        var k :| 0 <= k < |init| && init[k] == cs[i];
        assert (init + [p])[k] == cs[i];
      }
    }
  }

  lemma {:induction false} FoldFits(ps: seq<string>, maxChars: int)
    requires AllParagraphs(ps)
    ensures var st := Fold(ps, maxChars);
      AllFit(st.chunks, ps, maxChars) && (ps != [] ==> Fits(st.buff, ps, maxChars))
  {
    if ps != [] {
      var init, p := ps[..|ps| - 1], ps[|ps| - 1];
      assert ps == init + [p];
      FoldFits(init, maxChars);
      FoldShape(init, maxChars);
      var st := Fold(init, maxChars);
      AbsorbSpec(st, p, maxChars);
      var cs := if init != [] then st.chunks + [st.buff] else st.chunks;
      assert AllFit(cs, init, maxChars) by {
        forall i | 0 <= i < |cs| ensures Fits(cs[i], init, maxChars) {
          if i < |st.chunks| { assert cs[i] == st.chunks[i]; }
        }
      }
      FitsWiden(cs, init, p, maxChars);
      var next := Fold(ps, maxChars);
      assert Fits(next.buff, ps, maxChars) by {
        if next.buff == p { assert ps[|ps| - 1] == p; }
      }
      forall i | 0 <= i < |next.chunks| ensures Fits(next.chunks[i], ps, maxChars) {
        assert next.chunks[i] == cs[i];
      }
    }
  }

  /** Greedy packing: a chunk was closed only because the first paragraph of the next
      did not fit beside it. */
  predicate Greedy(chunks: seq<string>, maxChars: int)
  {
    forall i :: 0 <= i < |chunks| - 1 ==> |chunks[i]| + |Before(chunks[i + 1], '\n')| > maxChars
  }

  /** A chunk closed for a paragraph that did not fit keeps the packing greedy. */
  lemma GreedyClose(cs: seq<string>, b: string, p: string, maxChars: int)
    requires Greedy(cs, maxChars) && cs != [] && |cs[|cs| - 1]| + |Before(p, '\n')| > maxChars
    ensures Greedy(cs + [p], maxChars)
  {
    var r := cs + [p];
    forall i | 0 <= i < |r| - 1 ensures |r[i]| + |Before(r[i + 1], '\n')| > maxChars {
      if i < |cs| - 1 {
        assert r[i] == cs[i] && r[i + 1] == cs[i + 1];
      }
    }
  }

  /** Appending after the first line of the last chunk keeps the packing greedy. */
  lemma GreedyGrow(cs: seq<string>, b: string, b': string, maxChars: int)
    requires Greedy(cs + [b], maxChars) && Before(b', '\n') == Before(b, '\n')
    ensures Greedy(cs + [b'], maxChars)
  {
    var r, r' := cs + [b], cs + [b'];
    forall i | 0 <= i < |r'| - 1 ensures |r'[i]| + |Before(r'[i + 1], '\n')| > maxChars {
      assert r'[i] == r[i] == cs[i];
      if i + 1 < |cs| {
        assert r'[i + 1] == r[i + 1];
      } else {
        assert r'[i + 1] == b' && r[i + 1] == b;
      }
      assert |r[i]| + |Before(r[i + 1], '\n')| > maxChars;
    }
  }

  lemma {:induction false} FoldGreedy(ps: seq<string>, maxChars: int)
    requires AllParagraphs(ps)
    ensures var st := Fold(ps, maxChars); Greedy(st.chunks + [st.buff], maxChars)
  {
    if ps != [] {
      var init, p := ps[..|ps| - 1], ps[|ps| - 1];
      FoldGreedy(init, maxChars);
      FoldShape(init, maxChars);
      var st := Fold(init, maxChars);
      AbsorbSpec(st, p, maxChars);
      var next := Fold(ps, maxChars);
      BeforeWhole(p, '\n');
      if |st.buff| + |p| <= maxChars {
        if st.buff != "" {
          BeforeJoin(st.buff, p, '\n');
          assert st.buff + "\n" + p == st.buff + ['\n'] + p;
          GreedyGrow(st.chunks, st.buff, next.buff, maxChars);
        } else {
          assert next.chunks + [next.buff] == [p];
        }
      } else if st.buff != "" {
        assert next.chunks + [next.buff] == (st.chunks + [st.buff]) + [p];
        GreedyClose(st.chunks + [st.buff], st.buff, p, maxChars);
      } else {
        assert next.chunks + [next.buff] == [p];
      }
    }
  }

  /** What chunk_text promises, as its code keeps it: no chunk is empty, the chunks
      joined by newlines are the paragraphs joined by newlines, each chunk fits in
      max_chars + 1 or is a single paragraph, and a chunk ends only where the next
      paragraph would not fit. */
  lemma ChunksSpec(ps: seq<string>, maxChars: int)
    requires AllParagraphs(ps)
    ensures var r := Chunks(ps, maxChars);
      (forall i :: 0 <= i < |r| ==> r[i] != "") && AllFit(r, ps, maxChars) &&
      Join(r, "\n") == Join(ps, "\n") &&
      Greedy(r, maxChars) &&
      (r == [] <==> ps == [])
  {
    FoldShape(ps, maxChars);
    FoldFits(ps, maxChars);
    FoldGreedy(ps, maxChars);
    if ps != [] {
      FoldJoin(ps, maxChars);
      var st := Fold(ps, maxChars);
      var r := st.chunks + [st.buff];
      forall i | 0 <= i < |r| ensures Fits(r[i], ps, maxChars) {
        if i < |st.chunks| { assert r[i] == st.chunks[i]; }
      }
    }
  }

  lemma ChunkTextSpecProps(text: string, maxChars: int)
    ensures var r := ChunkTextSpec(text, maxChars); var ps := Paragraphs(text);
      (forall i :: 0 <= i < |r| ==> r[i] != "") && AllFit(r, ps, maxChars) &&
      Join(r, "\n") == Join(ps, "\n") &&
      Greedy(r, maxChars) &&
      (r == [] <==> ps == [])
  {
    ParagraphsShape(text);
    ChunksSpec(Paragraphs(text), maxChars);
  }

  /** A blank page yields no chunks. */
  lemma BlankTextNoChunks(text: string, maxChars: int)
    requires AllSpace(text)
    ensures ChunkTextSpec(text, maxChars) == []
  {
    BlankTextHasNoParagraphs(text);
  }

  /** The docstring's "maximum size" is not guaranteed: a paragraph longer than
      max_chars becomes one chunk of its own, whole. */
  lemma LongParagraphKept(p: string, maxChars: int)
    requires Paragraph(p) && |p| > maxChars
    ensures ChunkTextSpec(p, maxChars) == [p]
  {
    OneParagraph(p);
    assert [p][..0] == [];
    AbsorbSpec(Chunking([], ""), p, maxChars);
    assert Fold([p], maxChars) == Absorb(Chunking([], ""), p, maxChars) == Chunking([], p);
  }

  /** The loop of chunk_text over the paragraphs, and the final flush. */
  method ChunkParagraphs(paragraphs: seq<string>, maxChars: int) returns (chunks: seq<string>)
    ensures chunks == Chunks(paragraphs, maxChars)
  {
    chunks := [];
    var buff := "";
    for i := 0 to |paragraphs|
      invariant Chunking(chunks, buff) == Fold(paragraphs[..i], maxChars)
    {
      var p := paragraphs[i];
      assert paragraphs[..i + 1][..i] == paragraphs[..i];
      if |buff| + |p| <= maxChars {
        buff := Trim(buff + "\n" + p);
      } else {
        if buff != "" {
          chunks := chunks + [buff];
        }
        buff := p;
      }
    }
    assert paragraphs[..|paragraphs|] == paragraphs;
    if buff != "" {
      chunks := chunks + [buff];
    }
  }

  /** chunk_text: the non-blank stripped lines, packed by the loop. */
  method ChunkText(text: string, maxChars: int) returns (chunks: seq<string>)
    ensures chunks == ChunkTextSpec(text, maxChars)
  {
    var paragraphs := Paragraphs(text);
    chunks := ChunkParagraphs(paragraphs, maxChars);
  }

  /** The hex digest of SHA-256: 64 hex digits. */
  type HexDigest = s: string | |s| == 64 && AllHex(s) witness seq(64, _ => '0')

  /** `stable_point_id`: the first 16 hex digits of the SHA-256 of "source:content",
      read as a number. */
  function StablePointId(source: string, content: string, sha256: string -> HexDigest): (id: nat)
    ensures id < 0x1_0000_0000_0000_0000
  {
    var h := sha256(source + ":" + content);
    HexValueBound(h[..16]);
    Pow16Sixteen();
    HexValue(h[..16])
  }

  /** 16^(a+b) = 16^a * 16^b. */
  lemma {:induction false} Pow16Add(a: nat, b: nat)
    ensures Pow16(a + b) == Pow16(a) * Pow16(b)
  {
    if b > 0 {
      Pow16Add(a, b - 1);
      assert Pow16(a + b) == 16 * Pow16(a + b - 1);
      assert Pow16(a) * Pow16(b) == Pow16(a) * (16 * Pow16(b - 1));
    }
  }

  /** Sixteen hex digits make 64 bits. */
  lemma Pow16Sixteen()
    ensures Pow16(16) == 0x1_0000_0000_0000_0000
  {
    assert Pow16(4) == 0x1_0000;
    Pow16Add(4, 4);
    Pow16Add(8, 8);
  }

  /** `stable_point_id`: the id is the value of the first 16 hex digits of the
      SHA-256 of "source:content" (`sha256` stands for
      `hashlib.sha256(...).hexdigest()` on the UTF-8 text), so it fits in the 64 bits
      the vector store accepts, and its leading digit is the digest's. */
  lemma StablePointIdDigits(source: string, content: string, sha256: string -> HexDigest)
    ensures var h := sha256(source + ":" + content);
      StablePointId(source, content, sha256) ==
        HexDigitValue(h[0]) * Pow16(15) + HexValue(h[1..16]) &&
      HexValue(h[1..16]) < Pow16(15)
  {
    var h := sha256(source + ":" + content);
    HexSplit(h[..16]);
    HexValueBound(h[1..16]);
    assert h[..16][0] == h[0] && h[..16][1..] == h[1..16];
  }

  /** (a * p + r) * 16 + l == a * (16 * p) + (r * 16 + l). */
  lemma ShiftDigit(a: nat, p: nat, r: nat, l: nat)
    ensures (a * p + r) * 16 + l == a * (16 * p) + (r * 16 + l)
  {
  }

  /** The value of digits is the leading digit times 16^(k-1) plus the rest. */
  lemma {:induction false} HexSplit(s: string)
    requires AllHex(s) && s != []
    ensures HexValue(s) == HexDigitValue(s[0]) * Pow16(|s| - 1) + HexValue(s[1..])
  {
    if |s| > 1 {
      var init := s[..|s| - 1];
      HexSplit(init);
      assert init[0] == s[0];
      assert init[1..] == s[1..][..|s[1..]| - 1];
      assert s[1..][|s[1..]| - 1] == s[|s| - 1];
      assert HexValue(s[1..]) == HexValue(init[1..]) * 16 + HexDigitValue(s[|s| - 1]);
      ShiftDigit(HexDigitValue(s[0]), Pow16(|s| - 2), HexValue(init[1..]), HexDigitValue(s[|s| - 1]));
    } else {
      assert s[1..] == [];
    }
  }
}
