/** `retrieve_kavak_knowledge`: knowledge passages for a question, from the vector
    store when it answers with usable passages, else from the newest rows of
    `knowledge_chunks`. The vector store, the embedding of the question and the
    database are not modelled: what each call of the vector client does (return,
    raise, or not exist) is a VectorTier value, and the table is a parameter. */
module Rag {

  import opened Common
  import opened Sorting
  import opened Models
  import opened Json

  /** A point of the vector store: its payload (None when it has none) and its score
      (None when the attribute is missing or None). */
  datatype Point = Point(payload: Option<map<string, Json>>, score: Option<real>)

  /** A method of the vector client: the client lacks it, it raises, or it returns. */
  datatype Call<T> = Missing | Raises | Returns(value: T)

  /** What the vector tier does for one question. `connects` is false when getting the
      client or embedding the question raises. `queryPoints` returns the `points` of
      its response (None when that attribute is missing or None); `search` returns
      its hits, where None is a value that cannot be iterated. */
  datatype VectorTier = VectorTier(
    connects: bool,
    queryPoints: Call<Option<seq<Point>>>,
    search: Call<Option<seq<Point>>>)

  /** One returned passage: `{"source", "title", "content", "score"}`. */
  datatype Hit = Hit(source: Json, title: Json, content: Json, score: real)

  function OrNull(o: Option<Json>): Json
  {
    if o.Some? then o.value else Null
  }

  /** `p.payload or {}`. */
  function PayloadOf(p: Point): map<string, Json>
  {
    if p.payload.Some? then p.payload.value else map[]
  }

  /** The passage is usable: its payload holds a truthy `content`. */
  predicate HasContent(p: Point)
  {
    var content := Get(PayloadOf(p), "content");
    content.Some? && JsonTruthy(content.value)
  }

  /** The passage a usable point gives; `float(score or 0.0)`. */
  function ToHit(p: Point): Hit
    requires HasContent(p)
  {
    var payload := PayloadOf(p);
    Hit(OrNull(Get(payload, "source")), OrNull(Get(payload, "title")), payload["content"],
        if p.score.Some? then p.score.value else 0.0)
  }

  function ToHits(ps: seq<Point>): seq<Hit>
    requires forall i :: 0 <= i < |ps| ==> HasContent(ps[i])
  {
    seq(|ps|, i requires 0 <= i < |ps| => ToHit(ps[i]))
  }

  /** The passages of the usable points, in the order the store returned them. */
  function Usable(points: seq<Point>): seq<Hit>
  {
    var kept := Filter(points, HasContent);
    assert forall i :: 0 <= i < |kept| ==> kept[i] in kept;
    ToHits(kept)
  }

  /** Only usable points give passages, and every usable point gives one. */
  lemma UsableSpec(points: seq<Point>)
    ensures |Usable(points)| <= |points|
    ensures forall h :: h in Usable(points) ==> JsonTruthy(h.content)
    ensures forall h :: h in Usable(points) ==> exists p :: p in points && HasContent(p) && h == ToHit(p)
    ensures forall i :: 0 <= i < |points| && HasContent(points[i]) ==> ToHit(points[i]) in Usable(points)
  {
    var kept := Filter(points, HasContent);
    var r := Usable(points);
    forall h | h in r ensures JsonTruthy(h.content) && exists p :: p in points && HasContent(p) && h == ToHit(p) {
      var i :| 0 <= i < |r| && r[i] == h;
      assert kept[i] in kept;
    }
    forall i | 0 <= i < |points| && HasContent(points[i]) ensures ToHit(points[i]) in r {
      var k :| 0 <= k < |kept| && kept[k] == points[i];
      assert r[k] == ToHit(points[i]);
    }
  }

  /** The loop over the hits of either vector call: skip a hit without content and
      collect the others. */
  method UsableHits(points: seq<Point>) returns (results: seq<Hit>)
    ensures results == Usable(points)
  {
    results := [];
    for i := 0 to |points|
      invariant results == Usable(points[..i])
    {
      assert points[..i + 1] == points[..i] + [points[i]];
      FilterAppend(points[..i], [points[i]], HasContent);
      if !HasContent(points[i]) {
        continue;
      }
      results := results + [ToHit(points[i])];
    }
    assert points[..|points|] == points;
  }

  /** How one vector call ends: it raised, it gave no usable passage, or it gave some. */
  datatype Attempt = Raised | NoHits | Found(hits: seq<Hit>)

  function Outcome(hits: seq<Point>): Attempt
  {
    if Usable(hits) == [] then NoHits else Found(Usable(hits))
  }

  /** `query_points`: a missing or None `points` counts as no hits. */
  function QueryPointsAttempt(c: Call<Option<seq<Point>>>): Attempt
  {
    match c
    case Missing => NoHits
    case Raises => Raised
    case Returns(points) => Outcome(if points.Some? then points.value else [])
  }

  /** `search`: iterating a None result raises. */
  function SearchAttempt(c: Call<Option<seq<Point>>>): Attempt
  {
    match c
    case Missing => NoHits
    case Raises => Raised
    case Returns(hits) => if hits.Some? then Outcome(hits.value) else Raised
  }

  /** The vector tier's answer, or None when control reaches the database fallback. */
  function VectorResult(tier: VectorTier, topK: int): Option<seq<Hit>>
  {
    if !tier.connects then None
    else match QueryPointsAttempt(tier.queryPoints)
      case Raised => None
      case Found(r) => Some(SlicePrefix(r, topK))
      case NoHits =>
        match SearchAttempt(tier.search)
        case Found(r) => Some(SlicePrefix(r, topK))
        case _ => None
  }

  function NegId(r: KnowledgeChunk): real
  {
    -(r.id as real)
  }

  /** The rows of `ORDER BY id DESC LIMIT top_k`. PostgreSQL rejects a negative LIMIT. */
  function FallbackRows(rows: seq<KnowledgeChunk>, topK: nat): seq<KnowledgeChunk>
  {
    SlicePrefix(SortBy(rows, NegId), topK)
  }

  function RowHit(r: KnowledgeChunk): Hit
  {
    Hit(Str(r.source), if r.title.Some? then Str(r.title.value) else Null, Str(r.content), 0.0)
  }

  /** The database fallback; an error of the query itself reaches the caller. */
  function Fallback(db: Result<seq<KnowledgeChunk>, string>, topK: int): Result<seq<Hit>, string>
  {
    match db
    case Err(e) => Err(e)
    case Ok(rows) =>
      if topK < 0 then Err("LIMIT must not be negative")
      else
        var chosen := FallbackRows(rows, topK);
        Ok(seq(|chosen|, i requires 0 <= i < |chosen| => RowHit(chosen[i])))
  }

  /** retrieve_kavak_knowledge as a function of what the vector tier and the
      database do. */
  function Retrieve(tier: VectorTier, db: Result<seq<KnowledgeChunk>, string>, topK: int): Result<seq<Hit>, string>
  {
    match VectorResult(tier, topK)
    case Some(hits) => Ok(hits)
    case None => Fallback(db, topK)
  }

  /** retrieve_kavak_knowledge: query_points, then search, then the database; any
      exception of the vector tier sends control to the database. */
  method RetrieveKavakKnowledge(tier: VectorTier, db: Result<seq<KnowledgeChunk>, string>, topK: int)
    returns (res: Result<seq<Hit>, string>)
    ensures res == Retrieve(tier, db, topK)
  {
    var raised := !tier.connects;
    if !raised && !tier.queryPoints.Missing? {
      if tier.queryPoints.Raises? {
        raised := true;
      } else {
        var points := tier.queryPoints.value;
        var hits := if points.Some? then points.value else [];
        var results := UsableHits(hits);
        if results != [] {
          return Ok(SlicePrefix(results, topK));
        }
      }
    }
    if !raised && !tier.search.Missing? {
      if tier.search.Raises? || tier.search.value.None? {
        raised := true;
      } else {
        var results := UsableHits(tier.search.value.value);
        if results != [] {
          return Ok(SlicePrefix(results, topK));
        }
      }
    }
    res := Fallback(db, topK);
  }

  /** A passage from the vector tier always has truthy content; there are at most
      top_k of them, and some whenever top_k >= 1. */
  lemma VectorResultSpec(tier: VectorTier, topK: int)
    requires VectorResult(tier, topK).Some?
    ensures forall h :: h in VectorResult(tier, topK).value ==> JsonTruthy(h.content)
    ensures topK >= 0 ==> |VectorResult(tier, topK).value| <= topK
    ensures topK >= 1 ==> VectorResult(tier, topK).value != []
  {
    if QueryPointsAttempt(tier.queryPoints).Found? {
      var points := tier.queryPoints.value;
      UsableSpec(if points.Some? then points.value else []);
    } else {
      UsableSpec(tier.search.value.value);
    }
  }

  /** query_points comes first: when it gives usable passages, search is not used. */
  lemma QueryPointsFirst(tier: VectorTier, points: seq<Point>, topK: int)
    requires tier.connects && tier.queryPoints == Returns(Some(points)) && Usable(points) != []
    ensures Retrieve(tier, Ok([]), topK) == Ok(SlicePrefix(Usable(points), topK))
    ensures forall db :: Retrieve(tier, db, topK) == Retrieve(tier, Ok([]), topK)
  {
  }

  /** search is tried when query_points is missing or gives no usable passage. */
  lemma SearchSecond(tier: VectorTier, hits: seq<Point>, topK: int)
    requires tier.connects && QueryPointsAttempt(tier.queryPoints) == NoHits
    requires tier.search == Returns(Some(hits)) && Usable(hits) != []
    ensures VectorResult(tier, topK) == Some(SlicePrefix(Usable(hits), topK))
  {
  }

  /** The cases in which control reaches the database: a failure to connect, an
      exception of either vector call, or no usable passage from either. */
  lemma WhenFallback(tier: VectorTier, db: Result<seq<KnowledgeChunk>, string>, topK: int)
    ensures VectorResult(tier, topK).None? <==>
      !tier.connects ||
      QueryPointsAttempt(tier.queryPoints).Raised? ||
      (QueryPointsAttempt(tier.queryPoints).NoHits? && !SearchAttempt(tier.search).Found?)
    ensures VectorResult(tier, topK).None? ==> Retrieve(tier, db, topK) == Fallback(db, topK)
  {
  }

  /** The fallback: the top_k newest rows (the largest ids), newest first, each with
      score 0.0; no row left out is newer than a row returned. */
  lemma FallbackSpec(rows: seq<KnowledgeChunk>, topK: nat)
    ensures var chosen := FallbackRows(rows, topK);
      Fallback(Ok(rows), topK).Ok? &&
      |Fallback(Ok(rows), topK).value| == |chosen| == Min(topK, |rows|) &&
      (forall i :: 0 <= i < |chosen| ==> Fallback(Ok(rows), topK).value[i] == RowHit(chosen[i]) && chosen[i] in rows) &&
      (forall i :: 0 <= i < |chosen| ==> Fallback(Ok(rows), topK).value[i].score == 0.0) &&
      (forall i, j :: 0 <= i < j < |chosen| ==> chosen[i].id >= chosen[j].id) &&
      multiset(chosen) <= multiset(rows)
    ensures forall r :: r in rows && r !in FallbackRows(rows, topK) ==>
      forall i :: 0 <= i < |FallbackRows(rows, topK)| ==> FallbackRows(rows, topK)[i].id >= r.id
  {
    FallbackRowsSpec(rows, topK);
    FallbackRowsNewest(rows, topK);
  }

  /** The rows the fallback picks: min(top_k, row count) stored rows, newest first. */
  lemma FallbackRowsSpec(rows: seq<KnowledgeChunk>, topK: nat)
    ensures var chosen := FallbackRows(rows, topK);
      |chosen| == Min(topK, |rows|) &&
      (forall i :: 0 <= i < |chosen| ==> chosen[i] in rows) &&
      (forall i, j :: 0 <= i < j < |chosen| ==> chosen[i].id >= chosen[j].id) &&
      multiset(chosen) <= multiset(rows)
  {
    SlicePrefixSubMultiset(SortBy(rows, NegId), topK);
    var sorted := SortBy(rows, NegId);
    var chosen := FallbackRows(rows, topK);
    forall i | 0 <= i < |chosen| ensures chosen[i] in rows {
      assert chosen[i] == sorted[i];
      assert sorted[i] in multiset(sorted);
    }
    forall i, j | 0 <= i < j < |chosen| ensures chosen[i].id >= chosen[j].id {
      assert chosen[i] == sorted[i] && chosen[j] == sorted[j];
      assert NegId(sorted[i]) <= NegId(sorted[j]);
    }
  }

  /** No row the fallback leaves out is newer than a row it picks. */
  lemma FallbackRowsNewest(rows: seq<KnowledgeChunk>, topK: nat)
    ensures forall r :: r in rows && r !in FallbackRows(rows, topK) ==>
      forall i :: 0 <= i < |FallbackRows(rows, topK)| ==> FallbackRows(rows, topK)[i].id >= r.id
  {
    var sorted := SortBy(rows, NegId);
    var chosen := FallbackRows(rows, topK);
    forall r | r in rows && r !in chosen
      ensures forall i :: 0 <= i < |chosen| ==> chosen[i].id >= r.id
    {
      assert r in multiset(sorted);
      var k :| 0 <= k < |sorted| && sorted[k] == r;
      forall j | 0 <= j < |chosen| ensures sorted[j] != r {
        assert chosen[j] == sorted[j];
      }
      assert k >= |chosen| && sorted[k] in sorted[|chosen|..];
      PrefixIsSmallest(sorted, NegId, |chosen|, r);
      forall i | 0 <= i < |chosen| ensures chosen[i].id >= r.id {
        assert chosen[i] == sorted[i];
        assert NegId(sorted[i]) <= NegId(r);
      }
    }
  }

  /** With no chunks stored the fallback is empty; a failing query is passed on. */
  lemma FallbackEdges(topK: nat, e: string)
    ensures Fallback(Ok([]), topK) == Ok([])
    ensures Fallback(Err(e), topK) == Err(e)
  {
    var none: seq<KnowledgeChunk> := [];
    assert FallbackRows(none, topK) == [];
    assert |Fallback(Ok(none), topK).value| == 0;
  }

  /** For top_k >= 0 no path returns more than top_k passages. */
  lemma RetrieveBound(tier: VectorTier, db: Result<seq<KnowledgeChunk>, string>, topK: int)
    requires topK >= 0
    ensures Retrieve(tier, db, topK).Ok? ==> |Retrieve(tier, db, topK).value| <= topK
  {
    if VectorResult(tier, topK).Some? {
      VectorResultSpec(tier, topK);
    } else if db.Ok? {
      FallbackSpec(db.value, topK);
    }
  }
}
