/** The match-to-hit projection of `retrieve_context` (app/rag.py): the
    vector index's raw matches become hit records, one per match, in the
    index's order, with missing metadata and a missing score defaulted. */
module Retrieval {

  import opened Wrappers

  /** A metadata value as the index stores it and Python renders it. */
  datatype Value = Str(s: string) | Int(i: int) | Num(x: real) | Flag(b: bool)

  type Metadata = map<string, Value>

  /** One entry of the index's `matches`: each key of the match dictionary
      may be absent (`None`), and `metadata` may also be present as `None`,
      which the model folds into `None` as well. */
  datatype Match = Match(score: Option<real>, id: Option<string>, metadata: Option<Metadata>)

  /** The index's query result: its `matches` key may be absent. */
  datatype QueryResult = QueryResult(matches: Option<seq<Match>>)

  /** A hit record: the dictionary built for each match. */
  datatype Hit = Hit(
    score: real,
    id: Option<string>,
    talkId: Option<Value>,
    title: Option<Value>,
    speaker: Option<Value>,
    chunkIndex: Option<Value>,
    text: Option<Value>)

  /** Python's `d.get(key)`: the stored value, or `None` for a missing key. */
  function Get(d: Metadata, key: string): (r: Option<Value>)
    ensures r.Some? <==> key in d
    ensures r.Some? ==> r.value == d[key]
  {
    if key in d then Some(d[key]) else None
  }

  /** `res.get("matches", [])`. */
  function MatchesOf(res: QueryResult): (ms: seq<Match>)
    ensures res.matches.None? ==> ms == []
    ensures res.matches.Some? ==> ms == res.matches.value
  {
    match res.matches
    case Some(ms) => ms
    case None => []
  }

  /** `m.get("metadata", {}) or {}`: absent, `None` and empty all give `{}`. */
  function MetadataOf(m: Match): (d: Metadata)
    ensures m.metadata.None? ==> d == map[]
    ensures m.metadata.Some? ==> d == m.metadata.value
  {
    match m.metadata
    case Some(d) => d
    case None => map[]
  }

  /** The hit built for one match. */
  function ToHit(m: Match): (h: Hit)
    ensures m.score.None? ==> h.score == 0.0
    ensures m.score.Some? ==> h.score == m.score.value
    ensures h.id == m.id
    ensures MetadataOf(m) == map[] ==>
              h.talkId == h.title == h.speaker == h.chunkIndex == h.text == None
    ensures h.talkId.Some? <==> "talk_id" in MetadataOf(m)
    ensures h.title.Some? <==> "title" in MetadataOf(m)
    ensures h.speaker.Some? <==> "speaker" in MetadataOf(m)
    ensures h.chunkIndex.Some? <==> "chunk_index" in MetadataOf(m)
    ensures h.text.Some? <==> "text" in MetadataOf(m)
    ensures h.talkId.Some? ==> h.talkId.value == MetadataOf(m)["talk_id"]
    ensures h.title.Some? ==> h.title.value == MetadataOf(m)["title"]
    ensures h.speaker.Some? ==> h.speaker.value == MetadataOf(m)["speaker"]
    ensures h.chunkIndex.Some? ==> h.chunkIndex.value == MetadataOf(m)["chunk_index"]
    ensures h.text.Some? ==> h.text.value == MetadataOf(m)["text"]
  {
    var meta := MetadataOf(m);
    Hit(
      score := if m.score.Some? then m.score.value else 0.0,
      id := m.id,
      talkId := Get(meta, "talk_id"),
      title := Get(meta, "title"),
      speaker := Get(meta, "speaker"),
      chunkIndex := Get(meta, "chunk_index"),
      text := Get(meta, "text"))
  }

  /** The hit list: one hit per match, the i-th hit built from the i-th
      match, so nothing is reordered, dropped or merged. */
  function ProjectHits(matches: seq<Match>): (hits: seq<Hit>)
    ensures |hits| == |matches|
    ensures forall i :: 0 <= i < |matches| ==> hits[i] == ToHit(matches[i])
    decreases |matches|
  {
    if matches == [] then []
    else ProjectHits(matches[..|matches| - 1]) + [ToHit(matches[|matches| - 1])]
  }

  /** Projecting a concatenation projects each half: the hit list streams
      through the matches in order. */
  lemma {:induction false} ProjectHitsAppend(a: seq<Match>, b: seq<Match>)
    ensures ProjectHits(a + b) == ProjectHits(a) + ProjectHits(b)
  {
    var l, r := ProjectHits(a + b), ProjectHits(a) + ProjectHits(b);
    forall i | 0 <= i < |a + b|
      ensures l[i] == r[i]
    {
      if i < |a| {
        assert (a + b)[i] == a[i];
      } else {
        assert (a + b)[i] == b[i - |a|];
      }
    }
  }

  /** Equal matches give equal hits, wherever they stand: repeated index
      entries are kept, not deduplicated. */
  lemma KeepsDuplicates(matches: seq<Match>, i: nat, j: nat)
    requires i < j < |matches| && matches[i] == matches[j]
    ensures |ProjectHits(matches)| == |matches|
    ensures ProjectHits(matches)[i] == ProjectHits(matches)[j]
  {
  }

  /** The loop of `retrieve_context` that appends one hit per match. */
  method RetrieveContext(res: QueryResult) returns (hits: seq<Hit>)
    ensures hits == ProjectHits(MatchesOf(res))
    ensures res.matches.None? ==> hits == []
  {
    var matches := MatchesOf(res);
    hits := [];
    for i := 0 to |matches|
      invariant |hits| == i
      invariant forall k :: 0 <= k < i ==> hits[k] == ToHit(matches[k])
    {
      hits := hits + [ToHit(matches[i])];
    }
  }
}
