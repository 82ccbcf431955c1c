/** The orchestration of `answer_question` (app/rag.py): retrieve hits,
    assemble the user prompt, ask the generator, normalise its answer and
    shape the result. The index's query result and the generator are
    inputs; everything else is computed here. */
module Pipeline {

  import opened Wrappers
  import opened Strings
  import opened Retrieval
  import opened Prompt
  import opened Refusal

  /** One entry of the result's `context` list. */
  datatype ContextEntry = ContextEntry(talkId: Option<Value>, title: Option<Value>, chunk: Option<Value>, score: real)

  /** The result's `Augmented_prompt` record. */
  datatype AugmentedPrompt = AugmentedPrompt(system: string, user: string)

  /** The dictionary `answer_question` returns. */
  datatype AnswerResult = AnswerResult(response: string, context: seq<ContextEntry>, augmentedPrompt: AugmentedPrompt)

  /** The context entry for one hit: its talk id and title, its text as
      `chunk`, and its score. */
  function Entry(h: Hit): ContextEntry
  {
    ContextEntry(h.talkId, h.title, h.text, h.score)
  }

  /** The context list: one entry per hit, in the hits' order. */
  function ContextOf(hits: seq<Hit>): (context: seq<ContextEntry>)
    ensures |context| == |hits|
    ensures forall i :: 0 <= i < |hits| ==> context[i] == Entry(hits[i])
    decreases |hits|
  {
    if hits == [] then [] else ContextOf(hits[..|hits| - 1]) + [Entry(hits[|hits| - 1])]
  }

  /** Python's `str()` on values, given the float formatting. */
  function Show(showReal: real -> string): Value -> string
  {
    v => PythonStr(v, showReal)
  }

  /** What `answer_question` returns, as a composition of the parts. */
  function Answer(question: string, system: string, res: QueryResult,
                  generate: (string, string) -> string, showReal: real -> string): AnswerResult
  {
    var hits := ProjectHits(MatchesOf(res));
    var user := UserPrompt(question, hits, Show(showReal));
    AnswerResult(Normalize(generate(system, user)), ContextOf(hits), AugmentedPrompt(system, user))
  }

  /** The two refusal rules of `answer_question` applied in turn, each
      reassigning the answer. */
  method NormalizeAnswer(raw: string) returns (answer: string)
    ensures answer == Normalize(raw)
  {
    answer := raw;
    if Contains(answer, IDK) {
      answer := IDK;
    }
    if Contains(answer, Hedge) && Contains(answer, Disclaimer) {
      answer := IDK;
    }
  }

  /** The loop of `answer_question` that appends one context entry per hit. */
  method ShapeContext(hits: seq<Hit>) returns (context: seq<ContextEntry>)
    ensures context == ContextOf(hits)
  {
    context := [];
    for i := 0 to |hits|
      invariant context == ContextOf(hits[..i])
    {
      assert hits[..i + 1][..i] == hits[..i];
      context := context + [Entry(hits[i])];
    }
    assert hits[..|hits|] == hits;
  }

  /** `answer_question`: retrieve, assemble, generate, normalise, shape. */
  method AnswerQuestion(question: string, system: string, res: QueryResult,
                        generate: (string, string) -> string, showReal: real -> string)
    returns (result: AnswerResult)
    ensures result == Answer(question, system, res, generate, showReal)
  {
    var hits := RetrieveContext(res);
    var user := BuildAugmentedPrompt(question, hits, Show(showReal));
    var answer := NormalizeAnswer(generate(system, user));
    var context := ShapeContext(hits);
    result := AnswerResult(answer, context, AugmentedPrompt(system, user));
  }

  /** The result's context list follows the index's matches one for one:
      each entry copies the match's `talk_id` and `title`, takes its `text`
      as `chunk`, and carries its score (0.0 when absent). */
  lemma AnswerContext(question: string, system: string, res: QueryResult,
                      generate: (string, string) -> string, showReal: real -> string)
    ensures var r, ms := Answer(question, system, res, generate, showReal), MatchesOf(res);
      && |r.context| == |ms|
      && forall i :: 0 <= i < |ms| ==>
           && r.context[i].talkId == Get(MetadataOf(ms[i]), "talk_id")
           && r.context[i].title == Get(MetadataOf(ms[i]), "title")
           && r.context[i].chunk == Get(MetadataOf(ms[i]), "text")
           && r.context[i].score == (if ms[i].score.Some? then ms[i].score.value else 0.0)
  {
    var ms := MatchesOf(res);
    var hits := ProjectHits(ms);
    var r := Answer(question, system, res, generate, showReal);
    assert r.context == ContextOf(hits);
    forall i | 0 <= i < |ms|
      ensures r.context[i] == Entry(ToHit(ms[i]))
    {
    }
  }

  /** The augmented prompt carries the system prompt verbatim and the user
      prompt that was sent to the generator; the response is the
      generator's answer, or the canonical refusal when a rule fires. */
  lemma AnswerPromptAndResponse(question: string, system: string, res: QueryResult,
                                generate: (string, string) -> string, showReal: real -> string)
    ensures var r := Answer(question, system, res, generate, showReal);
      var user := UserPrompt(question, ProjectHits(MatchesOf(res)), Show(showReal));
      var raw := generate(system, user);
      && r.augmentedPrompt == AugmentedPrompt(system, user)
      && (r.response == IDK || r.response == raw)
      && (r.response == IDK <==> QuotesRefusal(raw) || ParaphrasesRefusal(raw) || raw == IDK)
      && Normalize(r.response) == r.response
  {
    var user := UserPrompt(question, ProjectHits(MatchesOf(res)), Show(showReal));
    NormalizeIdempotent(generate(system, user));
  }

  /** With no matches (or no `matches` key) the pipeline still completes:
      the context list is empty and the user prompt has no blocks and the
      label `top 0 chunks`. */
  lemma AnswerWithoutMatches(question: string, system: string, res: QueryResult,
                             generate: (string, string) -> string, showReal: real -> string)
    requires MatchesOf(res) == []
    ensures var r := Answer(question, system, res, generate, showReal);
      && r.context == []
      && r.augmentedPrompt.user == Header(question, 0) + Trailer
      && Label(0) == "TED CONTEXT (top 0 chunks):\n"
      && r.response == Normalize(generate(system, Header(question, 0) + Trailer))
  {
    PromptWithoutHits(question, Show(showReal));
  }

  /** The context list and the kept answer of the one-chunk scenario below. */
  lemma CreativityParts()
    ensures var meta := map["talk_id" := Str("T1"), "title" := Str("On Creativity"),
                            "speaker" := Str("Jane Doe"), "chunk_index" := Int(0), "text" := Str("...")];
      var ms := [Match(Some(0.91), Some("T1-0"), Some(meta))];
      && ContextOf(ProjectHits(ms)) == [ContextEntry(Some(Str("T1")), Some(Str("On Creativity")), Some(Str("...")), 0.91)]
      && Normalize("Title: On Creativity\nSpeaker: Jane Doe\n...") == "Title: On Creativity\nSpeaker: Jane Doe\n..."
  {
    NoCapitalINoRefusal("Title: On Creativity\nSpeaker: Jane Doe\n...");
  }

  /** One retrieved chunk and a generator naming title and speaker: the
      result's context list describes that chunk, the response is the
      generator's answer unchanged, and the system prompt is passed on. */
  lemma CreativityScenario(question: string, system: string,
                           generate: (string, string) -> string, showReal: real -> string)
    requires forall s, u :: generate(s, u) == "Title: On Creativity\nSpeaker: Jane Doe\n..."
    ensures var meta := map["talk_id" := Str("T1"), "title" := Str("On Creativity"),
                            "speaker" := Str("Jane Doe"), "chunk_index" := Int(0), "text" := Str("...")];
      var ms := [Match(Some(0.91), Some("T1-0"), Some(meta))];
      var r := Answer(question, system, QueryResult(Some(ms)), generate, showReal);
      && r.context == [ContextEntry(Some(Str("T1")), Some(Str("On Creativity")), Some(Str("...")), 0.91)]
      && r.response == "Title: On Creativity\nSpeaker: Jane Doe\n..."
      && r.augmentedPrompt.system == system
  {
    CreativityParts();
  }
}
