# TED talks question answering: the deterministic core

This project models the deterministic core of the TED-talks
retrieval-augmented question answering service, in `app/rag.py`:

- **Retrieval** (`retrieval.dfy`): `retrieve_context` turns the vector
  index's raw `matches` into hit records. There is one hit per match, in the
  index's order. A missing score becomes `0.0`. Missing or empty metadata
  leaves every metadata field absent. No match is reordered, dropped or
  merged.
- **Prompt** (`prompt.dfy`): `build_augmented_prompt` renders one numbered
  block `[i] talk_id=… title=… speaker=… chunk=… score=…` plus the chunk
  text for each hit. It joins the blocks with a blank line and wraps them
  with the question, the label `TED CONTEXT (top N chunks):` and the fixed
  two-line instruction. The loop is a method proved equal to the function
  `UserPrompt`. Lemmas state the layout of that string: the question comes
  first, then the label, then the context, then the instruction; block
  `i+1` sits at its offset and begins with its tag; one blank line separates
  consecutive blocks; the label gives the number of hits back. Every hit
  has a `text` field, so `h.get('text', '')` always finds the key, and an
  absent text renders as `None` like every other absent field.
- **Refusal** (`refusal.dfy`): the canonical sentence `IDK` and the two
  substring rules of `answer_question`. The first rule is subsumed by the
  second. Normalisation keeps the answer or gives `IDK`, and is idempotent.
  The looser rule also collapses an affirmative answer that happens to
  contain both fragments.
- **Pipeline** (`pipeline.dfy`): `answer_question` as a method that calls
  the retrieval loop, the prompt builder, the generator, the two refusal
  rules and the context loop. It is proved equal to the function `Answer`.
  Lemmas about `Answer` state that the result's `context` list follows the
  matches one for one, that `Augmented_prompt` carries the system prompt and
  the user prompt sent to the generator, and what the result is when the
  index returns no matches.
- **Strings** (`strings.dfy`): Python's `in` on strings (`Contains`),
  `str.join` (`Join`, with the offset of every part and separator), and
  `str()` on integers (`NatToString`, `IntToString`, with round trips).
- **Wrappers** (`wrappers.dfy`): `Option`, which stands for a missing key or
  a Python `None`.

The embedding service, the vector index and the chat model are inputs:

- the index's query result is the parameter `res`;
- the chat model is the function parameter `generate`;
- Python's float formatting is the function parameter `showReal`.

## Model

| member | source | states |
|---|---|---|
| Retrieval.Get | app/rag.py:55-59 | `d.get(key)`: present exactly when the key is in the dictionary, and then the stored value. |
| Retrieval.MatchesOf | app/rag.py:49 | `res.get("matches", [])`: the matches when the key is there, the empty list otherwise. |
| Retrieval.MetadataOf | app/rag.py:50 | `m.get("metadata", {}) or {}`: the metadata dictionary when present, the empty dictionary otherwise. |
| Retrieval.ToHit | app/rag.py:50-59 | The hit's score is the match's score, or 0.0 when absent. Its id is the match's id. Each of talk_id, title, speaker, chunk_index and text is present exactly when the metadata has that key, and then carries the stored value. Absent or empty metadata leaves all five fields absent. |
| Retrieval.ProjectHits | app/rag.py:48-62 | One hit per match: same length, and the i-th hit is built from the i-th match. |
| Retrieval.ProjectHitsAppend | app/rag.py:48-62 | Projecting a concatenation of matches projects each half, so the hits stream through the matches in order. |
| Retrieval.KeepsDuplicates | app/rag.py:49-61 | Equal matches at two positions give equal hits at both positions; nothing is deduplicated. |
| Retrieval.RetrieveContext | app/rag.py:48-62 | The loop's hit list equals `ProjectHits` of the matches. A result without a `matches` key gives no hits. |
| Strings.Join | app/rag.py:73 | `sep.join(parts)`: the empty string for no parts, the part itself for one, otherwise the join of all but the last, the separator and the last part. Its layout is fixed by the three lemmas below. |
| Strings.JoinLength | app/rag.py:73 | The joined string is as long as all parts plus one separator between each pair. |
| Strings.JoinPartAt | app/rag.py:73 | The i-th part occurs in the joined string at its offset: the lengths of the earlier parts plus one separator after each. |
| Strings.JoinSepAt | app/rag.py:73 | A separator stands right after the i-th part, and the next part begins right after that separator. |
| Strings.NatToString | app/rag.py:77 | `str(n)` of a count is a non-empty string of decimal digits without a leading zero. |
| Strings.DecimalRoundTrip | app/rag.py:77 | Reading back the digits of `str(n)` gives n. |
| Strings.NatToStringInjective | app/rag.py:77 | Different counts never print the same. |
| Strings.IntToString | app/rag.py:69-70 | `str(i)` starts with a minus sign exactly when i is negative. |
| Strings.IntToStringRoundTrip | app/rag.py:69-70 | The digits of `str(i)`, after the minus sign when there is one, read back as the magnitude of i. |
| Strings.Contains | app/rag.py:113-116 | Python's `sub in s`: `sub` occurs at some position of `s`. |
| Strings.ContainsMiddle | app/rag.py:113-116 | The middle piece of a concatenation is contained in it. |
| Strings.ContainsTransitive | app/rag.py:113-116 | A string contains every substring of any string it contains. |
| Strings.AbsentFirstChar | app/rag.py:113-116 | A string lacking the first character of `sub` does not contain `sub`. |
| Prompt.PythonStr | app/rag.py:69-70 | Python's `str()` inside an f-string: a string as itself, an integer by its decimal digits, a float by the float formatting, a boolean as `True` or `False`. |
| Prompt.Render | app/rag.py:69-71 | A field read with `h.get(...)` prints `None` when absent and its value otherwise. |
| Prompt.BlockTag | app/rag.py:67-69 | The block opens with `[i] ` for its 1-based position i. |
| Prompt.BlockBody | app/rag.py:69-71 | Then `talk_id=`, `title=`, `speaker=`, `chunk=` and `score=` with the hit's values on one line, a newline, and the hit's text. |
| Prompt.Block | app/rag.py:68-71 | The block for one hit: its tag followed by its body. |
| Prompt.Blocks | app/rag.py:66-72 | The parts list has one block per hit. |
| Prompt.BlockAt | app/rag.py:67-72 | The i-th part is the block of the i-th hit, numbered i+1. |
| Prompt.Context | app/rag.py:73 | The context section: the blocks joined by a blank line, empty for no hits. |
| Prompt.Label | app/rag.py:77 | The label `TED CONTEXT (top N chunks):` and a newline, for N hits. |
| Prompt.Header | app/rag.py:76-77 | `QUESTION:`, a newline, the question, a blank line, then the label. |
| Prompt.UserPrompt | app/rag.py:75-80 | The header, the blocks joined by blank lines, a blank line and the two instruction lines. |
| Prompt.BuildAugmentedPrompt | app/rag.py:65-81 | The loop-built prompt equals `UserPrompt(question, hits)`: header, the blocks joined by a blank line, then the instruction. |
| Prompt.QuestionOpensPrompt | app/rag.py:76 | The prompt begins with `QUESTION:`, a newline, the question verbatim and a blank line. |
| Prompt.LabelFollowsQuestion | app/rag.py:76-77 | The label `TED CONTEXT (top N chunks):` with N the number of hits follows the question immediately. |
| Prompt.ContextFollowsLabel | app/rag.py:77 | The context section follows the label immediately. |
| Prompt.InstructionClosesPrompt | app/rag.py:77-79 | The prompt ends with a blank line and the fixed two-line instruction. |
| Prompt.ContextBlockAt | app/rag.py:67-73 | Block i+1, describing the i-th hit, occurs in the context at its offset. |
| Prompt.ContextTagAt | app/rag.py:67-69 | The tag `[i+1] ` occurs at the offset of the i-th hit's block, so every hit has a tag, numbered 1..N in input order. |
| Prompt.ContextSeparatorAt | app/rag.py:73 | Exactly one blank line separates block i+1 from block i+2. |
| Prompt.PromptWithoutHits | app/rag.py:65-80 | With no hits the context is empty, the label reads `top 0 chunks`, and the prompt is the header followed by the instruction. |
| Prompt.LabelCountsHits | app/rag.py:77 | Equal labels mean equal numbers of hits: the label determines the count. |
| Refusal.QuotesRefusal | app/rag.py:113 | Rule 1: the answer contains the canonical sentence `IDK` (line 23), which is written out of the two fragments of rule 2. |
| Refusal.ParaphrasesRefusal | app/rag.py:115 | Rule 2: the answer contains `I don` and `know based on the provided TED data`, anywhere and in any order. |
| Refusal.Normalize | app/rag.py:113-116 | The result is either IDK or the answer unchanged. It is IDK when either rule fires, and it differs from the answer only when a rule fired. |
| Refusal.FragmentsOfIdk | app/rag.py:23 | The canonical sentence contains both fragments of the second rule. |
| Refusal.QuoteImpliesParaphrase | app/rag.py:113-116 | Every answer caught by the first rule is caught by the second. |
| Refusal.NormalizeIsRule2 | app/rag.py:113-116 | Normalisation equals the second rule alone. |
| Refusal.IdkIsFixedPoint | app/rag.py:23 | IDK satisfies both rules and normalises to itself. |
| Refusal.NormalizeIdempotent | app/rag.py:113-116 | Normalising twice is normalising once. |
| Refusal.NoCapitalINoRefusal | app/rag.py:113-116 | An answer without a capital I triggers neither rule and is kept. |
| Refusal.KeepsExamples | app/rag.py:113-116 | IDK and an ordinary answer are both kept. |
| Refusal.CollapsesParaphrase | app/rag.py:115-116 | A paraphrased refusal containing both fragments becomes IDK. |
| Refusal.AffirmativeAnswerCollapses | app/rag.py:115-116 | An affirmative answer that happens to contain both fragments also becomes IDK. |
| Pipeline.Entry | app/rag.py:121-126 | One context entry: the hit's talk_id and title, its text as `chunk`, and its score. |
| Pipeline.Show | app/rag.py:69-70 | The value rendering the prompt functions receive: `PythonStr` with the given float formatting. |
| Pipeline.ContextOf | app/rag.py:118-127 | One context entry per hit, in order: the hit's talk_id, title, text as chunk, and score. |
| Pipeline.ShapeContext | app/rag.py:118-127 | The loop-built context list equals `ContextOf(hits)`. |
| Pipeline.NormalizeAnswer | app/rag.py:113-116 | The two sequential rule checks compute `Normalize(raw)`. |
| Pipeline.Answer | app/rag.py:107-136 | What `answer_question` returns: the normalised generator answer to the user prompt, the context list of the hits, and the system and user prompts. |
| Pipeline.AnswerQuestion | app/rag.py:107-136 | The method's result equals `Answer`: retrieve, build the prompt, generate, normalise, shape. |
| Pipeline.AnswerContext | app/rag.py:118-127 | The result's context list has one entry per index match. Each entry carries that match's talk_id, title and text (absent when the metadata lacks the key) and its score, 0.0 when absent. |
| Pipeline.AnswerPromptAndResponse | app/rag.py:109-136 | `Augmented_prompt` is the system prompt with the user prompt sent to the generator. The response is IDK exactly when a rule fires on the raw answer (or the raw answer is IDK), and otherwise the raw answer. The response is already normalised. |
| Pipeline.AnswerWithoutMatches | app/rag.py:107-136 | With no matches the context list is empty. The user prompt is the header with label `top 0 chunks` followed by the instruction, with no blocks. The response is the normalised answer to that prompt. |
| Pipeline.CreativityParts | app/rag.py:118-127 | For one match with full metadata, the context list is the single expected entry, and an answer giving title and speaker passes normalisation unchanged. |
| Pipeline.CreativityScenario | app/rag.py:107-136 | End to end, for that match and a generator that names title and speaker: the result's context list is that single entry, the response is the generator's answer unchanged, and the system prompt is passed on. |

## Left out

- `embed_text` and `call_gpt` (app/rag.py:32-41, 84-104) are HTTP calls. Their timeouts, the logging of a failed status and the propagated errors are out of scope. The chat model's answer is the parameter `generate`.
- `index.query` and the Pinecone client (app/rag.py:28-29, 46) are remote I/O. The query result is the input `res`. That the index returns at most `TOP_K` matches, in descending score order, is the index's promise; no lemma depends on it.
- Reading the environment, `TOP_K` and the startup `RuntimeError` (app/rag.py:7-26) are configuration, not logic.
- Retrieval.ToHit: `float(...)` on the score is not modelled. Scores are already `real`. A score key that is present but `None` (a `TypeError` in Python) is folded into "absent".
- Retrieval.Match: a `metadata` key present as `None` is folded into "absent". Both give `{}` in the source, so this loses nothing.
- Prompt.PythonStr: Python's float formatting (`repr` of a float) is the uninterpreted parameter `showReal`. Metadata values are strings, integers, floats or booleans. List-valued metadata is not modelled.
- Pipeline.ShapeContext: the `float(h.get("score", 0.0))` on line 125 is the identity on a score that is already a float, and the key is always present.
- The web layer (`app/main.py`) and the ingestion scripts are not part of this model.
