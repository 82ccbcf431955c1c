/** Prompt assembly, `build_augmented_prompt` (app/rag.py): one numbered
    block per hit, joined by a blank line, wrapped with the question, a
    chunk-count label and a fixed instruction. */
module Prompt {

  import opened Wrappers
  import opened Strings
  import opened Retrieval

  /** The separator between blocks. */
  const BlankLine := "\n\n"

  /** The two fixed lines closing every prompt. */
  const Instruction := "Answer the question using ONLY the TED CONTEXT.\n"
    + "Format: start with 'Title: ...' and 'Speaker: ...' when the question asks for title and speaker."

  /** Everything after the context section. */
  const Trailer := BlankLine + Instruction

  /** Python's `str(v)` for a metadata value or a score; `showReal` is
      Python's float formatting, left uninterpreted. The prompt functions
      below take this rendering as their parameter `show`. */
  function PythonStr(v: Value, showReal: real -> string): string
  {
    match v
    case Str(s) => s
    case Int(i) => IntToString(i)
    case Num(x) => showReal(x)
    case Flag(b) => if b then "True" else "False"
  }

  /** A field inside an f-string: an absent field prints as `None`. */
  function Render(v: Option<Value>, show: Value -> string): string
  {
    match v
    case None => "None"
    case Some(x) => show(x)
  }

  /** The opening of block number `n`: `[n] `. */
  function BlockTag(n: nat): string
  {
    "[" + NatToString(n) + "] "
  }

  /** What follows the tag in a block: the hit's fields on one line, then
      its text. */
  function BlockBody(h: Hit, show: Value -> string): string
  {
    "talk_id=" + Render(h.talkId, show)
    + " title=" + Render(h.title, show)
    + " speaker=" + Render(h.speaker, show)
    + " chunk=" + Render(h.chunkIndex, show)
    + " score=" + show(Num(h.score)) + "\n"
    + Render(h.text, show)
  }

  /** The block for hit `h` at 1-based position `n`. */
  function Block(n: nat, h: Hit, show: Value -> string): string
  {
    BlockTag(n) + BlockBody(h, show)
  }

  /** The `parts` list: one block per hit, in order (see `BlockAt`). */
  function Blocks(hits: seq<Hit>, show: Value -> string): (parts: seq<string>)
    ensures |parts| == |hits|
    decreases |hits|
  {
    if hits == [] then []
    else Blocks(hits[..|hits| - 1], show) + [Block(|hits|, hits[|hits| - 1], show)]
  }

  /** The i-th part is the block of the i-th hit, numbered from 1. */
  lemma {:induction false} BlockAt(hits: seq<Hit>, show: Value -> string, i: nat)
    requires i < |hits|
    ensures Blocks(hits, show)[i] == Block(i + 1, hits[i], show)
    decreases |hits|
  {
    var n := |hits|;
    assert Blocks(hits, show) == Blocks(hits[..n - 1], show) + [Block(n, hits[n - 1], show)];
    if i < n - 1 {
      BlockAt(hits[..n - 1], show, i);
      assert hits[..n - 1][i] == hits[i];
    }
  }

  /** The context section: the blocks joined by blank lines. */
  function Context(hits: seq<Hit>, show: Value -> string): string
  {
    Join(Blocks(hits, show), BlankLine)
  }

  /** The chunk-count label. */
  function Label(n: nat): string
  {
    "TED CONTEXT (top " + NatToString(n) + " chunks):\n"
  }

  /** Everything before the context section. */
  function Header(question: string, n: nat): string
  {
    "QUESTION:\n" + question + BlankLine + Label(n)
  }

  /** The user prompt for `question` and `hits`. */
  function UserPrompt(question: string, hits: seq<Hit>, show: Value -> string): string
  {
    Header(question, |hits|) + Context(hits, show) + Trailer
  }

  /** `build_augmented_prompt`: the loop appending one block per hit, then
      the join and the wrapping. */
  method BuildAugmentedPrompt(question: string, hits: seq<Hit>, show: Value -> string)
    returns (prompt: string)
    ensures prompt == UserPrompt(question, hits, show)
  {
    var parts: seq<string> := [];
    for i := 0 to |hits|
      invariant parts == Blocks(hits[..i], show)
    {
      assert hits[..i + 1][..i] == hits[..i];
      parts := parts + [Block(i + 1, hits[i], show)];
    }
    assert hits[..|hits|] == hits;
    var context := Join(parts, BlankLine);
    var header := "QUESTION:\n" + question + BlankLine
      + "TED CONTEXT (top " + NatToString(|hits|) + " chunks):\n";
    assert header == Header(question, |hits|);
    prompt := header + context + (BlankLine + Instruction);
  }

  /** The user prompt opens with the question verbatim. */
  lemma QuestionOpensPrompt(question: string, hits: seq<Hit>, show: Value -> string)
    ensures "QUESTION:\n" + question + BlankLine <= UserPrompt(question, hits, show)
  {
    PrefixOfFour("QUESTION:\n" + question + BlankLine, Label(|hits|), Context(hits, show), Trailer);
  }

  /** Right after the question stands the label counting the hits. */
  lemma LabelFollowsQuestion(question: string, hits: seq<Hit>, show: Value -> string)
    ensures OccursAt(UserPrompt(question, hits, show), Label(|hits|), 12 + |question|)
  {
    var q := "QUESTION:\n" + question + BlankLine;
    var l := Label(|hits|);
    SliceInSecond(q, l, Context(hits, show), Trailer, 0, |l|);
  }

  /** The user prompt closes with the fixed two-line instruction. */
  lemma InstructionClosesPrompt(question: string, hits: seq<Hit>, show: Value -> string)
    ensures var p := UserPrompt(question, hits, show);
      |p| >= |Trailer| && p[|p| - |Trailer|..] == Trailer
  {
    var front := Header(question, |hits|) + Context(hits, show);
    assert UserPrompt(question, hits, show) == front + Trailer;
  }

  /** The context section stands between the label and the closing
      instruction. */
  lemma ContextFollowsLabel(question: string, hits: seq<Hit>, show: Value -> string)
    ensures OccursAt(UserPrompt(question, hits, show), Context(hits, show), |Header(question, |hits|)|)
  {
    var h, c := Header(question, |hits|), Context(hits, show);
    SliceInMiddle(h, c, Trailer, 0, |c|);
  }

  /** Block `i + 1` of the context section describes the `i`-th hit. */
  lemma ContextBlockAt(hits: seq<Hit>, show: Value -> string, i: nat)
    requires i < |hits|
    ensures OccursAt(Context(hits, show), Block(i + 1, hits[i], show), Offset(Blocks(hits, show), BlankLine, i))
  {
    JoinPartAt(Blocks(hits, show), BlankLine, i);
    BlockAt(hits, show, i);
  }

  /** Block `i + 1` of the context section begins with its tag `[i+1] `. */
  lemma ContextTagAt(hits: seq<Hit>, show: Value -> string, i: nat)
    requires i < |hits|
    ensures OccursAt(Context(hits, show), BlockTag(i + 1), Offset(Blocks(hits, show), BlankLine, i))
  {
    var b := Block(i + 1, hits[i], show);
    ContextBlockAt(hits, show, i);
    PrefixOfConcat(BlockTag(i + 1), BlockBody(hits[i], show));
    PrefixOccurs(Context(hits, show), b, BlockTag(i + 1), Offset(Blocks(hits, show), BlankLine, i));
  }

  /** Exactly one blank line separates block `i + 1` from block `i + 2`. */
  lemma ContextSeparatorAt(hits: seq<Hit>, show: Value -> string, i: nat)
    requires i + 1 < |hits|
    ensures var c, parts := Context(hits, show), Blocks(hits, show);
      var e := Offset(parts, BlankLine, i) + |parts[i]|;
      OccursAt(c, BlankLine, e) && Offset(parts, BlankLine, i + 1) == e + |BlankLine|
  {
    var parts := Blocks(hits, show);
    JoinSepAt(parts, BlankLine, i);
  }

  /** With no hits the context section is empty and the label reads
      `top 0 chunks`. */
  lemma PromptWithoutHits(question: string, show: Value -> string)
    ensures Context([], show) == ""
    ensures Label(0) == "TED CONTEXT (top 0 chunks):\n"
    ensures UserPrompt(question, [], show) == Header(question, 0) + Trailer
  {
    assert Blocks([], show) == [];
    assert NatToString(0) == "0";
  }

  /** The label determines the number of hits. */
  lemma LabelCountsHits(a: seq<Hit>, b: seq<Hit>)
    requires Label(|a|) == Label(|b|)
    ensures |a| == |b|
  {
    var la, lb := NatToString(|a|), NatToString(|b|);
    var pre, post := "TED CONTEXT (top ", " chunks):\n";
    assert Label(|a|) == pre + la + post;
    assert Label(|b|) == pre + lb + post;
    SliceInMiddle(pre, la, post, 0, |la|);
    SliceInMiddle(pre, lb, post, 0, |lb|);
    NatToStringInjective(|a|, |b|);
  }
}
