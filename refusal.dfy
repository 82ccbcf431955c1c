/** Refusal normalisation in `answer_question` (app/rag.py): two crude
    substring rules, either of which collapses the model's answer to the
    canonical refusal sentence. */
module Refusal {

  import opened Strings

  /** The two fragments the looser rule looks for. */
  const Hedge := "I don"
  const Disclaimer := "know based on the provided TED data"

  /** The canonical refusal sentence, "I don't know based on the provided
      TED data.", written out of the two fragments it contains. */
  const IDK := Hedge + "'t " + Disclaimer + "."

  /** Rule 1: the answer quotes the canonical sentence somewhere. */
  predicate QuotesRefusal(answer: string)
  {
    Contains(answer, IDK)
  }

  /** Rule 2: the answer contains both fragments, anywhere and in any order. */
  predicate ParaphrasesRefusal(answer: string)
  {
    Contains(answer, Hedge) && Contains(answer, Disclaimer)
  }

  /** The answer after both rules: the canonical sentence when either rule
      fires, otherwise the answer unchanged. */
  function Normalize(answer: string): (r: string)
    ensures r == IDK || r == answer
    ensures QuotesRefusal(answer) || ParaphrasesRefusal(answer) ==> r == IDK
    ensures r != answer ==> QuotesRefusal(answer) || ParaphrasesRefusal(answer)
  {
    if QuotesRefusal(answer) || ParaphrasesRefusal(answer) then IDK else answer
  }

  /** The canonical sentence contains both fragments of rule 2. */
  lemma FragmentsOfIdk()
    ensures Contains(IDK, Hedge) && Contains(IDK, Disclaimer)
  {
    assert IDK == [] + Hedge + ("'t " + Disclaimer + ".");
    ContainsMiddle([], Hedge, "'t " + Disclaimer + ".");
    ContainsMiddle(Hedge + "'t ", Disclaimer, ".");
  }

  /** Rule 1 is subsumed by rule 2: an answer quoting the canonical sentence
      contains both fragments. */
  lemma QuoteImpliesParaphrase(answer: string)
    requires QuotesRefusal(answer)
    ensures ParaphrasesRefusal(answer)
  {
    FragmentsOfIdk();
    ContainsTransitive(answer, IDK, Hedge);
    ContainsTransitive(answer, IDK, Disclaimer);
  }

  /** Hence the normalisation is rule 2 alone. */
  lemma NormalizeIsRule2(answer: string)
    ensures Normalize(answer) == if ParaphrasesRefusal(answer) then IDK else answer
  {
    if QuotesRefusal(answer) {
      QuoteImpliesParaphrase(answer);
    }
  }

  /** The canonical sentence satisfies both rules, so it is a fixed point. */
  lemma IdkIsFixedPoint()
    ensures QuotesRefusal(IDK) && ParaphrasesRefusal(IDK)
    ensures Normalize(IDK) == IDK
  {
    assert IDK[0..|IDK|] == IDK;
    assert OccursAt(IDK, IDK, 0);
    FragmentsOfIdk();
  }

  /** Normalising twice is normalising once. */
  lemma NormalizeIdempotent(answer: string)
    ensures Normalize(Normalize(answer)) == Normalize(answer)
  {
    IdkIsFixedPoint();
  }

  /** An answer without a capital `I` is never a refusal: all three search
      strings begin with it. */
  lemma NoCapitalINoRefusal(answer: string)
    requires 'I' !in answer
    ensures !QuotesRefusal(answer) && !ParaphrasesRefusal(answer)
    ensures Normalize(answer) == answer
  {
    AbsentFirstChar(answer, IDK);
    AbsentFirstChar(answer, Hedge);
  }

  /** The canonical sentence is kept, and so is an ordinary answer. */
  lemma KeepsExamples()
    ensures Normalize(IDK) == IDK
    ensures Normalize("The speaker is Jane Doe.") == "The speaker is Jane Doe."
  {
    IdkIsFixedPoint();
    NoCapitalINoRefusal("The speaker is Jane Doe.");
  }

  /** A paraphrased refusal containing both fragments ("Well, I don't
      really know based on the provided TED data, sorry.") is collapsed. */
  lemma CollapsesParaphrase()
    ensures Normalize("Well, " + Hedge + "'t really " + Disclaimer + ", sorry.") == IDK
  {
    var answer := "Well, " + Hedge + "'t really " + Disclaimer + ", sorry.";
    assert answer == "Well, " + Hedge + ("'t really " + Disclaimer + ", sorry.");
    ContainsMiddle("Well, ", Hedge, "'t really " + Disclaimer + ", sorry.");
    ContainsMiddle("Well, " + Hedge + "'t really ", Disclaimer, ", sorry.");
  }

  /** The looser rule is blind to meaning: an affirmative answer that
      happens to contain both fragments ("I don't doubt it: I know based on
      the provided TED data that she spoke.") is collapsed as well. */
  lemma AffirmativeAnswerCollapses()
    ensures Normalize(Hedge + "'t doubt it: I " + Disclaimer + " that she spoke.") == IDK
  {
    var answer := Hedge + "'t doubt it: I " + Disclaimer + " that she spoke.";
    assert answer == [] + Hedge + ("'t doubt it: I " + Disclaimer + " that she spoke.");
    ContainsMiddle([], Hedge, "'t doubt it: I " + Disclaimer + " that she spoke.");
    ContainsMiddle(Hedge + "'t doubt it: I ", Disclaimer, " that she spoke.");
  }
}
