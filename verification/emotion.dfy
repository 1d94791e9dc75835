/**
 The emotion-recognition judgement of the AI service: a flat, table-driven
 verdict on whether the child picked the right emotion, with the visual
 cues of the relevant emotion as explanation.
 */
module EmotionJudge {
  import opened JsText

  /** The explanation for any label outside the cue table. */
  const GenericCue: string := "Look at the eyes, mouth, and eyebrows for clues!"

  /** The six labels the cue table knows, in lower case. */
  const Labels: set<string> := {"happy", "sad", "angry", "scared", "surprised", "confused"}

  /**
   Visual cues per emotion, three lines each. The leading emoji of each line
   are spelled as the source text holds them: UTF-8 bytes re-read one byte
   per character, with the eye emoji cut short to three characters.
   */
  const Cues: map<string, string> := map[
    "happy" := "\U{11F}\U{178}\U{2018} Eyes are smiling\n\U{11F}\U{178}\U{2DC}\U{160} Corners of mouth turn up\n\U{E2}\U{153}\U{A8} Face looks bright",
    "sad" := "\U{11F}\U{178}\U{2018} Eyes look down\n\U{11F}\U{178}\U{2DC}\U{201D} Corners of mouth turn down\n\U{11F}\U{178}\U{2DC}\U{A2} They might be crying",
    "angry" := "\U{11F}\U{178}\U{2DC}\U{A0} Eyebrows pushed together\n\U{11F}\U{178}\U{2018} Eyes look intense\n\U{11F}\U{178}\U{2DC}\U{A1} Mouth might be tight",
    "scared" := "\U{11F}\U{178}\U{2018} Eyes wide open\n\U{11F}\U{178}\U{2DC}\U{B0} Eyebrows raised\n\U{11F}\U{178}\U{2DC}\U{A8} Mouth might be open",
    "surprised" := "\U{11F}\U{178}\U{2018} Eyes very wide\n\U{11F}\U{178}\U{2DC}\U{AE} Eyebrows raised high\n\U{11F}\U{178}\U{2DC}\U{B2} Mouth open",
    "confused" := "\U{11F}\U{178}\U{A4}\U{201D} Eyebrows tilted\n\U{11F}\U{178}\U{2018} Eyes searching\n\U{11F}\U{178}\U{2DC}\U{2022} Head might be tilted"
  ]

  /**
   `getEmotionExplanation`: look the lower-cased label up in the cue table;
   a missing (or empty) entry gives the generic hint, as `table[key] || hint`.
   */
  function GetEmotionExplanation(emotion: string): (explanation: string)
    ensures explanation == GenericCue || explanation in Cues.Values
  {
    var key := ToLower(emotion);
    if key in Cues && Cues[key] != "" then Cues[key] else GenericCue
  }

  /** The table covers exactly the six labels, and no entry is empty or the generic hint. */
  lemma CueTableShape()
    ensures Cues.Keys == Labels
    ensures forall l :: l in Cues ==> Cues[l] != "" && Cues[l] != GenericCue
  {
    forall l | l in Cues
      ensures Cues[l] != "" && Cues[l] != GenericCue
    {
      assert |Cues[l]| > |GenericCue|;
    }
  }

  /** A known label gets its own cues; anything else gets the generic hint, and only then. */
  lemma ExplanationLookup(emotion: string)
    ensures ToLower(emotion) in Labels ==> GetEmotionExplanation(emotion) == Cues[ToLower(emotion)]
    ensures GetEmotionExplanation(emotion) == GenericCue <==> ToLower(emotion) !in Labels
  {
    CueTableShape();
  }

  /** The lookup ignores case: a label and its lower-cased form explain alike. */
  lemma ExplanationIgnoresCase(emotion: string)
    ensures GetEmotionExplanation(emotion) == GetEmotionExplanation(ToLower(emotion))
  {
    ToLowerIdempotent(emotion);
  }

  /** Different known labels have different cues. */
  lemma CuesDistinct(a: string, b: string)
    requires a in Labels && b in Labels && a != b
    ensures Cues[a] != Cues[b]
  {
    assert |Cues[a]| != |Cues[b]|;
  }

  /** The result of `getEmotionFeedback`. */
  datatype Judgement = Judgement(feedback: string, explanation: string, score: int)

  const RedirectFeedback: string := "Not quite. Let's look at the clues together."

  /**
   `getEmotionFeedback`: a correct pick scores 10, affirms the picked label
   and explains its cues; a wrong pick scores 5 with a fixed redirect and
   explains the cues of the correct emotion.
   */
  function GetEmotionFeedback(emotion: string, isCorrect: bool, correctEmotion: string): (j: Judgement)
    ensures j.score == 10 || j.score == 5
    ensures isCorrect <==> j.score == 10
    ensures isCorrect ==> j.explanation == GetEmotionExplanation(emotion)
                          && j.feedback == "\U{E2}\U{153}\U{201C} Excellent! That's right - the person is " + emotion + "!"
    ensures !isCorrect ==> j.explanation == GetEmotionExplanation(correctEmotion)
                           && j.feedback == RedirectFeedback
  {
    if isCorrect then
      Judgement("\U{E2}\U{153}\U{201C} Excellent! That's right - the person is " + emotion + "!",
                GetEmotionExplanation(emotion), 10)
    else
      Judgement(RedirectFeedback, GetEmotionExplanation(correctEmotion), 5)
  }

  /** A correct judgement does not depend on what the correct label was said to be. */
  lemma CorrectIgnoresExpected(emotion: string, c1: string, c2: string)
    ensures GetEmotionFeedback(emotion, true, c1) == GetEmotionFeedback(emotion, true, c2)
  {
  }

  /** A wrong judgement does not depend on which label was picked. */
  lemma WrongIgnoresPick(e1: string, e2: string, correctEmotion: string)
    ensures GetEmotionFeedback(e1, false, correctEmotion) == GetEmotionFeedback(e2, false, correctEmotion)
  {
  }

  /** A wrong pick of a known emotion is explained with the correct emotion's cues, not the picked one's. */
  lemma WrongExplainsCorrectEmotion(emotion: string, correctEmotion: string)
    requires emotion in Labels && correctEmotion in Labels && emotion != correctEmotion
    ensures GetEmotionFeedback(emotion, false, correctEmotion).explanation == Cues[correctEmotion]
    ensures GetEmotionFeedback(emotion, false, correctEmotion).explanation != Cues[emotion]
  {
    assert ToLower(correctEmotion) == correctEmotion;
    ExplanationLookup(correctEmotion);
    CuesDistinct(emotion, correctEmotion);
  }
}
