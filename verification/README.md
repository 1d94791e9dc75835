# AI service of the child social-skills practice platform, modelled in Dafny

This project models the AI service of the learning platform's backend
(`backend/services/aiService.js`). The service is a singleton and holds all of
the platform's decision logic. It has three parts:

- **Greeting analyser and scorer.** The child's utterance is checked for
  greeting words, a self-introduction, politeness and a question. Those checks
  are case-insensitive substring tests. The utterance's length is measured in
  `' '`-separated segments. The result is an ordered list of tagged feedback
  items (positive, warning or hint). The items give a score clamped to 0..10,
  and the score gives one of four encouragement tiers.
- **Emotion judgement.** A correct pick scores 10 and a wrong pick scores 5.
  The explanation lists the visual cues of the relevant emotion. It comes from
  a six-entry table keyed by the lower-cased label, with a generic hint for
  any other label.
- **Completion gateway.**
  - *Prompt builders.* Two plain-text prompts: Ollama, with "Child"/"Alex"
    speakers, and Gemini, with "User"/"AI" speakers and an empty history left
    out. Two message arrays: OpenAI, with the system message first, and
    Anthropic, without one.
  - *Dispatch.* The backend is chosen by a case-insensitive service name.
    Unknown names fall through to the local Ollama model.
  - *Key checks.* Each hosted backend checks for its API key before any
    request.
  - *Fallback.* Any failure is replaced by one of five fixed phrases.

Modules, one file each:

| file | module | what it holds |
|---|---|---|
| jstext.dfy | `JsText` | the JavaScript string built-ins used: `toLowerCase`, `includes`, `startsWith`, `split`/`join` on one character, `trim` |
| greeting.dfy | `GreetingAnalysis` | feedback items and their tags, `analyzeGreeting`, `calculateScore`, `getEncouragement` |
| emotion.dfy | `EmotionJudge` | the cue table, `getEmotionExplanation`, `getEmotionFeedback` |
| prompts.dfy | `Prompts` | conversation turns and the four prompt builders |
| gateway.dfy | `Gateway` | configuration, backend selection, the four completion calls, fallback, `getCompletion`, `getGreetingResponse` |

How the source's effects are represented:

- **Outbound HTTP requests.** They are the functions of a `Transport` value.
  Each function receives exactly what the service posts, plus the API key it
  sends. It returns the extracted reply text or an error message.
- **`Math.random()`.** It is a supplied real number in [0, 1).
- **`process.env`.** It is an explicit `Config` value. A variable counts as
  set when it is present and non-empty, which is JavaScript truthiness.
- **Feedback tags.** Feedback items are an enumeration. `TagOf` gives each
  item's tag as `Positive | Warning | Hint`. The lines the service returns are
  produced by `Render`, which writes the tag's mark, a space and the message.
  `RenderedScoreAgrees` proves that the service's own method gives the same
  score as counting tags. That method counts lines by `startsWith` on the mark.
- **Character encoding of the literals.** The source file's non-ASCII text is
  double-encoded: the UTF-8 bytes of each symbol were read back one byte per
  character. The model copies these characters exactly as the file holds them,
  written as `\U{...}` escapes. So the check mark is the three characters
  U+00E2 U+0153 U+201C ("âœ“"). The warning sign is U+00E2 U+0161 U+00A0,
  ending in a no-break space. The light bulb is four characters.
- **Cut-short emoji.** Some emoji in the file lost their last byte: the eye
  emoji in the cue table and the closing emoji of the two middle
  encouragement messages. The model keeps the shortened character sequences
  as they stand. It does not guess which emoji they were meant to be. The
  feedback producer and the score counter use the same character sequences,
  so the score logic is unaffected.

Behaviour worth knowing, as the code has it:

- **Word count.** The code counts `' '`-separated segments, not whitespace
  tokens. So "" is one word, and a double space adds a word.
- **Trimming.** Only the Ollama and Gemini replies are trimmed. OpenAI and
  Anthropic replies are returned as received.
- **Roles.** A history turn belongs to the child only when its role is exactly
  `"user"`. Every other role, including the front-end's `"ai"`, is the AI.
- **Failures.** There is no timeout. A failure is either a missing key or a
  failed call, each carrying the message of the error thrown.
- **Rounding and clamping.** The code rounds first and clamps second. The
  bounds are integers, so this gives the same result as clamping first.
- **Multi-line text in prompts.** The instruction, history messages and new
  input are joined with line breaks and may contain line breaks themselves.
  The greeting instruction is twelve lines long, and AI replies kept in the
  history may span several lines. In the text prompts, only the first line of
  a multi-line message carries its speaker label.

## Model

| member | source | states |
|---|---|---|
| JsText.ToLower | backend/services/aiService.js:236 | lower-casing keeps the length and maps each character on its own |
| JsText.ToLowerIdempotent | backend/services/aiService.js:236 | lower-casing twice is lower-casing once |
| JsText.StartsWith | backend/services/aiService.js:268 | `startsWith` holds exactly when the prefix is no longer than the text and agrees with it character by character |
| JsText.Includes | backend/services/aiService.js:239 | the empty needle is always included, and an included needle is never longer than the text |
| JsText.IncludesIffOccurs | backend/services/aiService.js:239-256 | `includes` holds exactly when the needle occurs at some index of the text |
| JsText.Split | backend/services/aiService.js:259 | `split(' ')` yields at least one segment and no segment contains the separator |
| JsText.SplitCount | backend/services/aiService.js:259 | there is exactly one more segment than there are separator characters |
| JsText.JoinSplit | backend/services/aiService.js:259 | joining the segments with the separator gives the original string back |
| JsText.SplitJoin | backend/services/aiService.js:89 | splitting a non-empty list of separator-free parts joined by the separator gives the parts back |
| JsText.JoinEnds | backend/services/aiService.js:89 | a non-empty `join` begins with its first part and ends with its last part |
| JsText.SplitPrefix | backend/services/aiService.js:89 | a separator-free prefix glues onto the first segment of what follows it |
| JsText.SplitJoinEach | backend/services/aiService.js:89 | splitting a non-empty list of parts joined by the separator gives every part's own segments, in order, even when parts contain the separator |
| JsText.Trim | backend/services/aiService.js:105 | `trim` returns a contiguous slice, everything cut off is white space, and the result neither starts nor ends with white space |
| JsText.TrimIdempotent | backend/services/aiService.js:224 | trimming a trimmed reply changes nothing |
| GreetingAnalysis.AnalyzeGreeting | backend/services/aiService.js:234-273 | the list has 1 to 5 items in the fixed check order, with no repeats; the hint is present iff no item is positive |
| GreetingAnalysis.KeywordItems | backend/services/aiService.js:238-256 | the keyword items are at most four, in order, all positive, each present iff its keywords occur in the lower-cased text |
| GreetingAnalysis.KeywordItemsPresent | backend/services/aiService.js:238-256 | the analysis contains the greeting, introduction, politeness and question items exactly when their keywords occur |
| GreetingAnalysis.ThisCountsAsGreeting | backend/services/aiService.js:239 | as a substring test, "this" counts as containing the greeting "hi" |
| GreetingAnalysis.WordCountSpaces | backend/services/aiService.js:259 | the word count is the number of space characters plus one |
| GreetingAnalysis.LengthItem | backend/services/aiService.js:260-266 | the length item is "too short" iff the count is below 3, "too long" iff it is above 15, and "good length" (the only positive one) iff it is in 3..15 |
| GreetingAnalysis.OneLengthItem | backend/services/aiService.js:258-266 | exactly one length item is emitted, and it is the one chosen from the segment count |
| GreetingAnalysis.LengthItemTag | backend/services/aiService.js:259-266 | the length item is a warning iff the segment count (spaces plus one) is below 3 or above 15, and positive iff it is in 3..15 |
| GreetingAnalysis.HintOnlyAfterLengthWarning | backend/services/aiService.js:268-270 | when the hint is present the whole list is [length warning, hint] |
| GreetingAnalysis.HintMeansZeroScore | backend/services/aiService.js:268-287 | whenever the hint is given, the score is 0 |
| GreetingAnalysis.EmptyUtterance | backend/services/aiService.js:259-270 | the empty utterance counts as one word: too short, then the hint, score 0 |
| GreetingAnalysis.Render | backend/services/aiService.js:240-269 | each feedback line is exactly its tag's mark, a space and the item's message: it starts with the mark and space, ends with the message, and has no other characters |
| GreetingAnalysis.RenderedMark | backend/services/aiService.js:268-280 | a rendered line starts with a tag's mark exactly when the item has that tag |
| GreetingAnalysis.RenderAll | backend/services/aiService.js:240-272 | one line per item, in order, each the rendering of its item |
| GreetingAnalysis.CalculateScore | backend/services/aiService.js:278-287 | the score is always within 0..10 |
| GreetingAnalysis.JsRound | backend/services/aiService.js:286 | `Math.round` gives the integer nearest its argument, with halves rounded up |
| GreetingAnalysis.ScoreOfLines | backend/services/aiService.js:278-287 | the score computed from the rendered lines by their first marks is within 0..10 |
| GreetingAnalysis.ScoreFormula | backend/services/aiService.js:279-286 | the score equals clamp(floor((5p - 2w + 1) / 2), 0, 10) for p positives and w warnings, i.e. 2.5p - w rounded with halves up |
| GreetingAnalysis.ScoreDependsOnlyOnCounts | backend/services/aiService.js:278-286 | the text argument is unused: lists with equal positive and warning counts score alike |
| GreetingAnalysis.HintDoesNotScore | backend/services/aiService.js:279-280 | a hint item counts as neither positive nor warning |
| GreetingAnalysis.ScoreMonotone | backend/services/aiService.js:279-286 | an extra positive never lowers the score; an extra warning never raises it |
| GreetingAnalysis.RenderedScoreAgrees | backend/services/aiService.js:268-280 | counting rendered lines by `startsWith` on the marks gives the same score as counting tags |
| GreetingAnalysis.AnalysisScores | backend/services/aiService.js:234-287 | an analysed utterance scores one of 0, 2, 3, 4, 5, 7, 8, 9, 10 |
| GreetingAnalysis.ThreeKeywordsAndGoodLength | backend/services/aiService.js:238-287 | three keyword items and a length in 3..15 give the full 10 |
| GreetingAnalysis.FullMarksExample | backend/services/aiService.js:234-287 | "Hi, I'm Sam, how are you?" scores 10 |
| GreetingAnalysis.GetEncouragement | backend/services/aiService.js:292-297 | each integer score maps to exactly one tier: at least 9, 7..8, 5..6, below 5 |
| GreetingAnalysis.EncouragementMonotone | backend/services/aiService.js:292-297 | a higher score never earns a lower tier |
| EmotionJudge.GetEmotionExplanation | backend/services/aiService.js:302-313 | the explanation is either the generic hint or one of the table's cue texts |
| EmotionJudge.CueTableShape | backend/services/aiService.js:303-310 | the table covers exactly happy, sad, angry, scared, surprised and confused, and no entry is empty or equal to the generic hint |
| EmotionJudge.ExplanationLookup | backend/services/aiService.js:312 | a label whose lower-cased form is in the table gets that entry; the generic hint is returned iff it is not |
| EmotionJudge.ExplanationIgnoresCase | backend/services/aiService.js:312 | a label and its lower-cased form get the same explanation |
| EmotionJudge.CuesDistinct | backend/services/aiService.js:303-310 | two different labels from the table have different cues |
| EmotionJudge.GetEmotionFeedback | backend/services/aiService.js:42-56 | the score is 10 iff the pick is correct, else 5; a correct pick explains the picked emotion, a wrong pick explains the correct one |
| EmotionJudge.CorrectIgnoresExpected | backend/services/aiService.js:43-48 | a correct judgement does not depend on the supplied correct label |
| EmotionJudge.WrongIgnoresPick | backend/services/aiService.js:49-55 | a wrong judgement does not depend on which label was picked |
| EmotionJudge.WrongExplainsCorrectEmotion | backend/services/aiService.js:49-55 | for two different labels from the table, a wrong pick is explained with the correct emotion's cues and not with the picked emotion's |
| Prompts.TranscriptLines | backend/services/aiService.js:89 | one line per history turn, in order, as "speaker: message" |
| Prompts.TurnLine | backend/services/aiService.js:89 | a turn's line starts with the child's label and ": " when the role is "user", with the AI's label and ": " for any other role, and ends with the message |
| Prompts.TurnLineSplit | backend/services/aiService.js:89 | with single-line speaker labels, a turn's line splits into its message's lines, the first carrying the speaker label |
| Prompts.Transcript | backend/services/aiService.js:192-194 | the rendered history begins with the first turn's line and ends with the last turn's message |
| Prompts.HistoryLinesSingle | backend/services/aiService.js:192-194 | with single-line messages, the history has exactly one line per turn |
| Prompts.TranscriptSplit | backend/services/aiService.js:192-194 | for a non-empty history, splitting the rendered history at line breaks gives every turn's lines in order |
| Prompts.TranscriptTextLines | backend/services/aiService.js:89 | the rendered history splits into one blank line when it is empty and into every turn's lines otherwise |
| Prompts.TranscriptRoundTrip | backend/services/aiService.js:192-194 | with single-line messages and a non-empty history, splitting the rendered history at line breaks gives back one line per turn, in the original order |
| Prompts.TranscriptEmpty | backend/services/aiService.js:192-198 | the rendered history is empty exactly when the history is |
| Prompts.OllamaPrompt | backend/services/aiService.js:86-92 | the prompt begins with the instruction and ends with the cue "Alex:" |
| Prompts.OllamaPromptLines | backend/services/aiService.js:86-92 | for any instruction, history and input, the prompt's lines are the instruction's lines, a blank line, the heading, every turn's lines in order with Child/Alex labels (one blank line for no history), a blank line, the lines of "Child: input" and "Alex:" |
| Prompts.GeminiPrompt | backend/services/aiService.js:196-199 | the prompt begins with the instruction and ends with the cue "AI:" |
| Prompts.GeminiPromptLines | backend/services/aiService.js:192-199 | for any instruction, history and input, the prompt's lines are the instruction's lines, a blank line, every turn's lines in order with User/AI labels (nothing for no history), the lines of "User: input" and "AI:" |
| Prompts.ChatTurn | backend/services/aiService.js:123-126 | role "user" becomes the user role and any other role the assistant; the content is the message |
| Prompts.ChatHistory | backend/services/aiService.js:155-158 | one chat message per turn, in order |
| Prompts.AnthropicMessages | backend/services/aiService.js:155-160 | history length plus one messages, none with the system role |
| Prompts.OpenAIMessages | backend/services/aiService.js:121-128 | history length plus two messages; the first is the system message and no other has the system role |
| Prompts.MessagesPreserveHistory | backend/services/aiService.js:121-160 | both arrays keep every turn's text and role mapping in order, and end with the new input as a user message |
| Gateway.ServiceName | backend/services/aiService.js:5 | an unset or empty service setting means "local" |
| Gateway.SelectBackend | backend/services/aiService.js:61-74 | OpenAI, Anthropic or Gemini iff the lower-cased name is "openai", "anthropic" or "gemini"; Ollama for every other name |
| Gateway.SelectIgnoresCase | backend/services/aiService.js:63 | backend selection gives the same answer for a name and its lower-cased form |
| Gateway.DefaultIsLocal | backend/services/aiService.js:71-74 | an unset, empty or unknown service name selects the local model |
| Gateway.Dispatch | backend/services/aiService.js:61-74 | the selected backend reports a missing key exactly when its key is unset (never for the local model); Ollama and Gemini results are trimmed |
| Gateway.OllamaCompletion | backend/services/aiService.js:84-110 | a successful reply is trimmed; every failure becomes the "Local AI service unavailable" error |
| Gateway.OpenAICompletion | backend/services/aiService.js:115-143 | without a key the result is the "OpenAI API key not configured" error |
| Gateway.AnthropicCompletion | backend/services/aiService.js:148-176 | without a key the result is the "Anthropic API key not configured" error |
| Gateway.GeminiCompletion | backend/services/aiService.js:184-229 | without a key the result is the unwrapped "Gemini API key not configured" error; a successful reply is trimmed |
| Gateway.FallbackIndex | backend/services/aiService.js:327 | `floor(random * 5)` is a valid index for a random number in [0, 1) |
| Gateway.EveryPhraseReachable | backend/services/aiService.js:319-327 | every one of the five phrases is chosen for some random number |
| Gateway.FallbackResponse | backend/services/aiService.js:318-328 | the fallback is always one of the five fixed phrases and never empty |
| Gateway.GetCompletion | backend/services/aiService.js:61-79 | the reply is the backend's text when it succeeds and a fixed fallback phrase when it fails |
| Gateway.AllDownGivesFallback | backend/services/aiService.js:75-78 | with every request failing, the reply is still the fallback phrase |
| Gateway.MissingKeyMakesNoCall | backend/services/aiService.js:116-119 | a missing key for the selected hosted backend gives the fallback whatever the transport would answer, so no request matters |
| Gateway.ReplyTrimming | backend/services/aiService.js:84-229 | Ollama and Gemini replies are returned trimmed; OpenAI and Anthropic replies are returned verbatim |
| Gateway.GetGreetingResponse | backend/services/aiService.js:13-37 | the reply is the completion for the fixed greeting instruction; the response carries the rendered analysis and a score in 0..10; the score equals the service's line-based score; the encouragement matches the score's tier |
| Gateway.AnalysisIndependentOfBackend | backend/services/aiService.js:27-35 | feedback, score and encouragement do not depend on the backend, its reply or the random pick |

## Left out

- **Outbound HTTP.** The model leaves out the HTTP requests themselves: URLs,
  model names, headers, and the `temperature`, `top_p` and token options. It
  also leaves out how each response envelope is read. A request is the
  corresponding `Transport` function. A missing field in the reply counts as
  that function's error.
- **Logging.** `console.error` logging is left out. It has no effect on results.
- **Randomness.** `Math.random()` is not modelled. The random number is a
  parameter restricted to [0, 1).
- **Environment reads.** Reads of `process.env` are not modelled. The settings
  are a `Config` value. The source reads the API keys on every call and the
  service name once. That difference has no effect in a single model run.
- JsText.ToLower: maps only the ASCII letters A-Z. JavaScript's `toLowerCase`
  also lowers other letters, such as 'É'. So keyword checks, backend selection
  and the cue lookup are modelled faithfully only for ASCII-case input.
- EmotionJudge.GetEmotionExplanation: the source looks labels up on a plain
  object, so 'constructor' and '__proto__' would find inherited properties
  rather than the generic hint. The model treats them as unknown labels.
- EmotionJudge.GetEmotionFeedback: takes the correct label as a required
  string. The source's default `context = {}` would make the wrong-answer path
  fail on an undefined label. That crash is not promised behaviour and is not
  modelled.
- **Non-string values.** Values JavaScript would coerce or reject are not
  modelled. Examples: an undefined message rendered as "undefined", and a null
  reply content from OpenAI. Every text is a string.
- GreetingAnalysis.Mark: the marks are the source file's double-encoded
  character sequences, not the symbols "✓", "⚠" and "💡" they were made from.
- GreetingAnalysis.Render: the rendered lines start with those
  double-encoded marks. The front-end looks for a real "✓" when it styles a
  feedback line, so it does not recognise these lines. The front-end is not
  part of this model.
- GreetingAnalysis.Tier.Message: the closing emoji are double-encoded, and
  two of them are cut short. The model does not say which emoji were meant.
- EmotionJudge.Cues: the cue emoji are double-encoded, and the eye emoji is
  cut short. The model does not say which emoji were meant.
- EmotionJudge.GetEmotionFeedback: the correct-answer feedback starts with
  the double-encoded check mark, not "✓".
- **Outside the service.** The routes, the Express server, the SQLite store
  and the React front-end are not part of this model. This includes the chat
  route's character prompt. That route passes the prompt as an argument
  `getGreetingResponse` does not accept, so the fixed greeting instruction is
  always used, as modelled.
