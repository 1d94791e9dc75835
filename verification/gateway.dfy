/**
 The completion gateway of the AI service: the configured backend is
 chosen by a case-insensitive name (anything unknown means the local
 Ollama model), the hosted backends refuse to run without an API key, and
 every failure is replaced by one of five fixed encouraging phrases, so a
 completion request always yields text. The outbound HTTP calls are the
 functions of a `Transport` value, and `Math.random()` is a supplied real
 in [0, 1).
 */
module Gateway {
  import opened JsText
  import opened Prompts
  import opened GreetingAnalysis

  datatype Option<T> = None | Some(value: T)

  datatype Result<T, E> = Ok(value: T) | Err(error: E)

  // ---------------------------------------------------------------------
  // Configuration and dispatch
  // ---------------------------------------------------------------------

  datatype Backend = Ollama | OpenAI | Anthropic | Gemini

  /** The environment the service reads: AI_SERVICE and the three API keys, each possibly unset. */
  datatype Config = Config(
    aiService: Option<string>,
    openAIKey: Option<string>,
    anthropicKey: Option<string>,
    geminiKey: Option<string>)

  /** An environment value counts as set when it is present and non-empty (JavaScript truthiness). */
  predicate IsSet(v: Option<string>) {
    v.Some? && v.value != ""
  }

  /** `process.env.AI_SERVICE || 'local'` */
  function ServiceName(cfg: Config): (name: string)
    ensures IsSet(cfg.aiService) ==> name == cfg.aiService.value
    ensures !IsSet(cfg.aiService) ==> name == "local"
  {
    if IsSet(cfg.aiService) then cfg.aiService.value else "local"
  }

  /** The backend `getCompletion` picks for a service name; every other name means Ollama. */
  function SelectBackend(service: string): (b: Backend)
    ensures b == OpenAI <==> ToLower(service) == "openai"
    ensures b == Anthropic <==> ToLower(service) == "anthropic"
    ensures b == Gemini <==> ToLower(service) == "gemini"
    ensures b == Ollama <==> ToLower(service) !in {"openai", "anthropic", "gemini"}
  {
    var name := ToLower(service);
    if name == "openai" then OpenAI
    else if name == "anthropic" then Anthropic
    else if name == "gemini" then Gemini
    else Ollama
  }

  /** Dispatch ignores the case of the service name. */
  lemma SelectIgnoresCase(service: string)
    ensures SelectBackend(service) == SelectBackend(ToLower(service))
  {
    ToLowerIdempotent(service);
  }

  /** With AI_SERVICE unset, empty or unknown, the local model is used. */
  lemma DefaultIsLocal(cfg: Config)
    requires !IsSet(cfg.aiService) || ToLower(cfg.aiService.value) !in {"openai", "anthropic", "gemini"}
    ensures SelectBackend(ServiceName(cfg)) == Ollama
  {
    if !IsSet(cfg.aiService) {
      assert ToLower("local") == "local";
    }
  }

  // ---------------------------------------------------------------------
  // Backend calls
  // ---------------------------------------------------------------------

  /**
   The outbound requests. Each receives what the service posts (and the
   API key it sends) and yields the text it extracts from the response
   envelope, or an error message for a failed request or a malformed reply.
   */
  datatype Transport = Transport(
    ollamaGenerate: string -> Result<string, string>,
    openAIChat: (string, seq<ChatMessage>) -> Result<string, string>,
    anthropicMessages: (string, string, seq<ChatMessage>) -> Result<string, string>,
    geminiGenerate: (string, string) -> Result<string, string>)

  /** Why a completion was not obtained; the message is the text of the error thrown. */
  datatype Failure = MissingKey(message: string) | CallFailed(message: string)

  const OllamaDown := "Local AI service unavailable. Please check if Ollama is running."

  /** Local Ollama: post the text prompt, trim the reply; any error becomes the "unavailable" failure. */
  function OllamaCompletion(net: Transport, system: string, input: string, history: seq<Turn>)
    : (r: Result<string, Failure>)
    ensures r.Ok? ==> Trim(r.value) == r.value
    ensures r.Err? ==> r == Err(CallFailed(OllamaDown))
  {
    match net.ollamaGenerate(OllamaPrompt(system, input, history))
    case Ok(text) =>
      TrimIdempotent(text);
      Ok(Trim(text))
    case Err(_) => Err(CallFailed(OllamaDown))
  }

  /** OpenAI: no call without a key; otherwise the reply text as received, untrimmed. */
  function OpenAICompletion(cfg: Config, net: Transport, system: string, input: string, history: seq<Turn>)
    : (r: Result<string, Failure>)
    ensures !IsSet(cfg.openAIKey) ==> r == Err(MissingKey("OpenAI API key not configured"))
  {
    if !IsSet(cfg.openAIKey) then Err(MissingKey("OpenAI API key not configured"))
    else
      match net.openAIChat(cfg.openAIKey.value, OpenAIMessages(system, input, history))
      case Ok(text) => Ok(text)
      case Err(e) => Err(CallFailed(e))
  }

  /** Anthropic: no call without a key; the instruction goes separately from the messages; reply untrimmed. */
  function AnthropicCompletion(cfg: Config, net: Transport, system: string, input: string, history: seq<Turn>)
    : (r: Result<string, Failure>)
    ensures !IsSet(cfg.anthropicKey) ==> r == Err(MissingKey("Anthropic API key not configured"))
  {
    if !IsSet(cfg.anthropicKey) then Err(MissingKey("Anthropic API key not configured"))
    else
      match net.anthropicMessages(cfg.anthropicKey.value, system, AnthropicMessages(input, history))
      case Ok(text) => Ok(text)
      case Err(e) => Err(CallFailed(e))
  }

  /**
   Gemini: no call without a key (that error is not re-wrapped); otherwise
   post the text prompt and trim the reply; call errors are re-wrapped.
   */
  function GeminiCompletion(cfg: Config, net: Transport, system: string, input: string, history: seq<Turn>)
    : (r: Result<string, Failure>)
    ensures !IsSet(cfg.geminiKey) ==> r == Err(MissingKey("Gemini API key not configured"))
    ensures r.Ok? ==> Trim(r.value) == r.value
  {
    if !IsSet(cfg.geminiKey) then Err(MissingKey("Gemini API key not configured"))
    else
      match net.geminiGenerate(cfg.geminiKey.value, GeminiPrompt(system, input, history))
      case Ok(text) =>
        TrimIdempotent(text);
        Ok(Trim(text))
      case Err(e) => Err(CallFailed("Gemini API error: " + e))
  }

  /** The completion of the configured backend, before any fallback. */
  function Dispatch(cfg: Config, net: Transport, system: string, input: string, history: seq<Turn>)
    : (r: Result<string, Failure>)
    ensures KeyMissing(cfg) <==> r.Err? && r.error.MissingKey?
    ensures r.Ok? && SelectBackend(ServiceName(cfg)) in {Ollama, Gemini} ==> Trim(r.value) == r.value
  {
    match SelectBackend(ServiceName(cfg))
    case OpenAI => OpenAICompletion(cfg, net, system, input, history)
    case Anthropic => AnthropicCompletion(cfg, net, system, input, history)
    case Gemini => GeminiCompletion(cfg, net, system, input, history)
    case Ollama => OllamaCompletion(net, system, input, history)
  }

  // ---------------------------------------------------------------------
  // Fallback and the never-failing completion
  // ---------------------------------------------------------------------

  const FallbackPhrases: seq<string> := [
    "That's great! Tell me more!",
    "Wonderful! You're doing so well!",
    "I like that! What else can you tell me?",
    "Nice! Keep practicing!",
    "Excellent! You're making great progress!"
  ]

  /** `Math.floor(random * 5)` for a random number in [0, 1): an index into the phrases. */
  function FallbackIndex(random: real): (i: int)
    requires 0.0 <= random < 1.0
    ensures 0 <= i < |FallbackPhrases|
  {
    (random * 5.0).Floor
  }

  /** Every phrase is chosen for some random number. */
  lemma EveryPhraseReachable(i: nat)
    requires i < |FallbackPhrases|
    ensures FallbackIndex(i as real / 5.0) == i
  {
    assert (i as real / 5.0) * 5.0 == i as real;
  }

  /** `getFallbackResponse`: one of the five fixed phrases, never empty. */
  function FallbackResponse(random: real): (phrase: string)
    requires 0.0 <= random < 1.0
    ensures phrase in FallbackPhrases
    ensures phrase != ""
  {
    FallbackPhrases[FallbackIndex(random)]
  }

  /**
   `getCompletion`: the configured backend's text, or a fallback phrase
   when it fails for any reason; it never fails itself.
   */
  function GetCompletion(cfg: Config, net: Transport, system: string, input: string, history: seq<Turn>,
                         random: real): (reply: string)
    requires 0.0 <= random < 1.0
    ensures Dispatch(cfg, net, system, input, history).Ok? ==> reply == Dispatch(cfg, net, system, input, history).value
    ensures Dispatch(cfg, net, system, input, history).Err? ==> reply in FallbackPhrases
  {
    match Dispatch(cfg, net, system, input, history)
    case Ok(text) => text
    case Err(_) => FallbackResponse(random)
  }

  /** A transport on which every request fails. */
  ghost predicate AllDown(net: Transport) {
    && (forall p :: net.ollamaGenerate(p).Err?)
    && (forall k, m :: net.openAIChat(k, m).Err?)
    && (forall k, s, m :: net.anthropicMessages(k, s, m).Err?)
    && (forall k, p :: net.geminiGenerate(k, p).Err?)
  }

  /** With every backend unreachable the reply is still a fixed, non-empty fallback phrase. */
  lemma AllDownGivesFallback(cfg: Config, net: Transport, system: string, input: string, history: seq<Turn>,
                             random: real)
    requires 0.0 <= random < 1.0
    requires AllDown(net)
    ensures GetCompletion(cfg, net, system, input, history, random) == FallbackResponse(random)
    ensures GetCompletion(cfg, net, system, input, history, random) in FallbackPhrases
  {
    match SelectBackend(ServiceName(cfg))
    case Ollama =>
      assert net.ollamaGenerate(OllamaPrompt(system, input, history)).Err?;
    case OpenAI =>
      if IsSet(cfg.openAIKey) {
        assert net.openAIChat(cfg.openAIKey.value, OpenAIMessages(system, input, history)).Err?;
      }
    case Anthropic =>
      if IsSet(cfg.anthropicKey) {
        assert net.anthropicMessages(cfg.anthropicKey.value, system, AnthropicMessages(input, history)).Err?;
      }
    case Gemini =>
      if IsSet(cfg.geminiKey) {
        assert net.geminiGenerate(cfg.geminiKey.value, GeminiPrompt(system, input, history)).Err?;
      }
  }

  /** The key the selected hosted backend needs is missing. */
  predicate KeyMissing(cfg: Config) {
    match SelectBackend(ServiceName(cfg))
    case OpenAI => !IsSet(cfg.openAIKey)
    case Anthropic => !IsSet(cfg.anthropicKey)
    case Gemini => !IsSet(cfg.geminiKey)
    case Ollama => false
  }

  /**
   A missing key is detected before any request: the reply is the fallback
   phrase whatever the transport would have answered.
   */
  lemma MissingKeyMakesNoCall(cfg: Config, net1: Transport, net2: Transport, system: string, input: string,
                              history: seq<Turn>, random: real)
    requires 0.0 <= random < 1.0
    requires KeyMissing(cfg)
    ensures Dispatch(cfg, net1, system, input, history).Err?
    ensures Dispatch(cfg, net1, system, input, history) == Dispatch(cfg, net2, system, input, history)
    ensures GetCompletion(cfg, net1, system, input, history, random) == FallbackResponse(random)
  {
  }

  /** Ollama and Gemini replies come back trimmed; OpenAI and Anthropic replies come back verbatim. */
  lemma ReplyTrimming(cfg: Config, net: Transport, system: string, input: string, history: seq<Turn>,
                      random: real)
    requires 0.0 <= random < 1.0
    ensures var b := SelectBackend(ServiceName(cfg));
            var reply := GetCompletion(cfg, net, system, input, history, random);
            && (b == Ollama && net.ollamaGenerate(OllamaPrompt(system, input, history)).Ok?
                ==> reply == Trim(net.ollamaGenerate(OllamaPrompt(system, input, history)).value))
            && (b == Gemini && IsSet(cfg.geminiKey)
                && net.geminiGenerate(cfg.geminiKey.value, GeminiPrompt(system, input, history)).Ok?
                ==> reply == Trim(net.geminiGenerate(cfg.geminiKey.value, GeminiPrompt(system, input, history)).value))
            && (b == OpenAI && IsSet(cfg.openAIKey)
                && net.openAIChat(cfg.openAIKey.value, OpenAIMessages(system, input, history)).Ok?
                ==> reply == net.openAIChat(cfg.openAIKey.value, OpenAIMessages(system, input, history)).value)
            && (b == Anthropic && IsSet(cfg.anthropicKey)
                && net.anthropicMessages(cfg.anthropicKey.value, system, AnthropicMessages(input, history)).Ok?
                ==> reply == net.anthropicMessages(cfg.anthropicKey.value, system, AnthropicMessages(input, history)).value)
  {
  }

  // ---------------------------------------------------------------------
  // Greeting practice
  // ---------------------------------------------------------------------

  const GreetingSystemPrompt: string :=
    "You are Alex, a friendly AI helping children with Down syndrome practice social skills. \n"
    + "You're currently teaching greetings and introductions.\n"
    + "\n"
    + "Guidelines:\n"
    + "- Use simple, clear language (5-7 word sentences max)\n"
    + "- Be encouraging and positive\n"
    + "- If child's response is appropriate, praise specifically\n"
    + "- If response needs improvement, gently guide\n"
    + "- Stay in character as a friendly peer\n"
    + "- Ask one question at a time\n"
    + "- Never use complex words or long sentences\n"
    + "- Be patient and supportive"

  /** What `getGreetingResponse` returns. */
  datatype GreetingResponse = GreetingResponse(
    aiResponse: string, feedback: seq<string>, score: int, encouragement: string)

  /**
   `getGreetingResponse`: the AI's reply under the greeting instruction,
   plus the analysis of the child's own utterance: rendered feedback lines,
   the score and the matching encouragement.
   */
  function GetGreetingResponse(cfg: Config, net: Transport, input: string, history: seq<Turn>, random: real)
    : (r: GreetingResponse)
    requires 0.0 <= random < 1.0
    ensures r.aiResponse == GetCompletion(cfg, net, GreetingSystemPrompt, input, history, random)
    ensures 0 <= r.score <= 10
    ensures r.score == ScoreOfLines(input, r.feedback)
    ensures r.feedback == RenderAll(AnalyzeGreeting(input))
    ensures r.encouragement == GetEncouragement(r.score).Message()
  {
    var items := AnalyzeGreeting(input);
    var score := CalculateScore(input, items);
    RenderedScoreAgrees(input, items);
    GreetingResponse(GetCompletion(cfg, net, GreetingSystemPrompt, input, history, random),
                     RenderAll(items), score, GetEncouragement(score).Message())
  }

  /** The analysis of the child's utterance does not depend on the backend, its reply, or the random pick. */
  lemma AnalysisIndependentOfBackend(cfg1: Config, net1: Transport, r1: real,
                                     cfg2: Config, net2: Transport, r2: real,
                                     input: string, history: seq<Turn>)
    requires 0.0 <= r1 < 1.0 && 0.0 <= r2 < 1.0
    ensures var a := GetGreetingResponse(cfg1, net1, input, history, r1);
            var b := GetGreetingResponse(cfg2, net2, input, history, r2);
            a.feedback == b.feedback && a.score == b.score && a.encouragement == b.encouragement
  {
  }
}
