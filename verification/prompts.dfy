/**
 The prompts the AI service builds from a system instruction, the prior
 conversation and the child's new utterance: a plain-text prompt for the
 local Ollama model ("Child"/"Alex" speakers), a plain-text prompt for
 Gemini ("User"/"AI" speakers, empty history omitted), and role-tagged
 message arrays for OpenAI (system message first) and Anthropic (no
 system entry; the instruction travels separately).
 */
module Prompts {
  import opened JsText

  /** One history entry as the front-end sends it; any role other than "user" is the AI. */
  datatype Turn = Turn(role: string, message: string)

  predicate FromChild(t: Turn) {
    t.role == "user"
  }

  // ---------------------------------------------------------------------
  // Text prompts
  // ---------------------------------------------------------------------

  /** Speaker labels of a text prompt: the child's and the AI's. */
  datatype Speakers = Speakers(child: string, ai: string)

  const OllamaSpeakers := Speakers("Child", "Alex")
  const GeminiSpeakers := Speakers("User", "AI")

  /** "<speaker>: <message>" for one turn. */
  function TurnLine(sp: Speakers, t: Turn): (line: string)
    ensures FromChild(t) ==> StartsWith(line, sp.child + ": ")
    ensures !FromChild(t) ==> StartsWith(line, sp.ai + ": ")
    ensures |t.message| <= |line| && line[|line| - |t.message|..] == t.message
  {
    (if FromChild(t) then sp.child else sp.ai) + ": " + t.message
  }

  function TranscriptLines(sp: Speakers, history: seq<Turn>): (lines: seq<string>)
    ensures |lines| == |history|
    ensures forall k :: 0 <= k < |history| ==> lines[k] == TurnLine(sp, history[k])
  {
    seq(|history|, k requires 0 <= k < |history| => TurnLine(sp, history[k]))
  }

  /** The history rendered one turn per line, `history.map(...).join('\n')`. */
  function Transcript(sp: Speakers, history: seq<Turn>): (text: string)
    ensures |history| > 0 ==> StartsWith(text, TurnLine(sp, history[0]))
    ensures |history| > 0 ==> |history[|history| - 1].message| <= |text| && text[|text| - |history[|history| - 1].message|..] == history[|history| - 1].message
  {
    var lines := TranscriptLines(sp, history);
    if |lines| > 0 then
      JoinEnds(lines, '\n');
      Join(lines, '\n')
    else
      Join(lines, '\n')
  }

  /**
   The Ollama prompt, line by line: instruction, blank, "Conversation so
   far:", the transcript (a blank line when the history is empty), blank,
   the child's new line and the cue "Alex:".
   */
  function OllamaPrompt(system: string, input: string, history: seq<Turn>): (prompt: string)
    ensures StartsWith(prompt, system)
    ensures |"Alex:"| <= |prompt| && prompt[|prompt| - |"Alex:"|..] == "Alex:"
  {
    var parts := [system, "", "Conversation so far:", Transcript(OllamaSpeakers, history),
                  "", "Child: " + input, "Alex:"];
    JoinEnds(parts, '\n');
    Join(parts, '\n')
  }

  /**
   The Gemini prompt, line by line: instruction, blank, the transcript
   only when it is non-empty, the user's new line and the cue "AI:".
   */
  function GeminiPrompt(system: string, input: string, history: seq<Turn>): (prompt: string)
    ensures StartsWith(prompt, system)
    ensures |"AI:"| <= |prompt| && prompt[|prompt| - |"AI:"|..] == "AI:"
  {
    var conversation := Transcript(GeminiSpeakers, history);
    var parts := [system, ""] + (if conversation != "" then [conversation] else [])
                 + ["User: " + input, "AI:"];
    JoinEnds(parts, '\n');
    Join(parts, '\n')
  }

  /** No line break in a piece of text. */
  predicate SingleLine(s: string) {
    '\n' !in s
  }

  predicate SingleLineTurns(history: seq<Turn>) {
    forall k :: 0 <= k < |history| ==> SingleLine(history[k].message)
  }

  lemma TurnLineSingle(sp: Speakers, t: Turn)
    requires SingleLine(sp.child) && SingleLine(sp.ai) && SingleLine(t.message)
    ensures SingleLine(TurnLine(sp, t))
  {
    var speaker := if FromChild(t) then sp.child else sp.ai;
    assert TurnLine(sp, t) == speaker + ": " + t.message;
    assert SingleLine(": ");
  }

  /**
   When no message contains a line break, splitting the transcript at line
   breaks gives back one line per turn, in the history's order.
   */
  lemma TranscriptRoundTrip(sp: Speakers, history: seq<Turn>)
    requires SingleLine(sp.child) && SingleLine(sp.ai) && SingleLineTurns(history)
    requires |history| > 0
    ensures Split(Transcript(sp, history), '\n') == TranscriptLines(sp, history)
  {
    var lines := TranscriptLines(sp, history);
    forall k | 0 <= k < |lines|
      ensures '\n' !in lines[k]
    {
      TurnLineSingle(sp, history[k]);
    }
    SplitJoin(lines, '\n');
  }

  /** The transcript is empty exactly when the history is. */
  lemma TranscriptEmpty(sp: Speakers, history: seq<Turn>)
    ensures Transcript(sp, history) == "" <==> history == []
  {
    var lines := TranscriptLines(sp, history);
    if history != [] {
      assert |lines[0]| > 0 by {
        assert lines[0] == TurnLine(sp, history[0]);
      }
      if |lines| > 1 {
        assert Join(lines, '\n') == lines[0] + ['\n'] + Join(lines[1..], '\n');
      }
    }
  }

  /**
   The lines of one turn: the speaker label goes on the first line of the
   message only, and any further lines of a multi-line message follow
   without a label.
   */
  lemma TurnLineSplit(sp: Speakers, t: Turn)
    requires SingleLine(sp.child) && SingleLine(sp.ai)
    ensures var speaker := if FromChild(t) then sp.child else sp.ai;
            var body := Split(t.message, '\n');
            Split(TurnLine(sp, t), '\n') == [speaker + ": " + body[0]] + body[1..]
  {
    var speaker := if FromChild(t) then sp.child else sp.ai;
    assert SingleLine(speaker + ": ") by { assert SingleLine(": "); }
    assert TurnLine(sp, t) == (speaker + ": ") + t.message;
    SplitPrefix(speaker + ": ", t.message, '\n');
  }

  /** The lines of the rendered history: the lines of each turn, turn after turn. */
  function HistoryLines(sp: Speakers, history: seq<Turn>): seq<string> {
    SplitEach(TranscriptLines(sp, history), '\n')
  }

  /** With single-line messages, each turn is exactly one line of the rendered history. */
  lemma HistoryLinesSingle(sp: Speakers, history: seq<Turn>)
    requires SingleLine(sp.child) && SingleLine(sp.ai) && SingleLineTurns(history)
    ensures HistoryLines(sp, history) == TranscriptLines(sp, history)
  {
    var lines := TranscriptLines(sp, history);
    forall k | 0 <= k < |lines|
      ensures '\n' !in lines[k]
    {
      TurnLineSingle(sp, history[k]);
    }
    SplitEachWithout(lines, '\n');
  }

  /** Splitting the rendered history at line breaks gives the lines of every turn in order. */
  lemma TranscriptSplit(sp: Speakers, history: seq<Turn>)
    requires |history| > 0
    ensures Split(Transcript(sp, history), '\n') == HistoryLines(sp, history)
  {
    SplitJoinEach(TranscriptLines(sp, history), '\n');
  }

  /** Appending a last piece to joined pieces appends its lines to the result. */
  lemma LinesSnoc(init: seq<string>, last: string)
    requires |init| > 0
    ensures Split(Join(init + [last], '\n'), '\n') == Split(Join(init, '\n'), '\n') + Split(last, '\n')
  {
    JoinAppend(init, [last], '\n');
    SplitAround(Join(init, '\n'), last, '\n');
  }

  /** The lines of four joined pieces are the lines of each piece in turn. */
  lemma LinesOfFour(a: string, b: string, c: string, d: string)
    ensures Split(Join([a, b, c, d], '\n'), '\n')
            == Split(a, '\n') + Split(b, '\n') + Split(c, '\n') + Split(d, '\n')
  {
    LinesSnoc([a], b);
    assert [a] + [b] == [a, b];
    LinesSnoc([a, b], c);
    assert [a, b] + [c] == [a, b, c];
    LinesSnoc([a, b, c], d);
    assert [a, b, c] + [d] == [a, b, c, d];
  }

  /** The lines of five joined pieces are the lines of each piece in turn. */
  lemma LinesOfFive(a: string, b: string, c: string, d: string, e: string)
    ensures Split(Join([a, b, c, d, e], '\n'), '\n')
            == Split(a, '\n') + Split(b, '\n') + Split(c, '\n') + Split(d, '\n') + Split(e, '\n')
  {
    LinesOfFour(a, b, c, d);
    LinesSnoc([a, b, c, d], e);
    assert [a, b, c, d] + [e] == [a, b, c, d, e];
  }

  /** The lines of seven joined pieces are the lines of each piece in turn. */
  lemma LinesOfSeven(a: string, b: string, c: string, d: string, e: string, f: string, g: string)
    ensures Split(Join([a, b, c, d, e, f, g], '\n'), '\n')
            == Split(a, '\n') + Split(b, '\n') + Split(c, '\n') + Split(d, '\n')
               + Split(e, '\n') + Split(f, '\n') + Split(g, '\n')
  {
    LinesOfFive(a, b, c, d, e);
    LinesSnoc([a, b, c, d, e], f);
    assert [a, b, c, d, e] + [f] == [a, b, c, d, e, f];
    LinesSnoc([a, b, c, d, e, f], g);
    assert [a, b, c, d, e, f] + [g] == [a, b, c, d, e, f, g];
  }

  /** The lines of the Ollama prompt's seven pieces, for any instruction, history text and input line. */
  lemma OllamaShape(system: string, heading: string, t: string, child: string, cue: string, lines: seq<string>)
    requires Split(t, '\n') == lines
    requires SingleLine(heading) && SingleLine(cue)
    ensures Split(Join([system, "", heading, t, "", child, cue], '\n'), '\n')
            == Split(system, '\n') + [""] + [heading] + lines + [""] + Split(child, '\n') + [cue]
  {
    LinesOfSeven(system, "", heading, t, "", child, cue);
    SplitWithout("", '\n');
    SplitWithout(heading, '\n');
    SplitWithout(cue, '\n');
  }

  /** The lines of a transcript: one blank line when there is no history, else every turn's lines. */
  lemma TranscriptTextLines(sp: Speakers, history: seq<Turn>)
    ensures Split(Transcript(sp, history), '\n')
            == if history == [] then [""] else HistoryLines(sp, history)
  {
    if history == [] {
      assert Transcript(sp, history) == "";
    } else {
      TranscriptSplit(sp, history);
    }
  }

  /**
   The Ollama prompt's lines are: the lines of the instruction, a blank
   line, the heading, the lines of every history turn in order (a single
   blank line for an empty history), a blank line, the lines of the
   child's new utterance with the "Child: " label on the first, and the cue.
   */
  lemma OllamaPromptLines(system: string, input: string, history: seq<Turn>)
    ensures Split(OllamaPrompt(system, input, history), '\n')
            == Split(system, '\n') + [""] + ["Conversation so far:"]
               + (if history == [] then [""] else HistoryLines(OllamaSpeakers, history))
               + [""] + Split("Child: " + input, '\n') + ["Alex:"]
  {
    TranscriptTextLines(OllamaSpeakers, history);
    assert SingleLine("Conversation so far:") && SingleLine("Alex:");
    OllamaShape(system, "Conversation so far:", Transcript(OllamaSpeakers, history), "Child: " + input, "Alex:",
                if history == [] then [""] else HistoryLines(OllamaSpeakers, history));
  }

  /** The lines of the Gemini prompt's pieces when the history text is present. */
  lemma GeminiShape(system: string, t: string, user: string, cue: string, lines: seq<string>)
    requires Split(t, '\n') == lines && SingleLine(cue)
    ensures Split(Join([system, "", t, user, cue], '\n'), '\n')
            == Split(system, '\n') + [""] + lines + Split(user, '\n') + [cue]
  {
    LinesOfFive(system, "", t, user, cue);
    SplitWithout("", '\n');
    SplitWithout(cue, '\n');
  }

  /** The lines of the Gemini prompt's pieces when the history text is left out. */
  lemma GeminiShapeNoHistory(system: string, user: string, cue: string)
    requires SingleLine(cue)
    ensures Split(Join([system, "", user, cue], '\n'), '\n')
            == Split(system, '\n') + [""] + Split(user, '\n') + [cue]
  {
    LinesOfFour(system, "", user, cue);
    SplitWithout("", '\n');
    SplitWithout(cue, '\n');
  }

  /**
   The Gemini prompt's lines are: the lines of the instruction, a blank
   line, the lines of every history turn in order (none at all for an empty
   history), the lines of the user's new utterance with the "User: " label
   on the first, and the cue.
   */
  lemma GeminiPromptLines(system: string, input: string, history: seq<Turn>)
    ensures Split(GeminiPrompt(system, input, history), '\n')
            == Split(system, '\n') + [""] + HistoryLines(GeminiSpeakers, history)
               + Split("User: " + input, '\n') + ["AI:"]
  {
    var t := Transcript(GeminiSpeakers, history);
    var user := "User: " + input;
    TranscriptEmpty(GeminiSpeakers, history);
    if history == [] {
      assert [system, ""] + [] + [user, "AI:"] == [system, "", user, "AI:"];
      GeminiShapeNoHistory(system, user, "AI:");
      assert HistoryLines(GeminiSpeakers, history) == [];
    } else {
      assert [system, ""] + [t] + [user, "AI:"] == [system, "", t, user, "AI:"];
      TranscriptSplit(GeminiSpeakers, history);
      GeminiShape(system, t, user, "AI:", HistoryLines(GeminiSpeakers, history));
    }
  }

  // ---------------------------------------------------------------------
  // Message arrays
  // ---------------------------------------------------------------------

  datatype ChatRole = System | User | Assistant

  datatype ChatMessage = ChatMessage(role: ChatRole, content: string)

  function ChatTurn(t: Turn): (m: ChatMessage)
    ensures m.content == t.message
    ensures m.role == User <==> FromChild(t)
    ensures m.role != System
  {
    ChatMessage(if FromChild(t) then User else Assistant, t.message)
  }

  /** The history as chat messages, turn by turn. */
  function ChatHistory(history: seq<Turn>): (msgs: seq<ChatMessage>)
    ensures |msgs| == |history|
    ensures forall k :: 0 <= k < |history| ==> msgs[k] == ChatTurn(history[k])
  {
    seq(|history|, k requires 0 <= k < |history| => ChatTurn(history[k]))
  }

  /** The Anthropic `messages` array: the history, then the new utterance as a user message. */
  function AnthropicMessages(input: string, history: seq<Turn>): (msgs: seq<ChatMessage>)
    ensures |msgs| == |history| + 1
    ensures forall k :: 0 <= k < |msgs| ==> msgs[k].role != System
  {
    ChatHistory(history) + [ChatMessage(User, input)]
  }

  /** The OpenAI `messages` array: the system message, the history, the new utterance. */
  function OpenAIMessages(system: string, input: string, history: seq<Turn>): (msgs: seq<ChatMessage>)
    ensures |msgs| == |history| + 2
    ensures msgs[0] == ChatMessage(System, system)
    ensures forall k :: 1 <= k < |msgs| ==> msgs[k].role != System
  {
    [ChatMessage(System, system)] + AnthropicMessages(input, history)
  }

  /**
   Both message arrays keep every history turn, in order, with its text,
   mapping "user" to the user role and anything else to the assistant;
   the new utterance is the last message, from the user.
   */
  lemma MessagesPreserveHistory(system: string, input: string, history: seq<Turn>)
    ensures var a := AnthropicMessages(input, history);
            && a[|history|] == ChatMessage(User, input)
            && forall k :: 0 <= k < |history| ==>
                 a[k].content == history[k].message && (a[k].role == User <==> FromChild(history[k]))
    ensures var o := OpenAIMessages(system, input, history);
            && o[|history| + 1] == ChatMessage(User, input)
            && forall k :: 0 <= k < |history| ==>
                 o[k + 1].content == history[k].message && (o[k + 1].role == User <==> FromChild(history[k]))
  {
  }
}
