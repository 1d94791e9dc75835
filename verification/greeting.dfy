/**
 The greeting-practice analyser of the AI service: the child's utterance is
 checked by keyword and length heuristics into an ordered list of tagged
 feedback items, the items are turned into a score clamped to 0..10, and
 the score into one of four encouragement tiers.
 */
module GreetingAnalysis {
  import opened JsText

  // ---------------------------------------------------------------------
  // Feedback items
  // ---------------------------------------------------------------------

  /** What kind of remark a feedback item is; only the first two are scored. */
  datatype Tag = Positive | Warning | Hint

  /** The eight feedback lines the analyser can emit. */
  datatype Item =
    | GreatGreeting | IntroducedSelf | SoPolite | NiceQuestion
    | TooShort | TooLong | GoodLength
    | TryHello
  {
    function Message(): string {
      match this
      case GreatGreeting => "Great greeting!"
      case IntroducedSelf => "You introduced yourself!"
      case SoPolite => "So polite!"
      case NiceQuestion => "Nice question!"
      case TooShort => "Try saying a bit more next time"
      case TooLong => "Try to keep it shorter and simpler"
      case GoodLength => "Good response length!"
      case TryHello => "Try starting with 'Hi' or 'Hello'"
    }

    /** One of the three items judging the utterance's length. */
    predicate IsLength() {
      TooShort? || TooLong? || GoodLength?
    }

    /** Position of the item's check in the analyser's fixed order. */
    function Rank(): nat {
      match this
      case GreatGreeting => 0
      case IntroducedSelf => 1
      case SoPolite => 2
      case NiceQuestion => 3
      case TooShort | TooLong | GoodLength => 4
      case TryHello => 5
    }
  }

  function TagOf(item: Item): Tag {
    match item
    case TooShort | TooLong => Warning
    case TryHello => Hint
    case _ => Positive
  }

  /**
   The mark a rendered feedback line starts with, character for character
   as the service's source text holds it: the UTF-8 bytes of a check mark,
   a warning sign and a light bulb, each read back as single-byte
   characters, so a mark is three or four characters long.
   */
  function Mark(t: Tag): string {
    match t
    case Positive => "\U{E2}\U{153}\U{201C}"
    case Warning => "\U{E2}\U{161}\U{A0}"
    case Hint => "\U{11F}\U{178}\U{2019}\U{A1}"
  }

  /** The feedback line as the service returns it: mark, space, message. */
  function Render(item: Item): (line: string)
    ensures StartsWith(line, Mark(TagOf(item)) + " ")
    ensures |item.Message()| <= |line| && line[|line| - |item.Message()|..] == item.Message()
    ensures |line| == |Mark(TagOf(item))| + 1 + |item.Message()|
  {
    Mark(TagOf(item)) + " " + item.Message()
  }

  function RenderAll(items: seq<Item>): (lines: seq<string>)
    ensures |lines| == |items|
    ensures forall k :: 0 <= k < |items| ==> lines[k] == Render(items[k])
  {
    seq(|items|, k requires 0 <= k < |items| => Render(items[k]))
  }

  /** The items strictly follow the analyser's check order (so none repeats). */
  predicate Ordered(items: seq<Item>) {
    forall i, j :: 0 <= i < j < |items| ==> items[i].Rank() < items[j].Rank()
  }

  // ---------------------------------------------------------------------
  // Counting
  // ---------------------------------------------------------------------

  /** Number of items carrying tag `t`. */
  function CountTag(items: seq<Item>, t: Tag): nat {
    if items == [] then 0
    else (if TagOf(items[0]) == t then 1 else 0) + CountTag(items[1..], t)
  }

  lemma {:induction false} CountTagAppend(a: seq<Item>, b: seq<Item>, t: Tag)
    ensures CountTag(a + b, t) == CountTag(a, t) + CountTag(b, t)
  {
    if a != [] {
      assert (a + b)[1..] == a[1..] + b;
      CountTagAppend(a[1..], b, t);
    } else {
      assert a + b == b;
    }
  }

  /** No item carries `t` exactly when the count of `t` is zero. */
  lemma {:induction false} CountTagZero(items: seq<Item>, t: Tag)
    ensures CountTag(items, t) == 0 <==> forall k :: 0 <= k < |items| ==> TagOf(items[k]) != t
  {
    if items != [] {
      CountTagZero(items[1..], t);
      if CountTag(items, t) == 0 {
        forall k | 0 <= k < |items|
          ensures TagOf(items[k]) != t
        {
          if k > 0 {
            assert items[k] == items[1..][k - 1];
          }
        }
      }
      if forall k :: 0 <= k < |items| ==> TagOf(items[k]) != t {
        assert TagOf(items[0]) != t;
        forall k | 0 <= k < |items| - 1
          ensures TagOf(items[1..][k]) != t
        {
          assert items[1..][k] == items[k + 1];
        }
      }
    }
  }

  /** Number of lines that start with `prefix`, as `filter(f => f.startsWith(prefix)).length`. */
  function CountPrefixed(lines: seq<string>, prefix: string): nat {
    if lines == [] then 0
    else (if StartsWith(lines[0], prefix) then 1 else 0) + CountPrefixed(lines[1..], prefix)
  }

  /** A rendered line starts with the mark of a tag exactly when it carries that tag. */
  lemma RenderedMark(item: Item, t: Tag)
    ensures StartsWith(Render(item), Mark(t)) <==> TagOf(item) == t
  {
    var m := Mark(TagOf(item));
    var r := Render(item);
    assert r[..|m|] == m;
    assert r[0] == m[0] && r[1] == m[1];
  }

  /** Counting rendered lines by their mark counts the items by their tag. */
  lemma {:induction false} CountPrefixedRendered(items: seq<Item>, t: Tag)
    ensures CountPrefixed(RenderAll(items), Mark(t)) == CountTag(items, t)
  {
    if items != [] {
      RenderedMark(items[0], t);
      assert RenderAll(items)[1..] == RenderAll(items[1..]);
      CountPrefixedRendered(items[1..], t);
    }
  }

  // ---------------------------------------------------------------------
  // Score
  // ---------------------------------------------------------------------

  /** JavaScript `Math.round`: the nearest integer, halves rounded up. */
  function JsRound(x: real): (r: int)
    ensures x - 0.5 < r as real <= x + 0.5
  {
    (x + 0.5).Floor
  }

  /** The service's arithmetic: 2.5 per positive, -1 per warning, rounded, clamped to 0..10. */
  function ScoreFromCounts(positives: nat, warnings: nat): int {
    var raw := positives as real * 2.5 - warnings as real;
    var rounded := JsRound(raw);
    if rounded > 10 then 10 else if rounded < 0 then 0 else rounded
  }

  /**
   The score of a feedback list. The utterance `text` is accepted but
   unused, as in the service; hint items count neither way.
   */
  function CalculateScore(text: string, items: seq<Item>): (score: int)
    ensures 0 <= score <= 10
  {
    ScoreFromCounts(CountTag(items, Positive), CountTag(items, Warning))
  }

  /** The score as the service computes it, on rendered lines classified by their first mark. */
  function ScoreOfLines(text: string, lines: seq<string>): (score: int)
    ensures 0 <= score <= 10
  {
    ScoreFromCounts(CountPrefixed(lines, Mark(Positive)), CountPrefixed(lines, Mark(Warning)))
  }

  /** Scoring by tag is the same as scoring the rendered lines by their marks. */
  lemma RenderedScoreAgrees(text: string, items: seq<Item>)
    ensures ScoreOfLines(text, RenderAll(items)) == CalculateScore(text, items)
  {
    CountPrefixedRendered(items, Positive);
    CountPrefixedRendered(items, Warning);
  }

  function Clamp(x: int): int {
    if x < 0 then 0 else if x > 10 then 10 else x
  }

  lemma FloorOfHalf(n: int)
    ensures ((n as real) / 2.0).Floor == n / 2
  {
    var q, r := n / 2, n % 2;
    assert n == 2 * q + r;
    assert (n as real) / 2.0 == q as real + (r as real) / 2.0;
  }

  /**
   Integer form of the score: with p positives and w warnings the score is
   the clamp of floor((5p - 2w + 1) / 2), i.e. round(2.5p - w) with halves up.
   */
  lemma ScoreFormula(text: string, items: seq<Item>)
    ensures CalculateScore(text, items)
         == Clamp((5 * CountTag(items, Positive) - 2 * CountTag(items, Warning) + 1) / 2)
  {
    var p: int, w: int := CountTag(items, Positive), CountTag(items, Warning);
    var n: int := 5 * p - 2 * w + 1;
    assert p as real * 2.5 - w as real + 0.5 == (n as real) / 2.0;
    FloorOfHalf(n);
  }

  /** The score depends only on the numbers of positive and warning items. */
  lemma ScoreDependsOnlyOnCounts(t1: string, a: seq<Item>, t2: string, b: seq<Item>)
    requires CountTag(a, Positive) == CountTag(b, Positive)
    requires CountTag(a, Warning) == CountTag(b, Warning)
    ensures CalculateScore(t1, a) == CalculateScore(t2, b)
  {
  }

  /** Adding a hint never changes the score. */
  lemma HintDoesNotScore(text: string, items: seq<Item>)
    ensures CalculateScore(text, items + [TryHello]) == CalculateScore(text, items)
  {
    CountTagAppend(items, [TryHello], Positive);
    CountTagAppend(items, [TryHello], Warning);
  }

  /** An extra positive item never lowers the score; an extra warning never raises it. */
  lemma ScoreMonotone(text: string, items: seq<Item>, extra: Item)
    ensures TagOf(extra) == Positive ==> CalculateScore(text, items + [extra]) >= CalculateScore(text, items)
    ensures TagOf(extra) == Warning ==> CalculateScore(text, items + [extra]) <= CalculateScore(text, items)
  {
    CountTagAppend(items, [extra], Positive);
    CountTagAppend(items, [extra], Warning);
    ScoreFormula(text, items);
    ScoreFormula(text, items + [extra]);
  }

  // ---------------------------------------------------------------------
  // Analysis
  // ---------------------------------------------------------------------

  predicate HasGreeting(lower: string) {
    Includes(lower, "hi") || Includes(lower, "hello") || Includes(lower, "hey")
  }

  predicate HasIntroduction(lower: string) {
    Includes(lower, "my name") || Includes(lower, "i'm") || Includes(lower, "i am")
  }

  predicate HasPoliteness(lower: string) {
    Includes(lower, "please") || Includes(lower, "thank")
  }

  predicate HasQuestion(lower: string) {
    Includes(lower, "?") || Includes(lower, "how are") || Includes(lower, "what")
  }

  /** `text.split(' ').length`. */
  function WordCount(text: string): nat {
    |Split(text, ' ')|
  }

  /** The word count is one more than the number of space characters. */
  lemma WordCountSpaces(text: string)
    ensures WordCount(text) == multiset(text)[' '] + 1
  {
    SplitCount(text, ' ');
  }

  function LengthItem(wordCount: nat): (item: Item)
    ensures item.IsLength()
    ensures TagOf(item) == Positive <==> 3 <= wordCount <= 15
    ensures TagOf(item) == Warning <==> wordCount < 3 || wordCount > 15
    ensures item == TooShort <==> wordCount < 3
    ensures item == TooLong <==> wordCount > 15
  {
    if wordCount < 3 then TooShort
    else if wordCount > 15 then TooLong
    else GoodLength
  }

  /** `[item]` when the check fired, nothing otherwise. */
  function When(fired: bool, item: Item): seq<Item> {
    if fired then [item] else []
  }

  /** Keyword items: at most four, positive, in check order, before any length item. */
  predicate KeywordShaped(items: seq<Item>) {
    && |items| <= 4
    && Ordered(items)
    && forall k :: 0 <= k < |items| ==> items[k].Rank() < 4
  }

  /** The items of the four keyword checks, given which of them fired. */
  function FiredItems(greeting: bool, intro: bool, polite: bool, question: bool): (items: seq<Item>)
    ensures KeywordShaped(items)
    ensures GreatGreeting in items <==> greeting
    ensures IntroducedSelf in items <==> intro
    ensures SoPolite in items <==> polite
    ensures NiceQuestion in items <==> question
  {
    var front: seq<Item> := When(greeting, GreatGreeting) + When(intro, IntroducedSelf);
    var back: seq<Item> := When(polite, SoPolite) + When(question, NiceQuestion);
    FrontShape(greeting, intro);
    BackShape(polite, question);
    ConcatShape(front, back);
    front + back
  }

  /** Items of ranks below 2 followed by items of ranks 2 and 3 keep the keyword shape. */
  lemma ConcatShape(front: seq<Item>, back: seq<Item>)
    requires |front| <= 2 && Ordered(front) && forall k :: 0 <= k < |front| ==> front[k].Rank() < 2
    requires |back| <= 2 && Ordered(back) && forall k :: 0 <= k < |back| ==> 2 <= back[k].Rank() < 4
    ensures KeywordShaped(front + back)
  {
    var items := front + back;
    forall i, j | 0 <= i < j < |items|
      ensures items[i].Rank() < items[j].Rank()
    {
      if j < |front| {
      } else if i >= |front| {
        assert items[i] == back[i - |front|];
        assert items[j] == back[j - |front|];
      } else {
        assert items[j] == back[j - |front|];
      }
    }
    forall k | 0 <= k < |items|
      ensures items[k].Rank() < 4
    {
      if k >= |front| {
        assert items[k] == back[k - |front|];
      }
    }
  }

  /** The greeting and introduction items: ranks 0 and 1, present as fired. */
  lemma FrontShape(greeting: bool, intro: bool)
    ensures var front := When(greeting, GreatGreeting) + When(intro, IntroducedSelf);
            && |front| <= 2 && Ordered(front)
            && (forall k :: 0 <= k < |front| ==> front[k].Rank() < 2)
            && (GreatGreeting in front <==> greeting) && (IntroducedSelf in front <==> intro)
            && SoPolite !in front && NiceQuestion !in front
  {
  }

  /** The politeness and question items: ranks 2 and 3, present as fired. */
  lemma BackShape(polite: bool, question: bool)
    ensures var back := When(polite, SoPolite) + When(question, NiceQuestion);
            && |back| <= 2 && Ordered(back)
            && (forall k :: 0 <= k < |back| ==> 2 <= back[k].Rank() < 4)
            && (SoPolite in back <==> polite) && (NiceQuestion in back <==> question)
            && GreatGreeting !in back && IntroducedSelf !in back
  {
  }

  /** The four keyword checks, in order, on the lower-cased utterance. */
  function KeywordItems(lower: string): (items: seq<Item>)
    ensures KeywordShaped(items)
    ensures GreatGreeting in items <==> HasGreeting(lower)
    ensures IntroducedSelf in items <==> HasIntroduction(lower)
    ensures SoPolite in items <==> HasPoliteness(lower)
    ensures NiceQuestion in items <==> HasQuestion(lower)
  {
    FiredItems(HasGreeting(lower), HasIntroduction(lower), HasPoliteness(lower), HasQuestion(lower))
  }

  /** Every item with rank below 4 is positive, so keyword items all count. */
  lemma {:induction false} KeywordsArePositive(items: seq<Item>)
    requires forall k :: 0 <= k < |items| ==> items[k].Rank() < 4
    ensures CountTag(items, Positive) == |items|
  {
    if items != [] {
      assert items[0].Rank() < 4;
      forall k | 0 <= k < |items| - 1
        ensures items[1..][k].Rank() < 4
      {
        assert items[1..][k] == items[k + 1];
      }
      KeywordsArePositive(items[1..]);
    }
  }

  /** Appending an item ranked after every item of an ordered list keeps it ordered. */
  lemma OrderedAppend(a: seq<Item>, x: Item)
    requires Ordered(a)
    requires forall k :: 0 <= k < |a| ==> a[k].Rank() < x.Rank()
    ensures Ordered(a + [x])
  {
    var b := a + [x];
    forall i, j | 0 <= i < j < |b|
      ensures b[i].Rank() < b[j].Rank()
    {
      assert b[i] == a[i];
      if j < |a| {
        assert b[j] == a[j];
      } else {
        assert b[j] == x;
      }
    }
  }

  /** Keyword items followed by the length item: ordered, and all ranked at most 4. */
  lemma ChecksShape(keywords: seq<Item>, len: Item)
    requires KeywordShaped(keywords) && len.IsLength()
    ensures Ordered(keywords + [len])
    ensures forall k :: 0 <= k < |keywords + [len]| ==> (keywords + [len])[k].Rank() < TryHello.Rank()
  {
    OrderedAppend(keywords, len);
    var checks := keywords + [len];
    forall k | 0 <= k < |checks|
      ensures checks[k].Rank() < TryHello.Rank()
    {
      if k < |keywords| {
        assert checks[k] == keywords[k];
      } else {
        assert checks[k] == len;
      }
    }
  }

  /** Keyword items, the length item, and the hint when nothing was positive. */
  function Assemble(keywords: seq<Item>, len: Item): (items: seq<Item>)
    requires KeywordShaped(keywords) && len.IsLength()
    ensures items == keywords + [len] || items == keywords + [len, TryHello]
    ensures 1 <= |items| <= 5
    ensures Ordered(items)
    ensures TryHello in items <==> CountTag(items, Positive) == 0
  {
    var checks := keywords + [len];
    ChecksShape(keywords, len);
    KeywordsArePositive(keywords);
    CountTagAppend(keywords, [len], Positive);
    if CountTag(checks, Positive) == 0 then
      CountTagAppend(checks, [TryHello], Positive);
      OrderedAppend(checks, TryHello);
      assert checks + [TryHello] == keywords + [len, TryHello];
      checks + [TryHello]
    else
      assert TryHello !in checks by {
        forall k | 0 <= k < |checks|
          ensures checks[k] != TryHello
        {
          assert checks[k].Rank() < TryHello.Rank();
        }
      }
      checks
  }

  /**
   `analyzeGreeting`: keyword items, then exactly one length item, then a
   hint when no positive item was produced.
   */
  function AnalyzeGreeting(text: string): (items: seq<Item>)
    ensures 1 <= |items| <= 5
    ensures Ordered(items)
    ensures TryHello in items <==> CountTag(items, Positive) == 0
  {
    Assemble(KeywordItems(ToLower(text)), LengthItem(WordCount(text)))
  }

  /** Assembling keeps exactly the keyword items that were found. */
  lemma AssembleKeepsKeywords(keywords: seq<Item>, len: Item, it: Item)
    requires KeywordShaped(keywords) && len.IsLength() && it.Rank() < 4
    ensures it in Assemble(keywords, len) <==> it in keywords
  {
    var items := Assemble(keywords, len);
    if it in items {
      var k :| 0 <= k < |items| && items[k] == it;
      assert k < |keywords|;
      assert keywords[k] == it;
    }
  }

  /** Each keyword item is present exactly when its keywords occur in the lower-cased text. */
  lemma KeywordItemsPresent(text: string)
    ensures GreatGreeting in AnalyzeGreeting(text) <==> HasGreeting(ToLower(text))
    ensures IntroducedSelf in AnalyzeGreeting(text) <==> HasIntroduction(ToLower(text))
    ensures SoPolite in AnalyzeGreeting(text) <==> HasPoliteness(ToLower(text))
    ensures NiceQuestion in AnalyzeGreeting(text) <==> HasQuestion(ToLower(text))
  {
    var keywords := KeywordItems(ToLower(text));
    var len := LengthItem(WordCount(text));
    AssembleKeepsKeywords(keywords, len, GreatGreeting);
    AssembleKeepsKeywords(keywords, len, IntroducedSelf);
    AssembleKeepsKeywords(keywords, len, SoPolite);
    AssembleKeepsKeywords(keywords, len, NiceQuestion);
  }

  /** Exactly one length item is emitted. */
  lemma OneLengthItem(text: string)
    ensures var items := AnalyzeGreeting(text);
            exists k :: 0 <= k < |items| && items[k] == LengthItem(WordCount(text))
                        && forall j :: 0 <= j < |items| && j != k ==> !items[j].IsLength()
  {
    var keywords := KeywordItems(ToLower(text));
    var len := LengthItem(WordCount(text));
    var items := AnalyzeGreeting(text);
    assert items == Assemble(keywords, len);
    AssembleOneLength(keywords, len);
    var k := |keywords|;
    assert items[k] == len;
  }

  /**
   The length item is a warning when the number of space-separated
   segments is below 3 or above 15, and positive otherwise.
   */
  lemma LengthItemTag(text: string)
    ensures TagOf(LengthItem(WordCount(text))) == Warning
            <==> multiset(text)[' '] + 1 < 3 || multiset(text)[' '] + 1 > 15
    ensures TagOf(LengthItem(WordCount(text))) == Positive
            <==> 3 <= multiset(text)[' '] + 1 <= 15
  {
    WordCountSpaces(text);
  }

  /** The length item sits right after the keyword items and is the only one. */
  lemma AssembleOneLength(keywords: seq<Item>, len: Item)
    requires KeywordShaped(keywords) && len.IsLength()
    ensures var items := Assemble(keywords, len);
            && items[|keywords|] == len
            && forall j :: 0 <= j < |items| && j != |keywords| ==> !items[j].IsLength()
  {
    var items := Assemble(keywords, len);
    var k := |keywords|;
    forall j | 0 <= j < |items| && j != k
      ensures !items[j].IsLength()
    {
      if j < k {
        assert items[j] == keywords[j];
        assert items[j].Rank() < 4;
      } else {
        assert items[j] == TryHello;
      }
    }
  }

  /** The hint comes last and only ever follows a length warning: [warning, hint]. */
  lemma HintOnlyAfterLengthWarning(text: string)
    requires TryHello in AnalyzeGreeting(text)
    ensures AnalyzeGreeting(text) == [LengthItem(WordCount(text)), TryHello]
    ensures TagOf(LengthItem(WordCount(text))) == Warning
  {
    var keywords := KeywordItems(ToLower(text));
    var len := LengthItem(WordCount(text));
    var items := AnalyzeGreeting(text);
    KeywordsArePositive(keywords);
    CountTagAppend(keywords, [len], Positive);
    assert items == keywords + [len, TryHello];
    CountTagAppend(keywords + [len], [TryHello], Positive);
    assert (keywords + [len]) + [TryHello] == items;
    assert CountTag(keywords + [len], Positive) == 0;
  }

  /** Whenever the hint is given the score is 0. */
  lemma HintMeansZeroScore(text: string)
    requires TryHello in AnalyzeGreeting(text)
    ensures CalculateScore(text, AnalyzeGreeting(text)) == 0
  {
    HintOnlyAfterLengthWarning(text);
    var items := AnalyzeGreeting(text);
    CountTagAppend([LengthItem(WordCount(text))], [TryHello], Warning);
    assert CountTag(items, Positive) == 0;
  }

  /** The analysis has one positive per keyword item plus a good length, and at most one warning. */
  lemma AssembleCounts(keywords: seq<Item>, len: Item)
    requires KeywordShaped(keywords) && len.IsLength()
    ensures CountTag(Assemble(keywords, len), Positive)
            == |keywords| + (if TagOf(len) == Positive then 1 else 0)
    ensures CountTag(Assemble(keywords, len), Warning) == (if TagOf(len) == Warning then 1 else 0)
  {
    var checks := keywords + [len];
    KeywordsArePositive(keywords);
    CountTagZero(keywords, Warning);
    CountTagAppend(keywords, [len], Positive);
    CountTagAppend(keywords, [len], Warning);
    CountTagAppend(checks, [TryHello], Positive);
    CountTagAppend(checks, [TryHello], Warning);
    assert keywords + [len, TryHello] == checks + [TryHello];
  }

  /**
   The scores an analysed utterance can reach: with at most four keyword
   items and one length item, 1 and 6 never occur.
   */
  lemma AnalysisScores(text: string)
    ensures CalculateScore(text, AnalyzeGreeting(text)) in {0, 2, 3, 4, 5, 7, 8, 9, 10}
  {
    var keywords := KeywordItems(ToLower(text));
    var len := LengthItem(WordCount(text));
    AssembleCounts(keywords, len);
    ScoreFormula(text, AnalyzeGreeting(text));
  }

  // ---------------------------------------------------------------------
  // Encouragement
  // ---------------------------------------------------------------------

  /** The four encouragement tiers, lowest first. */
  datatype Tier = NiceTry | GoodJob | Excellent | Outstanding
  {
    /**
     The tier's message; its closing emoji is spelled as in the source text,
     byte-wise re-read, and the two middle tiers end in the same cut-short
     three characters.
     */
    function Message(): string {
      match this
      case Outstanding => "Outstanding! You're a natural! \U{11F}\U{178}\U{152}\U{178}"
      case Excellent => "Excellent work! Keep it up! \U{11F}\U{178}\U{2018}"
      case GoodJob => "Good job! You're improving! \U{11F}\U{178}\U{2018}"
      case NiceTry => "Nice try! Let's practice more! \U{11F}\U{178}\U{2019}\U{AA}"
    }

    function Level(): nat {
      match this
      case NiceTry => 0
      case GoodJob => 1
      case Excellent => 2
      case Outstanding => 3
    }
  }

  /** `getEncouragement`: tier boundaries at 9, 7 and 5. */
  function GetEncouragement(score: int): (tier: Tier)
    ensures tier == Outstanding <==> score >= 9
    ensures tier == Excellent <==> 7 <= score < 9
    ensures tier == GoodJob <==> 5 <= score < 7
    ensures tier == NiceTry <==> score < 5
  {
    if score >= 9 then Outstanding
    else if score >= 7 then Excellent
    else if score >= 5 then GoodJob
    else NiceTry
  }

  /** A higher score never earns a lower tier. */
  lemma EncouragementMonotone(s1: int, s2: int)
    requires s1 <= s2
    ensures GetEncouragement(s1).Level() <= GetEncouragement(s2).Level()
  {
  }

  // ---------------------------------------------------------------------
  // Worked examples
  // ---------------------------------------------------------------------

  /** "this" contains "hi", so a substring check counts it as a greeting. */
  lemma ThisCountsAsGreeting()
    ensures HasGreeting(ToLower("this"))
  {
    assert ToLower("this") == "this";
    assert "this"[1..][..2] == "hi";
  }

  /** The empty utterance is one word: too short, with the hint, scoring 0. */
  lemma EmptyUtterance()
    ensures AnalyzeGreeting("") == [TooShort, TryHello]
    ensures CalculateScore("", AnalyzeGreeting("")) == 0
  {
    assert ToLower("") == "";
    assert !HasGreeting("") && !HasIntroduction("") && !HasPoliteness("") && !HasQuestion("");
    assert KeywordItems("") == FiredItems(false, false, false, false) == [];
    assert WordCount("") == 1;
    AssembleTooShortAlone();
    HintMeansZeroScore("");
  }

  /** A too-short utterance with no keyword gets the hint after its length warning. */
  lemma AssembleTooShortAlone()
    ensures Assemble([], TooShort) == [TooShort, TryHello]
  {
    assert [] + [TooShort] == [TooShort];
    assert CountTag([TooShort], Positive) == 0;
  }

  /** The greeting, self-introduction and question checks all fire on the example utterance. */
  lemma ExampleKeywords(t: string)
    requires t == "Hi, I'm Sam, how are you?"
    ensures |KeywordItems(ToLower(t))| >= 3
  {
    var lower := ToLower(t);
    assert t[0] == 'H' && t[1] == 'i' && t[4] == 'I' && t[5] == '\'' && t[6] == 'm' && t[24] == '?';
    assert lower[0] == 'h' && lower[1] == 'i';
    assert lower[0..2] == "hi";
    assert OccursAt(lower, "hi", 0);
    IncludesIffOccurs(lower, "hi");
    assert lower[4] == 'i' && lower[5] == '\'' && lower[6] == 'm';
    assert lower[4..7] == "i'm";
    assert OccursAt(lower, "i'm", 4);
    IncludesIffOccurs(lower, "i'm");
    assert lower[24..25] == "?";
    assert OccursAt(lower, "?", 24);
    IncludesIffOccurs(lower, "?");
  }

  /** The last three words of the example, joined. */
  lemma ExampleTail()
    ensures Join(["how", "are", "you?"], ' ') == "how are you?"
  {
    JoinCons("are", ["you?"], ' ');
    assert ["are"] + ["you?"] == ["are", "you?"];
    JoinCons("how", ["are", "you?"], ' ');
    assert ["how"] + ["are", "you?"] == ["how", "are", "you?"];
  }

  /** The last four words of the example, joined. */
  lemma ExampleQuestion()
    ensures Join(["Sam,", "how", "are", "you?"], ' ') == "Sam, how are you?"
  {
    ExampleTail();
    JoinCons("Sam,", ["how", "are", "you?"], ' ');
    assert ["Sam,"] + ["how", "are", "you?"] == ["Sam,", "how", "are", "you?"];
  }

  /** The last five words of the example, joined. */
  lemma ExampleMiddle()
    ensures Join(["I'm", "Sam,", "how", "are", "you?"], ' ') == "I'm Sam, how are you?"
  {
    ExampleQuestion();
    JoinCons("I'm", ["Sam,", "how", "are", "you?"], ' ');
    assert ["I'm"] + ["Sam,", "how", "are", "you?"] == ["I'm", "Sam,", "how", "are", "you?"];
  }

  /** The example utterance is its six words joined with spaces. */
  lemma ExampleJoin(words: seq<string>)
    requires words == ["Hi,", "I'm", "Sam,", "how", "are", "you?"]
    ensures Join(words, ' ') == "Hi, I'm Sam, how are you?"
  {
    ExampleMiddle();
    JoinCons("Hi,", ["I'm", "Sam,", "how", "are", "you?"], ' ');
    assert ["Hi,"] + ["I'm", "Sam,", "how", "are", "you?"] == words;
  }

  /** The example has five spaces, so six words. */
  lemma ExampleWords(t: string)
    requires t == "Hi, I'm Sam, how are you?"
    ensures WordCount(t) == 6
  {
    var words := ["Hi,", "I'm", "Sam,", "how", "are", "you?"];
    ExampleJoin(words);
    SplitJoin(words, ' ');
  }

  /** Three keyword items and a good length already reach the full 10. */
  lemma ThreeKeywordsAndGoodLength(text: string)
    requires |KeywordItems(ToLower(text))| >= 3
    requires 3 <= WordCount(text) <= 15
    ensures CalculateScore(text, AnalyzeGreeting(text)) == 10
  {
    var keywords := KeywordItems(ToLower(text));
    var items := AnalyzeGreeting(text);
    assert LengthItem(WordCount(text)) == GoodLength;
    AssembleCounts(keywords, GoodLength);
    assert CountTag(items, Positive) >= 4 && CountTag(items, Warning) == 0;
    ScoreFormula(text, items);
  }

  /** A greeting, an introduction and a question in six words score the full 10. */
  lemma FullMarksExample(t: string)
    requires t == "Hi, I'm Sam, how are you?"
    ensures CalculateScore(t, AnalyzeGreeting(t)) == 10
  {
    ExampleKeywords(t);
    ExampleWords(t);
    ThreeKeywordsAndGoodLength(t);
  }
}
