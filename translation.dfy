/**
 * The Ollama translation engine's own logic: the guards and direction choice
 * of `translate`, the shape of its result, and the clean-up of the model's
 * reply.  The HTTP chat call is the parameter `chat`; Python's `str.lower`
 * is the character mapping `lower`.
 */
module Translation {
  import opened Wrappers
  import opened Text

  const DefaultModel: string := "qwen2.5:7b-instruct-q4_K_M"

  /** Openings the model sometimes adds despite its instructions, checked in this order. */
  const Preambles: seq<string> := [
    "Here is the translation:",
    "Translation:",
    "Here's the translation:",
    "Перевод:",
    "Вот перевод:"
  ]

  /** A translated segment and its metadata. */
  datatype TranslationResult = TranslationResult(
    sourceText: string,
    translatedText: string,
    sourceLanguage: string,
    targetLanguage: string,
    translationTime: real,
    model: string)
  {
    /** The `direction` property: both tags upper-cased, joined by an arrow. */
    function Direction(): (d: string)
      ensures |d| == |sourceLanguage| + 4 + |targetLanguage|
      ensures d[|sourceLanguage|..|sourceLanguage| + 4] == " -> "
      ensures forall i :: 0 <= i < |sourceLanguage| ==> d[i] == AsciiUpper(sourceLanguage[i])
      ensures forall i :: 0 <= i < |targetLanguage| ==>
        d[|sourceLanguage| + 4 + i] == AsciiUpper(targetLanguage[i])
    {
      MapChars(AsciiUpper, sourceLanguage) + " -> " + MapChars(AsciiUpper, targetLanguage)
    }

    /** The `__str__` form: the direction in brackets, then the translation. */
    function Display(): (s: string)
      ensures StartsWith(s, "[" + Direction() + "] ")
      ensures s[|Direction()| + 3..] == translatedText
    {
      "[" + Direction() + "] " + translatedText
    }
  }

  /** Which of the two system prompts a request carries. */
  datatype Prompt = RussianToEnglish | EnglishToRussian

  /** The part of the chat request that depends on the call's arguments. */
  datatype ChatRequest = ChatRequest(model: string, prompt: Prompt, userContent: string)

  datatype FailureKind = Timeout | ConnectionLost | OtherError

  /**
   * What the chat endpoint gives back: the message content with the time the
   * call took, or a failure (timeout, lost connection, an error status or an
   * unreadable body).
   */
  datatype ChatReply = Replied(content: string, elapsed: real) | Failed(kind: FailureKind)

  /** The target language for a source tag; only "ru" and "en" are known. */
  function TargetLanguage(source: string): (target: Option<string>)
    ensures target == Some("en") <==> source == "ru"
    ensures target == Some("ru") <==> source == "en"
    ensures target.None? <==> source != "ru" && source != "en"
  {
    if source == "ru" then Some("en")
    else if source == "en" then Some("ru")
    else None
  }

  /** The two known tags are each other's target, and no tag is its own target. */
  lemma TargetLanguageSwaps(source: string)
    requires TargetLanguage(source).Some?
    ensures TargetLanguage(source).value != source
    ensures TargetLanguage(TargetLanguage(source).value) == Some(source)
  {
  }

  /**
   * The request `translate` would send, or `None` when it returns before
   * sending anything: blank text, or a source tag it does not know.
   */
  function Prepare(text: string, sourceLanguage: string, model: string): (req: Option<ChatRequest>)
    ensures req.Some? <==> !AllSpace(text) && TargetLanguage(sourceLanguage).Some?
    ensures req.Some? ==> req.value.userContent == Strip(text) && req.value.model == model
    ensures req.Some? ==> (req.value.prompt == RussianToEnglish <==> sourceLanguage == "ru")
  {
    if Strip(text) == [] then None
    else if sourceLanguage == "ru" then Some(ChatRequest(model, RussianToEnglish, Strip(text)))
    else if sourceLanguage == "en" then Some(ChatRequest(model, EnglishToRussian, Strip(text)))
    else None
  }

  /**
   * `OllamaEngine.translate`: `None` for blank text, an unknown source tag or
   * any failure of the chat call; otherwise a result whose source text is the
   * stripped input and whose translation is the cleaned reply.
   */
  function Translate(text: string, sourceLanguage: string, model: string,
                     chat: ChatRequest -> ChatReply, lower: char -> char): (r: Option<TranslationResult>)
    ensures AllSpace(text) ==> r.None?
    ensures sourceLanguage != "ru" && sourceLanguage != "en" ==> r.None?
    ensures r.Some? <==> Prepare(text, sourceLanguage, model).Some?
                         && chat(Prepare(text, sourceLanguage, model).value).Replied?
    ensures r.Some? ==>
      && r.value.sourceText == Strip(text)
      && r.value.sourceLanguage == sourceLanguage
      && Some(r.value.targetLanguage) == TargetLanguage(sourceLanguage)
      && r.value.model == model
    ensures r.Some? ==>
      var reply := chat(Prepare(text, sourceLanguage, model).value);
      && r.value.translatedText == Cleaned(lower, Strip(reply.content))
      && r.value.translationTime == reply.elapsed
  {
    match Prepare(text, sourceLanguage, model)
    case None => None
    case Some(req) =>
      match chat(req)
      case Failed(_) => None
      case Replied(content, elapsed) =>
        Some(TranslationResult(req.userContent, Cleaned(lower, Strip(content)),
                               sourceLanguage, TargetLanguage(sourceLanguage).value, elapsed, model))
  }

  /**
   * When `translate` returns early it never consults the chat endpoint: its
   * answer is the same whatever the endpoint would have replied.
   */
  lemma RejectedWithoutRequest(text: string, sourceLanguage: string, model: string,
                               chat1: ChatRequest -> ChatReply, chat2: ChatRequest -> ChatReply,
                               lower: char -> char)
    requires Prepare(text, sourceLanguage, model).None?
    ensures Translate(text, sourceLanguage, model, chat1, lower) == None
    ensures Translate(text, sourceLanguage, model, chat1, lower) == Translate(text, sourceLanguage, model, chat2, lower)
  {
  }

  /** The two directions `translate` can produce, as the `direction` property shows them. */
  lemma DirectionsOfKnownTags(r: TranslationResult)
    requires (r.sourceLanguage == "ru" && r.targetLanguage == "en")
          || (r.sourceLanguage == "en" && r.targetLanguage == "ru")
    ensures r.Direction() == if r.sourceLanguage == "ru" then "RU -> EN" else "EN -> RU"
  {
    assert MapChars(AsciiUpper, "ru") == "RU";
    assert MapChars(AsciiUpper, "en") == "EN";
  }

  /** A successful translation's direction is "RU -> EN" or "EN -> RU", matching its source tag. */
  lemma DirectionOfTranslation(text: string, sourceLanguage: string, model: string,
                               chat: ChatRequest -> ChatReply, lower: char -> char)
    requires Translate(text, sourceLanguage, model, chat, lower).Some?
    ensures var d := Translate(text, sourceLanguage, model, chat, lower).value.Direction();
      d == (if sourceLanguage == "ru" then "RU -> EN" else "EN -> RU")
  {
    var r := Translate(text, sourceLanguage, model, chat, lower).value;
    DirectionsOfKnownTags(r);
  }

  /**
   * A Russian segment "Привет" whose chat reply is "Hello" becomes exactly
   * this result, whatever the case mapping.
   */
  lemma TranslatesGreeting(chat: ChatRequest -> ChatReply, lower: char -> char, t: real)
    requires chat(ChatRequest(DefaultModel, RussianToEnglish, "Привет")) == Replied("Hello", t)
    ensures Translate("Привет", "ru", DefaultModel, chat, lower)
         == Some(TranslationResult("Привет", "Hello", "ru", "en", t, DefaultModel))
  {
    GreetingRequest();
    assert IsStripped("Hello") && "Hello"[0] == 'H';
    KeepsShortPlainText(lower, "Hello");
    var r := Translate("Привет", "ru", DefaultModel, chat, lower);
    assert r.Some?;
  }

  /** A step of `TranslatesGreeting`: the greeting passes the guards and yields this request. */
  lemma GreetingRequest()
    ensures Prepare("Привет", "ru", DefaultModel) == Some(ChatRequest(DefaultModel, RussianToEnglish, "Привет"))
  {
    StripStripped("Привет");
  }

  /** Every preamble is at least eight characters long, so shorter text starts with none. */
  lemma ShortTextHasNoPreamble(lower: char -> char, s: string)
    requires |s| < 8
    ensures forall i :: 0 <= i < |Preambles| ==> !StartsWith(MapChars(lower, s), MapChars(lower, Preambles[i]))
  {
    assert |Preambles[0]| == 24 && |Preambles[1]| == 12 && |Preambles[2]| == 23;
    assert |Preambles[3]| == 8 && |Preambles[4]| == 12;
  }

  /** Python's `s[1:-1]` on a non-empty string. */
  function Inner(s: string): string
    requires |s| > 0
  {
    s[1..if |s| >= 2 then |s| - 1 else 1]
  }

  /** Remove one pair of `q` quotes wrapping the whole text, if there is one. */
  function Unquote(s: string, q: char): (r: string)
    ensures IsInfix(r, s)
  {
    if StartsWith(s, [q]) && EndsWith(s, [q]) then
      var e := if |s| >= 2 then |s| - 1 else 1;
      InfixSlice(s, 1, e);
      assert Inner(s) == s[1..e];
      Inner(s)
    else
      InfixSelf(s);
      s
  }

  /** Quoting a text and then unquoting it gives the text back. */
  lemma UnquoteQuoted(t: string, q: char)
    ensures Unquote([q] + t + [q], q) == t
  {
    var s := [q] + t + [q];
    assert s[..1] == [q];
    assert s[|s| - 1..] == [q];
  }

  /** Text that does not both start and end with `q` is left alone. */
  lemma UnquoteUnwrapped(s: string, q: char)
    requires s == [] || s[0] != q || s[|s| - 1] != q
    ensures Unquote(s, q) == s
  {
    assert StartsWith(s, [q]) ==> s[0] == q by {
      if StartsWith(s, [q]) { assert s[..1][0] == s[0]; }
    }
    assert EndsWith(s, [q]) ==> s[|s| - 1] == q by {
      if EndsWith(s, [q]) { assert s[|s| - 1..][0] == s[|s| - 1]; }
    }
  }

  /** Drop preamble `p` (compared case-insensitively) and the whitespace after it. */
  function DropPreamble(lower: char -> char, text: string, p: string): (r: string)
    ensures IsInfix(r, text)
  {
    if StartsWith(MapChars(lower, text), MapChars(lower, p)) then
      var rest := text[|p|..];
      InfixSlice(text, |p|, |text|);
      InfixTransitive(Strip(rest), rest, text);
      Strip(rest)
    else
      InfixSelf(text);
      text
  }

  /** The preamble loop: each of `ps`, in order, dropped if the text then starts with it. */
  function DropPreambles(lower: char -> char, text: string, ps: seq<string>): (r: string)
    ensures IsInfix(r, text)
  {
    if ps == [] then
      InfixSelf(text);
      text
    else
      var before := DropPreambles(lower, text, ps[..|ps| - 1]);
      var r := DropPreamble(lower, before, ps[|ps| - 1]);
      InfixTransitive(r, before, text);
      r
  }

  lemma DropPreamblesStep(lower: char -> char, text: string, ps: seq<string>, i: nat)
    requires i < |ps|
    ensures DropPreambles(lower, text, ps[..i + 1])
         == DropPreamble(lower, DropPreambles(lower, text, ps[..i]), ps[i])
  {
    assert ps[..i + 1][..i] == ps[..i];
  }

  /**
   * `_clean_output` as a value: the result is a slice of the reply with no
   * leading or trailing whitespace, never longer than the reply.
   */
  function Cleaned(lower: char -> char, text: string): (r: string)
    ensures IsStripped(r)
    ensures IsInfix(r, text) && |r| <= |text|
  {
    var unquoted := Unquote(Unquote(text, '"'), '\'');
    var dropped := DropPreambles(lower, unquoted, Preambles);
    InfixTransitive(unquoted, Unquote(text, '"'), text);
    InfixTransitive(dropped, unquoted, text);
    InfixTransitive(Strip(dropped), dropped, text);
    Strip(dropped)
  }

  /** No preamble check fires on text that starts with none of them. */
  lemma {:induction false} DropPreamblesNone(lower: char -> char, text: string, ps: seq<string>)
    requires forall i :: 0 <= i < |ps| ==> !StartsWith(MapChars(lower, text), MapChars(lower, ps[i]))
    ensures DropPreambles(lower, text, ps) == text
  {
    if ps != [] {
      DropPreamblesNone(lower, text, ps[..|ps| - 1]);
    }
  }

  /**
   * Cleaning leaves a reply alone when it is already stripped, is not wrapped
   * in quotes and opens with none of the preambles.
   */
  lemma KeepsPlainText(lower: char -> char, s: string)
    requires IsStripped(s)
    requires s == [] || (s[0] != '"' && s[0] != '\'')
    requires forall i :: 0 <= i < |Preambles| ==> !StartsWith(MapChars(lower, s), MapChars(lower, Preambles[i]))
    ensures Cleaned(lower, s) == s
  {
    UnquoteUnwrapped(s, '"');
    UnquoteUnwrapped(s, '\'');
    DropPreamblesNone(lower, s, Preambles);
    StripStripped(s);
  }

  /** A short stripped reply that does not open with a quote is never changed. */
  lemma KeepsShortPlainText(lower: char -> char, s: string)
    requires IsStripped(s) && |s| < 8
    requires s == [] || (s[0] != '"' && s[0] != '\'')
    ensures Strip(s) == s && Cleaned(lower, s) == s
  {
    StripStripped(s);
    ShortTextHasNoPreamble(lower, s);
    KeepsPlainText(lower, s);
  }

  /** Stripping a single leading space off a stripped text gives that text. */
  lemma StripLeadingSpace(s: string)
    requires IsStripped(s) && s != []
    ensures Strip([' '] + s) == s
  {
    var t := [' '] + s;
    assert t[1..] == s;
    assert LeadingCount(IsSpace, t) == 1 + LeadingCount(IsSpace, s);
    assert LeadingCount(IsSpace, s) == 0;
    assert t[|t| - 1] == s[|s| - 1];
    assert TrailingCount(IsSpace, t) == 0;
    assert t[1..|t|] == s;
  }

  /**
   * The turn of the preamble loop that first matches: when none of the
   * preambles before `ps[k]` opens the text and `ps[k]` does (as the case
   * mapping sees it), the first `k + 1` turns leave the text after `ps[k]`,
   * stripped.
   */
  lemma DropPreamblesFirstMatch(lower: char -> char, text: string, ps: seq<string>, k: nat)
    requires k < |ps|
    requires forall i :: 0 <= i < k ==> !StartsWith(MapChars(lower, text), MapChars(lower, ps[i]))
    requires StartsWith(MapChars(lower, text), MapChars(lower, ps[k]))
    ensures DropPreambles(lower, text, ps[..k + 1]) == Strip(text[|ps[k]|..])
  {
    var before := ps[..k];
    assert forall i :: 0 <= i < |before| ==> before[i] == ps[i];
    DropPreamblesNone(lower, text, before);
    PreambleMatches(lower, text, ps[k]);
    DropPreamblesStep(lower, text, ps, k);
  }

  /**
   * The remaining turns of the preamble loop: once the text is shorter than
   * every preamble still to be tried, it is left as it is.
   */
  lemma {:induction false} DropPreamblesShortRest(lower: char -> char, text: string, ps: seq<string>,
                                                  k: nat, r: string)
    requires k <= |ps| && DropPreambles(lower, text, ps[..k]) == r
    requires forall i :: k <= i < |ps| ==> |r| < |ps[i]|
    ensures DropPreambles(lower, text, ps) == r
    decreases |ps| - k
  {
    if k == |ps| {
      assert ps[..k] == ps;
    } else {
      NoPreambleWhenShorter(lower, r, ps[k]);
      DropPreamblesStep(lower, text, ps, k);
      DropPreamblesShortRest(lower, text, ps, k + 1, r);
    }
  }

  /**
   * A reply of 12 to 22 characters that opens with "Translation:" (as the
   * case mapping sees it), and whose rest strips to under 8 characters,
   * loses exactly that preamble and the whitespace after it: the first
   * preamble is longer than the reply, and the last three are longer than
   * what is left.
   */
  lemma DropsTranslationPreamble(lower: char -> char, t: string)
    requires 12 <= |t| < 23
    requires StartsWith(MapChars(lower, t), MapChars(lower, Preambles[1]))
    requires |Strip(t[12..])| < 8
    ensures DropPreambles(lower, t, Preambles) == Strip(t[12..])
  {
    assert |Preambles[0]| == 24 && |Preambles[1]| == 12 && |Preambles[2]| == 23;
    assert |Preambles[3]| == 8 && |Preambles[4]| == 12;
    DropsSecondOfFive(lower, t, Preambles);
  }

  /**
   * A step of `DropsTranslationPreamble`: five preambles of which only the
   * second fits, and no later one fits what it leaves.
   */
  lemma DropsSecondOfFive(lower: char -> char, t: string, ps: seq<string>)
    requires |ps| == 5 && |t| < |ps[0]|
    requires StartsWith(MapChars(lower, t), MapChars(lower, ps[1]))
    requires var rest := Strip(t[|ps[1]|..]); |rest| < |ps[2]| && |rest| < |ps[3]| && |rest| < |ps[4]|
    ensures DropPreambles(lower, t, ps) == Strip(t[|ps[1]|..])
  {
    var rest := Strip(t[|ps[1]|..]);
    forall i | 1 < i < |ps|
      ensures |rest| < |ps[i]|
    {
      assert i == 2 || i == 3 || i == 4;
    }
    DropsOnlyMatch(lower, t, ps, 1);
  }

  /**
   * The whole preamble loop when `ps[k]` is the first preamble to open the
   * text and the rest it leaves is shorter than every later preamble.
   */
  lemma DropsOnlyMatch(lower: char -> char, text: string, ps: seq<string>, k: nat)
    requires k < |ps|
    requires forall i :: 0 <= i < k ==> |text| < |ps[i]|
    requires StartsWith(MapChars(lower, text), MapChars(lower, ps[k]))
    requires forall i :: k < i < |ps| ==> |Strip(text[|ps[k]|..])| < |ps[i]|
    ensures DropPreambles(lower, text, ps) == Strip(text[|ps[k]|..])
  {
    forall i | 0 <= i < k
      ensures !StartsWith(MapChars(lower, text), MapChars(lower, ps[i]))
    {
      NoPreambleWhenShorter(lower, text, ps[i]);
    }
    DropPreamblesFirstMatch(lower, text, ps, k);
    DropPreamblesShortRest(lower, text, ps, k + 1, Strip(text[|ps[k]|..]));
  }

  /** A text that starts with a preamble loses it and the whitespace after it. */
  lemma PreambleMatches(lower: char -> char, s: string, p: string)
    requires StartsWith(MapChars(lower, s), MapChars(lower, p))
    ensures DropPreamble(lower, s, p) == Strip(s[|p|..])
  {
  }

  /** A text shorter than a preamble never starts with it, and dropping it changes nothing. */
  lemma NoPreambleWhenShorter(lower: char -> char, s: string, p: string)
    requires |s| < |p|
    ensures !StartsWith(MapChars(lower, s), MapChars(lower, p))
    ensures DropPreamble(lower, s, p) == s
  {
  }

  /**
   * Such a reply is cleaned to the text after its preamble, whether or not
   * the model wrapped it in double quotes.
   */
  lemma CleansTranslationPreamble(lower: char -> char, t: string)
    requires 12 <= |t| < 23 && t[0] != '"' && t[0] != '\''
    requires StartsWith(MapChars(lower, t), MapChars(lower, Preambles[1]))
    requires |Strip(t[12..])| < 8
    ensures Cleaned(lower, t) == Strip(t[12..])
    ensures Cleaned(lower, ['"'] + t + ['"']) == Strip(t[12..])
  {
    UnquoteUnwrapped(t, '"');
    UnquoteUnwrapped(t, '\'');
    UnquoteQuoted(t, '"');
    DropsTranslationPreamble(lower, t);
    StripIdempotent(t[12..]);
  }

  /** A step of `CleansLowerCasePreamble`: the remainder " Hello" strips to "Hello". */
  lemma HelloRemainder(t: string)
    requires t == "translation: Hello"
    ensures Strip(t[12..]) == "Hello"
  {
    assert t[12..] == [' '] + "Hello";
    assert IsStripped("Hello") by { assert "Hello"[0] == 'H' && "Hello"[4] == 'o'; }
    StripLeadingSpace("Hello");
  }

  /**
   * A step of `CleansLowerCasePreamble`: a lower-case "translation:" opening
   * matches the preamble once 't' and 'T' fold together.
   */
  lemma LowerCaseOpeningMatches(lower: char -> char, t: string)
    requires lower('t') == lower('T')
    requires t == "translation: Hello"
    ensures StartsWith(MapChars(lower, t), MapChars(lower, Preambles[1]))
  {
    var lt, lp := MapChars(lower, t), MapChars(lower, Preambles[1]);
    assert |lp| == 12;
    forall i | 0 <= i < 12 ensures lt[i] == lp[i] {
      if i == 0 { assert t[0] == 't' && Preambles[1][0] == 'T'; }
      else { assert t[i] == Preambles[1][i]; }
    }
    assert lt[..12] == lp;
  }

  /**
   * The preamble is compared case-insensitively: with a case mapping that
   * folds 't' and 'T' together, "translation: Hello" in double quotes
   * cleans to "Hello".
   */
  lemma CleansLowerCasePreamble(lower: char -> char, t: string)
    requires lower('t') == lower('T')
    requires t == "translation: Hello"
    ensures Cleaned(lower, ['"'] + t + ['"']) == "Hello"
  {
    HelloRemainder(t);
    LowerCaseOpeningMatches(lower, t);
    assert |t| == 18 && t[0] == 't';
    CleansTranslationPreamble(lower, t);
  }

  /** When every chat call fails, `translate` returns `None` for every text and tag. */
  lemma FailingChatNeverTranslates(text: string, sourceLanguage: string, model: string,
                                   chat: ChatRequest -> ChatReply, lower: char -> char)
    requires forall req :: chat(req).Failed?
    ensures Translate(text, sourceLanguage, model, chat, lower) == None
  {
  }

  /**
   * `_clean_output` step by step: unwrap double quotes, then single quotes,
   * then try every preamble in order, then strip.
   */
  method CleanOutput(lower: char -> char, text: string) returns (r: string)
    ensures r == Cleaned(lower, text)
  {
    r := text;
    if StartsWith(r, ['"']) && EndsWith(r, ['"']) {
      r := Inner(r);
    }
    assert r == Unquote(text, '"');
    if StartsWith(r, ['\'']) && EndsWith(r, ['\'']) {
      r := Inner(r);
    }
    ghost var unquoted := r;
    assert unquoted == Unquote(Unquote(text, '"'), '\'');
    for i := 0 to |Preambles|
      invariant r == DropPreambles(lower, unquoted, Preambles[..i])
    {
      var p := Preambles[i];
      ghost var before := r;
      if StartsWith(MapChars(lower, r), MapChars(lower, p)) {
        r := Strip(r[|p|..]);
      }
      assert r == DropPreamble(lower, before, p);
      DropPreamblesStep(lower, unquoted, Preambles, i);
    }
    assert Preambles[..|Preambles|] == Preambles;
    r := Strip(r);
  }
}
