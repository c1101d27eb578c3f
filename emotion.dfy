/** The text-emotion helper of the hand-gesture music tool: the language model is
    asked for a digit 1-5 and its answer is read defensively; every failure falls
    back to 3 ("neutral"). The model call itself is a parameter. */
module Emotion {
  import opened Common

  /** The characters Python's `str.strip()` removes (`str.isspace`). */
  predicate IsPySpace(c: char) {
    || c == ' ' || ('\t' <= c <= '\r') || ('\U{1C}' <= c <= '\U{1F}') || c == '\U{85}' || c == '\U{A0}'
    || c == '\U{1680}' || ('\U{2000}' <= c <= '\U{200A}') || c == '\U{2028}' || c == '\U{2029}'
    || c == '\U{202F}' || c == '\U{205F}' || c == '\U{3000}'
  }

  function TrimStart(s: string): (r: string)
    ensures |r| <= |s| && (r == [] || !IsPySpace(r[0]))
    ensures forall i :: 0 <= i < |s| - |r| ==> IsPySpace(s[i])
    ensures r == s[|s| - |r|..]
  {
    if s != [] && IsPySpace(s[0]) then TrimStart(s[1..]) else s
  }

  function TrimEnd(s: string): (r: string)
    ensures |r| <= |s| && (r == [] || !IsPySpace(r[|r| - 1]))
    ensures forall i :: |r| <= i < |s| ==> IsPySpace(s[i])
    ensures r == s[..|r|]
  {
    if s != [] && IsPySpace(s[|s| - 1]) then TrimEnd(s[..|s| - 1]) else s
  }

  /** `s.strip()`. */
  function Strip(s: string): string {
    TrimEnd(TrimStart(s))
  }

  /** Only strings of whitespace strip to the empty string. */
  lemma StripEmptyIff(s: string)
    ensures Strip(s) == [] <==> forall i :: 0 <= i < |s| ==> IsPySpace(s[i])
  {
  }

  predicate IsEmotionDigit(c: char) {
    '1' <= c <= '5'
  }

  /** `_validate_response`: the first character 1-5 anywhere in the answer, as a
      number (`re.search(r'[1-5]', ...)`), or 3 when there is none. */
  function ValidateResponse(response: string): (r: int)
    ensures 1 <= r <= 5
    ensures (forall i :: 0 <= i < |response| ==> !IsEmotionDigit(response[i])) ==> r == 3
    ensures forall i ::
              (0 <= i < |response| && IsEmotionDigit(response[i])
               && forall j :: 0 <= j < i ==> !IsEmotionDigit(response[j]))
              ==> r == response[i] as int - '0' as int
  {
    if response == [] then 3
    else if IsEmotionDigit(response[0]) then response[0] as int - '0' as int
    else
      var r := ValidateResponse(response[1..]);
      assert forall i :: 1 <= i < |response| ==> response[i] == response[1..][i - 1];
      r
  }

  /** The first matching character wins, so "10" reads as 1 and "7 or 4" as 4. */
  lemma FirstDigitWins()
    ensures ValidateResponse("10") == 1
    ensures ValidateResponse("7 or 4") == 4
    ensures ValidateResponse("none") == 3
  {
  }

  /** The `text` argument of `analyze_emotion`, as far as its guards tell values
      apart: a string, `None`, or another value that is truthy or falsy. */
  datatype Arg = PyStr(s: string) | PyNone | PyOther(truthy: bool)

  /** The outcome of `analyze_emotion`: the number, and the stripped text the model
      was asked about (None when it was not asked). */
  datatype Analysis = Analysis(emotion: int, asked: Option<string>)

  /** `analyze_emotion(text)`. `reply` is the model's answer for the stripped text,
      None for any exception the call or the answer's unpacking raises. */
  function AnalyzeEmotion(text: Arg, reply: string -> Option<string>): (r: Analysis)
    ensures 1 <= r.emotion <= 5
  {
    var falsy := text.PyNone? || (text.PyStr? && text.s == []) || (text.PyOther? && !text.truthy);
    if falsy || !text.PyStr? then Analysis(3, None)
    else
      var t := Strip(text.s);
      if t == [] then Analysis(3, None)
      else
        match reply(t)
        case None => Analysis(3, Some(t))
        case Some(answer) => Analysis(ValidateResponse(Strip(answer)), Some(t))
  }

  /** A non-string text, or one that strips to nothing (see `StripEmptyIff`),
      gives 3 without asking the model; otherwise the model is asked about the
      stripped text, a failed call gives 3 and an answer is stripped and
      validated. */
  lemma AnalyzeOutcome(text: Arg, reply: string -> Option<string>)
    ensures !text.PyStr? ==> AnalyzeEmotion(text, reply) == Analysis(3, None)
    ensures text.PyStr? && Strip(text.s) == [] ==> AnalyzeEmotion(text, reply) == Analysis(3, None)
    ensures text.PyStr? && Strip(text.s) != [] ==>
      var t := Strip(text.s);
      AnalyzeEmotion(text, reply) == Analysis(if reply(t).None? then 3 else ValidateResponse(Strip(reply(t).value)), Some(t))
  {
    if text.PyStr? && text.s == [] {
      assert Strip(text.s) == [];
    }
  }

  /** `EMOTION_MAP`. */
  const Sad := "슬픔"
  const Calm := "평온"
  const Neutral := "중립"
  const Happy := "행복"
  const Excited := "흥분"

  /** `get_emotion_name(n)` for an integer: `EMOTION_MAP.get(str(n), "중립")`. */
  function GetEmotionName(n: int): (name: string)
    ensures name in {Sad, Calm, Neutral, Happy, Excited}
    ensures n < 1 || n > 5 ==> name == Neutral
  {
    if n == 1 then Sad
    else if n == 2 then Calm
    else if n == 3 then Neutral
    else if n == 4 then Happy
    else if n == 5 then Excited
    else Neutral
  }

  /** Numbers 1-5 get five different names; every other number gets the name of 3. */
  lemma EmotionNames(n: int, m: int)
    ensures GetEmotionName(n) == Neutral <==> n == 3 || n < 1 || n > 5
    ensures 1 <= n <= 5 && 1 <= m <= 5 && n != m ==> GetEmotionName(n) != GetEmotionName(m)
  {
  }

  /** The analysis always names one of the five emotions. */
  lemma AnalysisIsNamed(text: Arg, reply: string -> Option<string>)
    ensures GetEmotionName(AnalyzeEmotion(text, reply).emotion) in {Sad, Calm, Neutral, Happy, Excited}
  {
  }
}
