/** The `[EMOTION] body` convention the model is asked to answer in, and how a raw reply is
    split into an emotion tag and a body (src/ai.py:107-117). */
module ResponseParser {
  import opened PyText

  const Neutral: string := "neutral"

  /** The tags the system prompt asks the model to choose from (src/ai.py:53). */
  const PromptedEmotions: seq<string> :=
    ["LOVE", "COMFORT", "HAPPY", "SAD", "WORRIED", "PLAYFUL", "SHY", "NEUTRAL"]

  /** A tag the prompt offers, once lower-cased as the parser reports it. */
  predicate IsPromptedEmotion(e: string) {
    exists k :: 0 <= k < |PromptedEmotions| && Lower(PromptedEmotions[k]) == e
  }

  datatype ParsedReply = ParsedReply(emotion: string, body: string)

  /** `i` is the index of the first `c` in `s`. */
  predicate FirstAt(s: string, c: char, i: int) {
    0 <= i < |s| && s[i] == c && c !in s[..i]
  }

  /** Parse a raw model reply (src/ai.py:107-117): strip it, and split it at its first `[` and
      first `]` when it holds both. */
  function Parse(raw: string): ParsedReply {
    var s := Strip(raw);
    if '[' in s && ']' in s then
      var start := Find(s, '[') + 1;
      var end := Find(s, ']');
      ParsedReply(Lower(Strip(Slice(s, start, end))), Strip(SliceFrom(s, end + 1)))
    else
      ParsedReply(Neutral, s)
  }

  /** A reply holding both brackets: the emotion is the text between the first `[` and the first
      `]`, stripped and lower-cased, and the body is what follows the first `]`, stripped. Nothing
      checks that `[` comes first: when the first `]` precedes the first `[`, the slice between
      them is empty and so is the emotion. */
  lemma ParseBracketed(raw: string, i: int, j: int)
    requires FirstAt(Strip(raw), '[', i) && FirstAt(Strip(raw), ']', j)
    ensures var s := Strip(raw);
      Parse(raw) == ParsedReply(if i < j then Lower(Strip(s[i + 1..j])) else "", Strip(s[j + 1..]))
  {
    var s := Strip(raw);
    var a, b := Find(s, '['), Find(s, ']');
    assert FirstAt(s, '[', a) && FirstAt(s, ']', b);
    FirstAtUnique(s, '[', a, i);
    FirstAtUnique(s, ']', b, j);
  }

  /** A reply lacking either bracket is neutral, and its body is the whole stripped reply. */
  lemma ParseUnbracketed(raw: string)
    requires '[' !in Strip(raw) || ']' !in Strip(raw)
    ensures Parse(raw) == ParsedReply(Neutral, Strip(raw))
  {
  }

  lemma FirstAtUnique(s: string, c: char, i: int, j: int)
    requires FirstAt(s, c, i) && FirstAt(s, c, j)
    ensures i == j
  {
  }

  /** A reply in the prompted form `[tag] body`. */
  function Format(tag: string, body: string): string {
    "[" + tag + "] " + body
  }

  /** Formatting then parsing gives back the tag, stripped and lower-cased, and the body, stripped,
      for any tag free of `]` and any body whatever, brackets included. */
  lemma ParseFormat(tag: string, body: string)
    requires ']' !in tag
    ensures Parse(Format(tag, body)) == ParsedReply(Lower(Strip(tag)), Strip(body))
  {
    var head := "[" + tag + "]";
    var tail := " " + body;
    var raw := Format(tag, body);
    assert raw == head + tail;
    assert LStrip(raw) == raw;
    RStripConcat(head, tail);
    assert RStrip(head) == head;
    var s := Strip(raw);
    assert s == head + RStrip(tail);
    var j := |tag| + 1;
    assert s[..j] == "[" + tag;
    assert FirstAt(s, '[', 0);
    assert FirstAt(s, ']', j);
    ParseBracketed(raw, 0, j);
    assert s[1..j] == tag;
    assert s[j + 1..] == RStrip(tail);
    StripOfRStrip(tail);
    StripAfterSpace(" ", body);
  }

  /** A shortened reply in the style of the system prompt's first example parses to `love` and
      its body; the general case is `ParseFormat`. */
  lemma ParseLoveExample()
    ensures Parse("[LOVE] 愛しい人…") == ParsedReply("love", "愛しい人…")
  {
    assert Strip("LOVE") == "LOVE";
    assert Lower("LOVE") == "love";
    assert Strip("愛しい人…") == "愛しい人…";
    assert Format("LOVE", "愛しい人…") == "[LOVE] 愛しい人…";
    ParseFormat("LOVE", "愛しい人…");
  }

  /** A reply with no tag is neutral and kept whole. */
  lemma ParsePlainExample()
    ensures Parse("hello") == ParsedReply(Neutral, "hello")
  {
    assert Strip("hello") == "hello";
  }

  /** A tag outside the prompted list is passed through, lower-cased; the system prompt's own
      singing example uses one. */
  lemma UnpromptedTagPassesThrough(body: string)
    ensures Parse(Format("SINGING", body)).emotion == "singing"
    ensures !IsPromptedEmotion("singing")
  {
    assert Strip("SINGING") == "SINGING";
    assert Lower("SINGING") == "singing";
    ParseFormat("SINGING", body);
    SingingIsNotPrompted();
  }

  lemma SingingIsNotPrompted()
    ensures !IsPromptedEmotion("singing")
  {
    forall k | 0 <= k < |PromptedEmotions| ensures Lower(PromptedEmotions[k]) != "singing" {
      var e := PromptedEmotions[k];
      assert |e| != 7 || LowerChar(e[0]) != 's' by {
        assert k in {0, 1, 2, 3, 4, 5, 6, 7};
      }
      LowerDiffers(e, "singing");
    }
  }

  lemma LowerDiffers(e: string, t: string)
    requires t != [] && (|e| != |t| || LowerChar(e[0]) != t[0])
    ensures Lower(e) != t
  {
    if |e| == |t| { assert Lower(e)[0] == LowerChar(e[0]); }
  }

  /** Brackets in the wrong order: the emotion is empty and the body starts after the first `]`. */
  lemma ParseReversedBrackets()
    ensures Parse("a] b [c") == ParsedReply("", "b [c")
  {
    var s := "a] b [c";
    assert Strip(s) == s;
    assert FirstAt(s, '[', 5);
    assert FirstAt(s, ']', 1);
    assert s[2..] == " b [c";
    StripAfterSpace(" ", "b [c");
    assert Strip("b [c") == "b [c";
  }
}
