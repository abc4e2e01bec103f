/** The interaction loops of src/main.py (`MainApp`): mode selection, the chat loop with its exit
    keyword, and the voice loop that retries on an empty transcript; both catch every per-turn
    exception and go on. Each turn's typed line or transcript, and what the exchange with the
    model gave back, are given to the loops as a sequence of events. */
module Interaction {
  import opened Wrappers
  import opened PyText

  /** What awaiting the exchange for one input gave: it raised, or it returned the response dict,
      whose `text` entry may be missing. */
  datatype Answer = AnswerRaised | Answered(text: Option<string>)

  /** One chat-loop iteration: `input()` returned a line, with what the exchange for it would give,
      or `input()` raised. */
  datatype ChatEvent = Typed(line: string, answer: Answer) | ReadFailed

  /** One voice-loop iteration: `recognize()` returned a transcript, with what the exchange for it
      would give, or `recognize()` raised. */
  datatype VoiceEvent = Heard(transcript: string, answer: Answer) | RecognizeFailed

  /** The loop flag, the inputs handed to the exchange and the texts handed to `speak`, in order. */
  datatype Loop = Loop(running: bool, asked: seq<string>, spoken: seq<string>)

  const ExitKeyword: string := "exit"
  const MissingTextFallback: string := "Maaf, aku tidak bisa menjawab itu."

  /** `response.get("text", fallback)` */
  function ResponseText(text: Option<string>): (r: string)
    ensures text.Some? ==> r == text.value
    ensures text.None? ==> r == MissingTextFallback
  {
    text.GetOr(MissingTextFallback)
  }

  /** `user_input.lower().strip() == "exit"` */
  predicate IsExitCommand(line: string) {
    Strip(Lower(line)) == ExitKeyword
  }

  /** The keyword matches in any case and with surrounding whitespace, and nothing else around it. */
  lemma ExitCommandExamples()
    ensures IsExitCommand("exit") && IsExitCommand("EXIT") && IsExitCommand("  Exit\n")
    ensures !IsExitCommand("exit now") && !IsExitCommand("quit")
  {
    assert Lower("EXIT") == "exit";
    assert Lower("  Exit\n") == "  exit\n";
    assert LStrip("  exit\n") == "exit\n";
    assert Strip("  exit\n") == "exit";
    assert Strip(Lower("exit now")) == "exit now";
    assert Strip(Lower("quit")) == "quit";
  }

  /** Lower-casing and stripping commute, so the keyword test reads the trimmed line. */
  lemma ExitCommandTrimmed(line: string)
    ensures IsExitCommand(line) <==> Lower(Strip(line)) == ExitKeyword
  {
    LowerStrip(line);
  }

  predicate IsExitEvent(e: ChatEvent) {
    e.Typed? && IsExitCommand(e.line)
  }

  /** The texts `speak` receives after an answer: the response text, unless the exchange raised. */
  function Spoken(answer: Answer): seq<string> {
    match answer
    case AnswerRaised => []
    case Answered(t) => [ResponseText(t)]
  }

  /** One chat iteration from a running loop. The exit keyword stops the loop without calling the
      model; a failed read changes nothing; any other line goes to the exchange, and its answer is
      spoken unless the exchange raised. */
  function ChatStep(st: Loop, e: ChatEvent): (r: Loop)
    ensures r.running == (st.running && !IsExitEvent(e))
    ensures IsExitEvent(e) ==> r.asked == st.asked && r.spoken == st.spoken
  {
    match e
    case ReadFailed => st
    case Typed(line, answer) =>
      if IsExitCommand(line) then st.(running := false)
      else Loop(st.running, st.asked + [line], st.spoken + Spoken(answer))
  }

  /** The chat loop: `while self.running`, over the remaining events. */
  function ChatFrom(st: Loop, events: seq<ChatEvent>): Loop
    decreases |events|
  {
    if !st.running || events == [] then st else ChatFrom(ChatStep(st, events[0]), events[1..])
  }

  /** The typed lines of some events, in order. */
  function TypedLines(events: seq<ChatEvent>): seq<string> {
    if events == [] then []
    else (if events[0].Typed? then [events[0].line] else []) + TypedLines(events[1..])
  }

  /** What is spoken after the typed lines of some events, in order. */
  function ChatReplies(events: seq<ChatEvent>): seq<string> {
    if events == [] then []
    else (if events[0].Typed? then Spoken(events[0].answer) else []) + ChatReplies(events[1..])
  }

  /** From a running loop, events holding no exit keyword keep it running: every typed line goes to
      the exchange and every answer is spoken, whatever raised on the way. */
  lemma {:induction false} ChatWithoutExit(st: Loop, pre: seq<ChatEvent>, post: seq<ChatEvent>)
    requires st.running
    requires forall i :: 0 <= i < |pre| ==> !IsExitEvent(pre[i])
    ensures ChatFrom(st, pre + post)
         == ChatFrom(Loop(true, st.asked + TypedLines(pre), st.spoken + ChatReplies(pre)), post)
    decreases |pre|
  {
    if pre == [] {
      assert pre + post == post;
      assert st.asked + TypedLines(pre) == st.asked;
      assert st.spoken + ChatReplies(pre) == st.spoken;
    } else {
      var e := pre[0];
      var st' := ChatStep(st, e);
      var lines := if e.Typed? then [e.line] else [];
      var replies := if e.Typed? then Spoken(e.answer) else [];
      assert (pre + post)[0] == e;
      assert (pre + post)[1..] == pre[1..] + post;
      assert ChatFrom(st, pre + post) == ChatFrom(st', pre[1..] + post);
      assert !IsExitEvent(e);
      assert st' == Loop(true, st.asked + lines, st.spoken + replies);
      ChatWithoutExit(st', pre[1..], post);
      assert TypedLines(pre) == lines + TypedLines(pre[1..]);
      assert ChatReplies(pre) == replies + ChatReplies(pre[1..]);
      ConcatAssoc(st.asked, lines, TypedLines(pre[1..]));
      ConcatAssoc(st.spoken, replies, ChatReplies(pre[1..]));
    }
  }

  /** A chat session sends to the model exactly the typed lines before the first exit keyword, in
      order, speaks the answers to them, and stops at that keyword: later lines never reach the
      model. */
  lemma ChatStopsAtExit(events: seq<ChatEvent>, k: nat)
    requires k < |events| && IsExitEvent(events[k])
    requires forall i :: 0 <= i < k ==> !IsExitEvent(events[i])
    ensures ChatFrom(Loop(true, [], []), events)
         == Loop(false, TypedLines(events[..k]), ChatReplies(events[..k]))
  {
    assert events == events[..k] + events[k..];
    ChatWithoutExit(Loop(true, [], []), events[..k], events[k..]);
    var st := Loop(true, TypedLines(events[..k]), ChatReplies(events[..k]));
    assert [] + TypedLines(events[..k]) == TypedLines(events[..k]);
    assert [] + ChatReplies(events[..k]) == ChatReplies(events[..k]);
    var st' := ChatStep(st, events[k]);
    assert st' == st.(running := false);
    assert ChatFrom(st, events[k..]) == ChatFrom(st', events[k..][1..]);
  }

  /** Without an exit keyword the loop is still running when the events run out, having sent every
      typed line to the model. */
  lemma ChatWithoutExitKeeps(events: seq<ChatEvent>)
    requires forall i :: 0 <= i < |events| ==> !IsExitEvent(events[i])
    ensures ChatFrom(Loop(true, [], []), events) == Loop(true, TypedLines(events), ChatReplies(events))
  {
    assert events + [] == events;
    ChatWithoutExit(Loop(true, [], []), events, []);
    assert [] + TypedLines(events) == TypedLines(events);
    assert [] + ChatReplies(events) == ChatReplies(events);
  }

  /** One voice iteration. The loop has no exit keyword; an empty transcript goes straight to the
      next iteration without calling the model, and a failed recognition changes nothing. */
  function VoiceStep(st: Loop, e: VoiceEvent): (r: Loop)
    ensures r.running == st.running
  {
    match e
    case RecognizeFailed => st
    case Heard(t, answer) =>
      if t == "" then st else Loop(st.running, st.asked + [t], st.spoken + Spoken(answer))
  }

  function VoiceFrom(st: Loop, events: seq<VoiceEvent>): Loop
    decreases |events|
  {
    if !st.running || events == [] then st else VoiceFrom(VoiceStep(st, events[0]), events[1..])
  }

  /** The non-empty transcripts of some events, in order. */
  function Transcripts(events: seq<VoiceEvent>): seq<string> {
    if events == [] then []
    else (if events[0].Heard? && events[0].transcript != "" then [events[0].transcript] else [])
         + Transcripts(events[1..])
  }

  function VoiceReplies(events: seq<VoiceEvent>): seq<string> {
    if events == [] then []
    else (if events[0].Heard? && events[0].transcript != "" then Spoken(events[0].answer) else [])
         + VoiceReplies(events[1..])
  }

  /** The voice loop never stops by itself: it sends every non-empty transcript to the model, in
      order, and speaks the answers. */
  lemma {:induction false} VoiceSession(st: Loop, events: seq<VoiceEvent>)
    requires st.running
    ensures VoiceFrom(st, events)
         == Loop(true, st.asked + Transcripts(events), st.spoken + VoiceReplies(events))
    decreases |events|
  {
    if events == [] {
      assert st.asked + Transcripts(events) == st.asked;
      assert st.spoken + VoiceReplies(events) == st.spoken;
    } else {
      var e := events[0];
      var st' := VoiceStep(st, e);
      var heard := if e.Heard? && e.transcript != "" then [e.transcript] else [];
      var replies := if e.Heard? && e.transcript != "" then Spoken(e.answer) else [];
      assert st' == Loop(true, st.asked + heard, st.spoken + replies);
      VoiceSession(st', events[1..]);
      assert Transcripts(events) == heard + Transcripts(events[1..]);
      assert VoiceReplies(events) == replies + VoiceReplies(events[1..]);
      ConcatAssoc(st.asked, heard, Transcripts(events[1..]));
      ConcatAssoc(st.spoken, replies, VoiceReplies(events[1..]));
    }
  }

  /** No empty transcript is ever sent to the model. */
  lemma {:induction false} TranscriptsNonEmpty(events: seq<VoiceEvent>)
    ensures forall t :: t in Transcripts(events) ==> t != ""
    decreases |events|
  {
    if events != [] {
      TranscriptsNonEmpty(events[1..]);
    }
  }

  datatype Mode = Chat | Voice | NoMode

  class MainApp {
    var running: bool

    constructor ()
      ensures running
    {
      running := true;
    }

    /** `chat_mode` */
    method ChatMode(events: seq<ChatEvent>) returns (asked: seq<string>, spoken: seq<string>)
      modifies this
      ensures Loop(running, asked, spoken) == ChatFrom(Loop(old(running), [], []), events)
    {
      asked, spoken := [], [];
      var i := 0;
      while running && i < |events|
        invariant 0 <= i <= |events|
        invariant ChatFrom(Loop(running, asked, spoken), events[i..])
               == ChatFrom(Loop(old(running), [], []), events)
      {
        assert events[i..][1..] == events[i + 1..];
        ghost var next := ChatStep(Loop(running, asked, spoken), events[i]);
        match events[i] {
          case ReadFailed =>
          case Typed(line, answer) =>
            if Strip(Lower(line)) == ExitKeyword {
              running := false;
              break;
            }
            asked := asked + [line];
            if answer.Answered? {
              spoken := spoken + [ResponseText(answer.text)];
            } else {
              assert spoken + Spoken(answer) == spoken;
            }
        }
        assert Loop(running, asked, spoken) == next;
        i := i + 1;
      }
    }

    /** `voice_mode` */
    method VoiceMode(events: seq<VoiceEvent>) returns (asked: seq<string>, spoken: seq<string>)
      modifies this
      ensures Loop(running, asked, spoken) == VoiceFrom(Loop(old(running), [], []), events)
    {
      asked, spoken := [], [];
      var i := 0;
      while running && i < |events|
        invariant 0 <= i <= |events|
        invariant VoiceFrom(Loop(running, asked, spoken), events[i..])
               == VoiceFrom(Loop(old(running), [], []), events)
      {
        assert events[i..][1..] == events[i + 1..];
        ghost var next := VoiceStep(Loop(running, asked, spoken), events[i]);
        match events[i] {
          case RecognizeFailed =>
          case Heard(userInput, answer) =>
            if userInput != "" {
              asked := asked + [userInput];
              if answer.Answered? {
                spoken := spoken + [ResponseText(answer.text)];
              } else {
                assert spoken + Spoken(answer) == spoken;
              }
            }
        }
        assert Loop(running, asked, spoken) == next;
        i := i + 1;
      }
    }

    /** `run`: the stripped choice `1` runs the chat loop, `2` the voice loop, anything else
        neither. */
    method Run(choice: string, chatEvents: seq<ChatEvent>, voiceEvents: seq<VoiceEvent>)
      returns (mode: Mode, asked: seq<string>, spoken: seq<string>)
      modifies this
      ensures mode == (if Strip(choice) == "1" then Chat else if Strip(choice) == "2" then Voice else NoMode)
      ensures mode == Chat ==>
        Loop(running, asked, spoken) == ChatFrom(Loop(old(running), [], []), chatEvents)
      ensures mode == Voice ==>
        Loop(running, asked, spoken) == VoiceFrom(Loop(old(running), [], []), voiceEvents)
      ensures mode == NoMode ==> running == old(running) && asked == [] && spoken == []
    {
      var selected := Strip(choice);
      if selected == "1" {
        mode := Chat;
        asked, spoken := ChatMode(chatEvents);
      } else if selected == "2" {
        mode := Voice;
        asked, spoken := VoiceMode(voiceEvents);
      } else {
        mode, asked, spoken := NoMode, [], [];
      }
    }
  }
}
