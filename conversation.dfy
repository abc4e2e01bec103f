/** The chat history kept by the conversation session and the prompt rendered from it
    (src/ai.py:91-97, 120). */
module Conversation {
  import opened PyText

  datatype Role = User | Assistant

  /** The `role` string stored in a history entry. */
  function RoleName(role: Role): string {
    match role
    case User => "user"
    case Assistant => "assistant"
  }

  /** One `{role, content}` entry of the chat history. */
  datatype Turn = Turn(role: Role, content: string)

  /** The cue that ends every prompt, naming the assistant's persona. */
  const Cue: string := "Ganyu:"

  /** The label in front of a turn's line. */
  function Label(role: Role): string {
    match role
    case User => "User"
    case Assistant => "Assistant"
  }

  /** The label is `role.capitalize()` of the stored role name. */
  lemma LabelIsCapitalizedRole(role: Role)
    ensures Label(role) == Capitalize(RoleName(role))
  {
    var name := RoleName(role);
    assert name[1..] == if role == User then "ser" else "ssistant";
    assert Lower(name[1..]) == name[1..];
  }

  /** The prompt line of one turn: `Label: content` and a newline. */
  function TurnLine(t: Turn): string {
    Label(t.role) + ": " + t.content + "\n"
  }

  /** The turn lines of a history, in order. */
  function RenderTurns(h: seq<Turn>): string {
    if h == [] then "" else RenderTurns(h[..|h| - 1]) + TurnLine(h[|h| - 1])
  }

  /** The model input: the system prompt, a blank line, one line per turn, and the cue. */
  function RenderPrompt(systemPrompt: string, h: seq<Turn>): string {
    systemPrompt + "\n\n" + RenderTurns(h) + Cue
  }

  /** Rendering a history is rendering its parts one after the other. */
  lemma {:induction false} RenderTurnsConcat(a: seq<Turn>, b: seq<Turn>)
    ensures RenderTurns(a + b) == RenderTurns(a) + RenderTurns(b)
    decreases |b|
  {
    if b == [] {
      assert a + b == a;
    } else {
      var init, last := b[..|b| - 1], b[|b| - 1];
      var ab := a + b;
      assert ab != [];
      assert RenderTurns(ab) == RenderTurns(ab[..|ab| - 1]) + TurnLine(ab[|ab| - 1]);
      assert ab[..|ab| - 1] == a + init;
      assert ab[|ab| - 1] == last;
      RenderTurnsConcat(a, init);
      assert RenderTurns(b) == RenderTurns(init) + TurnLine(last);
      ConcatAssoc(RenderTurns(a), RenderTurns(init), TurnLine(last));
    }
  }

  /** The rendered turns start with the first turn's line and continue with the rest: the
      history is replayed from the oldest turn on. */
  lemma RenderTurnsFirst(t: Turn, rest: seq<Turn>)
    ensures RenderTurns([t] + rest) == TurnLine(t) + RenderTurns(rest)
  {
    RenderTurnsConcat([t], rest);
    assert RenderTurns([t]) == RenderTurns([]) + TurnLine(t);
  }

  /** A longer history gives a prompt that begins with the shorter history's lines: the context
      sent to the model only grows, and earlier turns keep their text. */
  lemma PromptExtends(systemPrompt: string, h: seq<Turn>, more: seq<Turn>)
    ensures RenderPrompt(systemPrompt, h + more)
         == systemPrompt + "\n\n" + RenderTurns(h) + RenderTurns(more) + Cue
    ensures RenderTurns(h) <= RenderTurns(h + more)
  {
    RenderTurnsConcat(h, more);
  }

  /** The prompt after a user turn ends with that turn's line and the cue. */
  lemma PromptWithUserTurn(systemPrompt: string, h: seq<Turn>, input: string)
    ensures RenderPrompt(systemPrompt, h + [Turn(User, input)])
         == systemPrompt + "\n\n" + RenderTurns(h) + TurnLine(Turn(User, input)) + Cue
    ensures TurnLine(Turn(User, input)) == "User: " + input + "\n"
  {
    var u := Turn(User, input);
    assert (h + [u])[..|h + [u]| - 1] == h;
    assert TurnLine(u) == "User: " + input + "\n" by {
      assert "User" + ": " == "User: ";
    }
  }

  /** Each assistant turn answers the user turn right before it, so the history never starts with
      an assistant turn and never holds two assistant turns in a row. */
  ghost predicate Alternates(h: seq<Turn>) {
    forall i :: 0 <= i < |h| && h[i].role == Assistant ==> 0 < i && h[i - 1].role == User
  }

  /** A user turn, optionally followed by its answer, keeps the history alternating. */
  lemma AlternatesAppend(h: seq<Turn>, input: string, answer: seq<Turn>)
    requires Alternates(h)
    requires |answer| <= 1 && forall t :: t in answer ==> t.role == Assistant
    ensures Alternates(h + [Turn(User, input)] + answer)
  {
    var h' := h + [Turn(User, input)] + answer;
    forall i | 0 <= i < |h'| && h'[i].role == Assistant ensures 0 < i && h'[i - 1].role == User {
      if i < |h| {
        assert h'[i] == h[i] && h'[i - 1] == h[i - 1];
      } else {
        assert i == |h| + 1;
      }
    }
  }
}
