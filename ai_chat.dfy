/** The conversation session of src/ai.py: the api-key check at start-up, the translation
    fallback, and one exchange with the model (`get_response`). The model and the translator are
    outside services and appear as functions given to the operations that call them. */
module AiChat {
  import opened Wrappers
  import opened PyText
  import opened Conversation
  import opened ResponseParser

  /** What `generate_content` yields for a prompt: it raises (a network or API error, or a
      reply whose `text` cannot be read), gives no usable reply, or gives a reply text. */
  datatype ModelOutcome = ModelRaised | NoText | Text(text: string)

  /** A translator call: the translated text, or `None` when the call raises. */
  type Translator = (string, string) -> Option<string>

  /** A call the session makes to an outside service, in the order it makes them. */
  datatype Call = Generate(prompt: string) | Translate(text: string, dest: string) | Speak(text: string)

  /** The dict `get_response` returns; `original_text` is there only after a real reply. */
  datatype Reply = Reply(text: string, emotion: string, original: Option<string>)

  const NoAnswerText: string := "Maaf, aku tidak bisa menjawab sekarang."
  const ErrorText: string := "Maaf, terjadi kesalahan saat memproses jawaban."
  const DisplayLanguage: string := "id"

  /** The parsed configuration file: sections of string-valued keys. */
  type Config = map<string, map<string, string>>

  datatype InitError = MissingApiKey

  /** `config.get("google_ai", {}).get("api_key", None)`, refused when missing or empty. */
  function ApiKey(config: Config): (r: Result<string, InitError>)
    ensures r.Success? <==> "google_ai" in config && "api_key" in config["google_ai"]
                            && config["google_ai"]["api_key"] != ""
    ensures r.Success? ==> r.value == config["google_ai"]["api_key"]
  {
    var section := if "google_ai" in config then config["google_ai"] else map[];
    var key := if "api_key" in section then Some(section["api_key"]) else None;
    if key.None? || key.value == "" then Failure(MissingApiKey) else Success(key.value)
  }

  /** `translate_text`: the translation, or the text itself when the translator raises. */
  function TranslateText(text: string, dest: string, translator: Translator): (r: string)
    ensures translator(text, dest).None? ==> r == text
    ensures translator(text, dest).Some? ==> r == translator(text, dest).value
  {
    match translator(text, dest)
    case Some(t) => t
    case None => text
  }

  /** The outcome of one exchange: the returned dict, the new history and the calls made. */
  datatype Exchanged = Exchanged(reply: Reply, history: seq<Turn>, calls: seq<Call>)

  /** One `get_response` from history `h`: the user turn is appended and the whole history rendered
      into the prompt; on a raised call or a missing reply the fixed fallback is returned and nothing
      more happens; on a reply text the parsed body is appended as the assistant turn, translated for
      display and spoken. */
  function Exchange(systemPrompt: string, h: seq<Turn>, input: string,
                    model: string -> ModelOutcome, translator: Translator): Exchanged
  {
    var asked := h + [Turn(User, input)];
    var prompt := RenderPrompt(systemPrompt, asked);
    match model(prompt)
    case ModelRaised => Exchanged(Reply(ErrorText, Neutral, None), asked, [Generate(prompt)])
    case NoText => Exchanged(Reply(NoAnswerText, Neutral, None), asked, [Generate(prompt)])
    case Text(t) =>
      var p := Parse(t);
      Exchanged(Reply(TranslateText(p.body, DisplayLanguage, translator), p.emotion, Some(p.body)),
                asked + [Turn(Assistant, p.body)],
                [Generate(prompt), Translate(p.body, DisplayLanguage), Speak(p.body)])
  }

  /** The prompt of an exchange ends with the new user line and the cue, after every earlier
      turn's line. */
  lemma ExchangePrompt(systemPrompt: string, h: seq<Turn>, input: string,
                       model: string -> ModelOutcome, translator: Translator)
    ensures Exchange(systemPrompt, h, input, model, translator).calls[0]
         == Generate(systemPrompt + "\n\n" + RenderTurns(h) + TurnLine(Turn(User, input)) + Cue)
    ensures TurnLine(Turn(User, input)) == "User: " + input + "\n"
  {
    PromptWithUserTurn(systemPrompt, h, input);
  }

  /** The history only grows: earlier turns are kept as they were, the user turn always comes
      next, and an assistant turn follows it exactly when the model gave a reply text. An
      alternating history stays alternating. */
  lemma ExchangeHistory(systemPrompt: string, h: seq<Turn>, input: string,
                        model: string -> ModelOutcome, translator: Translator)
    ensures var e := Exchange(systemPrompt, h, input, model, translator);
      h <= e.history && |h| < |e.history| <= |h| + 2 && e.history[|h|] == Turn(User, input)
      && (|e.history| == |h| + 2 <==> model(RenderPrompt(systemPrompt, h + [Turn(User, input)])).Text?)
    ensures Alternates(h) ==> Alternates(Exchange(systemPrompt, h, input, model, translator).history)
  {
    var asked := h + [Turn(User, input)];
    var e := Exchange(systemPrompt, h, input, model, translator);
    if Alternates(h) {
      match model(RenderPrompt(systemPrompt, asked))
      case Text(t) => AlternatesAppend(h, input, [Turn(Assistant, Parse(t).body)]);
      case _ => AlternatesAppend(h, input, []); assert asked + [] == asked;
    }
  }

  /** Without a reply text the answer is a fixed neutral fallback, and neither translation nor
      speech is attempted: a raised call gives the error text, a missing reply the no-answer text. */
  lemma ExchangeFallback(systemPrompt: string, h: seq<Turn>, input: string,
                         model: string -> ModelOutcome, translator: Translator)
    requires !model(RenderPrompt(systemPrompt, h + [Turn(User, input)])).Text?
    ensures var e := Exchange(systemPrompt, h, input, model, translator);
      e.reply.emotion == Neutral && e.reply.original.None?
      && e.reply.text in {NoAnswerText, ErrorText} && |e.calls| == 1 && e.calls[0].Generate?
    ensures var e := Exchange(systemPrompt, h, input, model, translator);
      var outcome := model(RenderPrompt(systemPrompt, h + [Turn(User, input)]));
      (outcome.ModelRaised? ==> e.reply.text == ErrorText) && (outcome.NoText? ==> e.reply.text == NoAnswerText)
  {
  }

  /** After a reply text, the displayed text is the translated body, the original text is the parsed
      body, and only the body (never the tag) is spoken; when the translator fails the displayed text
      is the body itself. */
  lemma ExchangeAnswer(systemPrompt: string, h: seq<Turn>, input: string,
                       model: string -> ModelOutcome, translator: Translator)
    requires model(RenderPrompt(systemPrompt, h + [Turn(User, input)])).Text?
    ensures var t := model(RenderPrompt(systemPrompt, h + [Turn(User, input)])).text;
      var e := Exchange(systemPrompt, h, input, model, translator);
      e.reply.original == Some(Parse(t).body) && e.reply.emotion == Parse(t).emotion
      && e.history[|e.history| - 1] == Turn(Assistant, Parse(t).body)
      && e.calls[1..] == [Translate(Parse(t).body, DisplayLanguage), Speak(Parse(t).body)]
      && (translator(Parse(t).body, DisplayLanguage).None? ==> e.reply.text == Parse(t).body)
      && (translator(Parse(t).body, DisplayLanguage).Some? ==>
            e.reply.text == translator(Parse(t).body, DisplayLanguage).value)
  {
  }

  /** The conversation session (`GoogleAIChat`). The persona prompt is given at construction;
      its literal text is not part of this model. */
  class GoogleAIChat {
    const apiKey: string
    const systemPrompt: string
    var chatHistory: seq<Turn>

    constructor (apiKey: string, systemPrompt: string)
      requires apiKey != ""
      ensures this.apiKey == apiKey && this.systemPrompt == systemPrompt && chatHistory == []
    {
      this.apiKey := apiKey;
      this.systemPrompt := systemPrompt;
      chatHistory := [];
    }

    /** `__init__`: refuses to start without an api key, and starts with an empty history. */
    static method Create(config: Config, systemPrompt: string) returns (r: Result<GoogleAIChat, InitError>)
      ensures r.Failure? <==> ApiKey(config).Failure?
      ensures r.Success? ==> fresh(r.value) && r.value.apiKey == ApiKey(config).value
                             && r.value.systemPrompt == systemPrompt && r.value.chatHistory == []
    {
      var key := ApiKey(config);
      if key.Failure? {
        return Failure(key.error);
      }
      var chat := new GoogleAIChat(key.value, systemPrompt);
      return Success(chat);
    }

    /** The prompt built line by line from the current history. */
    method BuildPrompt() returns (prompt: string)
      ensures prompt == RenderPrompt(systemPrompt, chatHistory)
    {
      prompt := systemPrompt + "\n\n";
      for i := 0 to |chatHistory|
        invariant prompt == systemPrompt + "\n\n" + RenderTurns(chatHistory[..i])
      {
        var message := chatHistory[i];
        // Label(role) is role.capitalize() of the stored name: LabelIsCapitalizedRole.
        var line := Label(message.role) + ": " + message.content + "\n";
        assert RenderTurns(chatHistory[..i + 1]) == RenderTurns(chatHistory[..i]) + line by {
          assert chatHistory[..i + 1][..i] == chatHistory[..i];
        }
        ConcatAssoc(systemPrompt + "\n\n", RenderTurns(chatHistory[..i]), line);
        prompt := prompt + line;
      }
      assert chatHistory[..|chatHistory|] == chatHistory;
      prompt := prompt + Cue;
    }

    /** `get_response`: one exchange, as `Exchange` describes it. */
    method GetResponse(userInput: string, model: string -> ModelOutcome, translator: Translator)
      returns (reply: Reply, calls: seq<Call>)
      modifies this
      ensures var e := Exchange(systemPrompt, old(chatHistory), userInput, model, translator);
        reply == e.reply && chatHistory == e.history && calls == e.calls
      ensures old(chatHistory) <= chatHistory
      ensures Alternates(old(chatHistory)) ==> Alternates(chatHistory)
    {
      ExchangeHistory(systemPrompt, chatHistory, userInput, model, translator);
      chatHistory := chatHistory + [Turn(User, userInput)];
      var prompt := BuildPrompt();
      calls := [Generate(prompt)];
      var response := model(prompt);
      if !response.Text? {
        if response.ModelRaised? {
          return Reply(ErrorText, Neutral, None), calls;
        }
        return Reply(NoAnswerText, Neutral, None), calls;
      }
      var parsed := Parse(response.text);
      chatHistory := chatHistory + [Turn(Assistant, parsed.body)];
      var translated := TranslateText(parsed.body, DisplayLanguage, translator);
      calls := calls + [Translate(parsed.body, DisplayLanguage), Speak(parsed.body)];
      reply := Reply(translated, parsed.emotion, Some(parsed.body));
    }
  }
}
