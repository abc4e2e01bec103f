# AI waifu assistant: conversation session and interaction loops

This project models the deterministic core of a voice/text companion assistant. A user types or speaks. The assistant builds a prompt from the chat history and asks a generative model for a reply in the form `[EMOTION] body`. It parses that reply, translates the body for display and speaks the body through a VoiceVox-style speech server.

The model covers two source files.

- `src/ai.py`, the conversation session (`GoogleAIChat`):
  - the api-key check;
  - the append-only chat history;
  - the prompt rendered from that history (system prompt, one `Role: content` line per turn, the `Ganyu:` cue);
  - the bracket parse of the reply;
  - the fixed fallbacks when the model fails;
  - the translation fallback.
- `src/main.py`, the orchestration:
  - microphone selection;
  - the capture queue, filled by the stream callback and drained for an exact block count;
  - the two-phase speech request;
  - the chat and voice loops with their exit and retry rules;
  - the mode dispatch.

Outside services appear as function-typed parameters: the generative model, the translator, the speech server's two endpoints, audio playback, and transcription. What each operation asks of them is returned as a trace of calls or requests. The audio hardware is a sequence of blocks delivered to the callback. The keyboard and the recogniser are a finite sequence of events, one per loop iteration.

Modules:

- `Wrappers`: `Option`, `Result`.
- `PyText`: the Python string operations the source relies on. These are `strip()` with Python's whitespace set, `find`, slicing (clamped, so a start past the end gives an empty slice), `in`, `lower()` and `capitalize()`.
- `ResponseParser`, `Conversation`, `AiChat`: `src/ai.py`.
- `Pcm`, `Capture`, `Speech`, `Interaction`: `src/main.py`. `Pcm` holds bytes, 16-bit samples and the conversion of the stream's raw buffers into samples.

Four points where the code's behaviour is easy to misread, each modelled as the code has it:

- Voice mode has no exit keyword. Its loop only ends when `running` is cleared, and nothing in voice mode clears it.
- A tag outside the LOVE…NEUTRAL list is passed through lower-cased. It is not replaced by `neutral`.
- The parser does not check that `[` comes before `]`.
- The block count is `int(16000 / 4000 * duration)`, which truncates. It is not a ceiling.

## Model

| member | source | states |
|---|---|---|
| AiChat.GoogleAIChat.constructor | src/ai.py:23-33 | a session is only made with a non-empty key; it holds that key and the system prompt, and its history starts empty |
| AiChat.Exchange | src/ai.py:85-137 | one `get_response` as a function of the history: the user turn appended, the prompt rendered, the fallbacks, the parsed answer turn, translation and speech; its properties are `ExchangePrompt`, `ExchangeHistory`, `ExchangeFallback` and `ExchangeAnswer`, and `GetResponse` is proved equal to it |
| AiChat.ApiKey | src/ai.py:23-25 | the key is accepted exactly when the `google_ai` section exists, holds `api_key`, and that value is non-empty; the accepted key is that value |
| AiChat.GoogleAIChat.Create | src/ai.py:14-33 | start-up fails exactly when the api key is missing or empty; on success the session holds that key and an empty history |
| AiChat.TranslateText | src/ai.py:75-83 | the result is the translation when the translator succeeds, and the input text unchanged when it raises |
| AiChat.GoogleAIChat.BuildPrompt | src/ai.py:94-97 | the prompt built line by line equals the system prompt, a blank line, one `Label: content` line per history turn in order, then the `Ganyu:` cue |
| AiChat.GoogleAIChat.GetResponse | src/ai.py:85-137 | the reply, new history and calls made are those of `Exchange`; the old history is a prefix of the new one; an alternating history stays alternating |
| AiChat.ExchangePrompt | src/ai.py:91-99 | the model is called once on a prompt with every earlier turn's line, then the line `User: input`, then the cue |
| AiChat.ExchangeHistory | src/ai.py:91-120 | the history only grows; earlier turns are unchanged; the user turn comes next; an assistant turn follows exactly when the model produced text; alternation of user and assistant turns is preserved |
| AiChat.ExchangeFallback | src/ai.py:99-137 | when the model gives no text, the reply is a fixed fallback with emotion `neutral` and no original text, and no translation or speech is attempted; a missing reply gives the no-answer text and a raised call the error text |
| AiChat.ExchangeAnswer | src/ai.py:107-133 | after a reply text: the original text is the parsed body, the emotion is the parsed tag, and the assistant turn holds the body; translation and then speech of the body follow; a failed translation displays the body itself, a successful one its translation |
| ResponseParser.Parse | src/ai.py:107-117 | the reply parse, written with the source's steps (strip, the test for both brackets, `find`, the two slices); what it yields is stated by `ParseBracketed`, `ParseUnbracketed` and `ParseFormat` |
| ResponseParser.ParseBracketed | src/ai.py:107-114 | with both brackets present, the emotion is the text between the first `[` and the first `]`, stripped and lower-cased (empty when `]` comes first), and the body is what follows the first `]`, stripped |
| ResponseParser.ParseUnbracketed | src/ai.py:107-117 | without both brackets, the emotion is `neutral` and the body is the whole stripped reply |
| ResponseParser.ParseFormat | src/ai.py:110-114 | parsing a reply in the prompted form `[tag] body` gives back the tag, stripped and lower-cased, and the body, stripped, for any tag without `]` |
| ResponseParser.ParseReversedBrackets | src/ai.py:110-114 | example: `a] b [c`, whose first `]` comes before its first `[`, parses to an empty emotion and the body `b [c`; the general case is `ParseBracketed` |
| ResponseParser.UnpromptedTagPassesThrough | src/ai.py:110-114 | the `SINGING` tag from the prompt's own example comes out as `singing`, which is not among the offered LOVE…NEUTRAL tags |
| ResponseParser.SingingIsNotPrompted | src/ai.py:53 | `singing` is none of the lower-cased tags offered by the prompt |
| ResponseParser.ParseLoveExample | src/ai.py:110-114 | example: a shortened reply in the style of the prompt's first example, `[LOVE] 愛しい人…`, parses to `love` and `愛しい人…`; the general case is `ParseFormat` |
| ResponseParser.ParsePlainExample | src/ai.py:115-117 | example: `hello` parses to `neutral` and the body `hello`; the general case is `ParseUnbracketed` |
| ResponseParser.FirstAtUnique | src/ai.py:111-112 | the first occurrence of a character is unique |
| Conversation.RenderTurns | src/ai.py:95-96 | one `Label: content` line per turn, oldest first; stated by `RenderTurnsConcat` and `RenderTurnsFirst` |
| Conversation.RenderPrompt | src/ai.py:94-97 | the system prompt, a blank line, the turn lines and the `Ganyu:` cue; `BuildPrompt` is proved equal to it and `PromptExtends` and `PromptWithUserTurn` state its shape |
| Conversation.LabelIsCapitalizedRole | src/ai.py:96 | the line label is `capitalize()` of the stored role (`User`, `Assistant`) |
| Conversation.RenderTurnsConcat | src/ai.py:95-96 | rendering a history is rendering its parts one after the other |
| Conversation.RenderTurnsFirst | src/ai.py:95-96 | the rendered turns start with the oldest turn's line |
| Conversation.PromptExtends | src/ai.py:94-97 | a longer history gives a prompt that starts with the shorter history's lines |
| Conversation.PromptWithUserTurn | src/ai.py:91-97 | after a user turn, the prompt ends with `User: input`, a newline and the cue |
| Conversation.AlternatesAppend | src/ai.py:91-120 | a user turn, optionally followed by one assistant turn, keeps every assistant turn right after a user turn |
| PyText.LStrip | src/ai.py:107 | drops whitespace from the front; stated by `LStripShape` |
| PyText.RStrip | src/ai.py:107 | drops whitespace from the back; stated by `RStripShape` and `RStripConcat` |
| PyText.Strip | src/ai.py:107 | `strip()` with no argument over Python's whitespace set; stated by `StripIsTrimmedSlice` |
| PyText.Contains | src/main.py:92 | `pat in s` for strings: `pat` occurs at some position of `s`, the definition `GetMicrophoneDevice` tests |
| PyText.Find | src/ai.py:111-112 | `find` is -1 exactly when the character is absent; otherwise it is the index of its first occurrence |
| PyText.Slice | src/ai.py:113 | a slice between two indices is the text between them, or empty when the start is not before the end |
| PyText.SliceFrom | src/ai.py:114 | a slice from an index is the rest of the text, or empty past the end |
| PyText.StripIsTrimmedSlice | src/ai.py:107 | `strip()` is a contiguous slice of the input with no whitespace at either end, and only whitespace removed around it |
| PyText.LStripShape | src/ai.py:107 | `lstrip` removes exactly the leading whitespace |
| PyText.RStripShape | src/ai.py:107 | `rstrip` removes exactly the trailing whitespace |
| PyText.RStripConcat | src/ai.py:114 | trailing whitespace of a concatenation comes from the last part that is not all whitespace |
| PyText.LStripRStripCommute | src/ai.py:107 | stripping the two ends can be done in either order |
| PyText.StripAfterSpace | src/ai.py:114 | leading whitespace in front of a text does not change its `strip()` |
| PyText.StripOfRStrip | src/ai.py:114 | stripping after `rstrip` is stripping |
| PyText.Lower | src/ai.py:113 | `lower()` keeps the length and maps each character on its own |
| PyText.Capitalize | src/ai.py:96 | `capitalize()` upper-cases the first character and lower-cases the rest |
| PyText.LowerStrip | src/main.py:150 | lower-casing and stripping commute |
| Capture.ComputeDevice | src/main.py:80 | Whisper runs on `cuda` exactly when it is available and configured, and on `cpu` otherwise |
| Capture.SpeechRecognizer.constructor | src/main.py:76-85 | the recogniser starts with an empty queue, the computed device and the chosen microphone |
| Capture.SpeechRecognizer.GetMicrophoneDevice | src/main.py:87-95 | the index is that of the first device whose name contains `Microphone` or `CABLE Output`, or 0 when none does |
| Capture.ChosenDeviceUnique | src/main.py:91-95 | that description picks a single index |
| Capture.SpeechRecognizer.Callback | src/main.py:97-101 | each callback queues exactly one frame, the samples decoded from its raw buffer (the corrected conversion, see Findings), whether or not the status flag is set |
| Capture.FrameCount | src/main.py:115 | the number of blocks read covers exactly `duration` seconds at 16000 Hz in blocks of 4000, and is 0 for a non-positive duration |
| Capture.DefaultFrameCount | src/main.py:103-115 | the default five seconds read 20 blocks |
| Capture.Frames | src/main.py:101 | one frame per delivered block |
| Capture.FramesAt | src/main.py:101 | the frames of one more block are the earlier frames plus that block's samples |
| Capture.FramesCarryCapturedBytes | src/main.py:101-117 | each frame holds one sample per two bytes of its block and re-encodes to exactly the bytes the stream delivered, so with the corrected conversion `Pcm.Decode` the recording carries the captured audio |
| Capture.SpeechRecognizer.AwaitBlock | src/main.py:116 | a blocking `get` lets the stream deliver blocks until one is queued; every delivered block is queued in order |
| Capture.SpeechRecognizer.FlushArrivals | src/main.py:114 | blocks delivered before the stream closes are queued in order |
| Capture.SpeechRecognizer.RecordAudio | src/main.py:103-120 | the recording is mono, 16-bit and 16000 Hz; it holds the first `FrameCount(duration)` queued blocks in FIFO order; the remaining blocks stay queued |
| Capture.SpeechRecognizer.Recognize | src/main.py:122-130 | the transcript of the default five-second recording, stripped, or an error when transcription raises |
| Pcm.Encode | src/main.py:101-117 | the byte layout of 16-bit samples, low byte first, two bytes per sample: the layout the stream delivers and `writeframes` writes |
| Pcm.Decode | src/main.py:101 | corrected conversion of a raw buffer: one sample per two bytes, low byte first |
| Pcm.DecodeEncode | src/main.py:101 | decoding the buffer of some samples gives back those samples |
| Pcm.EncodeDecode | src/main.py:101 | the decoded samples re-encode to exactly the bytes of the buffer, so decoding loses nothing |
| Pcm.ConvertAsWritten | src/main.py:101 | as written: each byte of the buffer becomes one sample with the byte's value |
| Pcm.AsWrittenGarbles | src/main.py:101 | as written, every non-empty block comes out with twice as many samples as were captured and never as the captured samples; one sample of -1 becomes the two samples 255, 255 |
| Speech.SynthesisQuery | src/main.py:44-46 | the synthesis query is the returned query with `outputSamplingRate` 24000 and `outputStereo` false; every other field is unchanged |
| Speech.TextToSpeech.constructor | src/main.py:17-23 | the speaker holds the configured voice and base URL |
| Speech.TextToSpeech.Speak | src/main.py:27-73 | blank text issues no request; a failed or non-200 audio query sends no synthesis; the synthesis request carries `SynthesisQuery` of the returned query; a failed or non-200 synthesis plays nothing; playback happens exactly when both phases succeed |
| Interaction.ResponseText | src/main.py:156 | the displayed response is the reply's `text` when present, otherwise the fixed fallback |
| Interaction.IsExitCommand | src/main.py:150 | a line is the exit command when lower-casing and stripping it gives `exit`; stated by `ExitCommandExamples` and `ExitCommandTrimmed` |
| Interaction.ExitCommandExamples | src/main.py:150 | `exit`, `EXIT` and `  Exit\n` end chat mode; `exit now` and `quit` do not |
| Interaction.ExitCommandTrimmed | src/main.py:150 | the exit test is the same as lower-casing the stripped line |
| Interaction.ChatStep | src/main.py:147-163 | the loop keeps running exactly when the line is not the exit keyword; the exit keyword reaches neither the model nor the speaker |
| Interaction.ChatFrom | src/main.py:146-163 | the chat loop as a function of the flag and the remaining events; `ChatMode` is proved equal to it, and `ChatWithoutExit`, `ChatStopsAtExit` and `ChatWithoutExitKeeps` state what it sends and speaks |
| Interaction.ChatWithoutExit | src/main.py:146-163 | from a running loop, events with no exit keyword keep it running; every typed line goes to the model and every answer that did not raise is spoken, in order; raised iterations are skipped |
| Interaction.ChatStopsAtExit | src/main.py:146-163 | a chat session sends exactly the typed lines before the first exit keyword, speaks their answers, and then stops: later lines never reach the model |
| Interaction.ChatWithoutExitKeeps | src/main.py:146-163 | with no exit keyword, every typed line reaches the model and the loop is still running when the input ends |
| Interaction.VoiceStep | src/main.py:169-188 | a voice iteration never changes `running` |
| Interaction.VoiceFrom | src/main.py:169-188 | the voice loop as a function of the flag and the remaining events; `VoiceMode` is proved equal to it, and `VoiceSession` states what it sends and speaks |
| Interaction.VoiceSession | src/main.py:169-188 | the voice loop never stops by itself; it sends every non-empty transcript to the model in order and speaks the answers |
| Interaction.TranscriptsNonEmpty | src/main.py:174-176 | no empty transcript is ever sent to the model |
| Interaction.MainApp.constructor | src/main.py:140 | the application starts running |
| Interaction.MainApp.ChatMode | src/main.py:142-163 | the loop's final flag, the lines sent and the texts spoken are those of `ChatFrom` over the events |
| Interaction.MainApp.VoiceMode | src/main.py:165-188 | the loop's final flag, the transcripts sent and the texts spoken are those of `VoiceFrom` over the events |
| Interaction.MainApp.Run | src/main.py:190-202 | stripped choice `1` runs chat mode, `2` runs voice mode, anything else runs neither and changes nothing |

## Left out

- Logging, `print` output and the emoji messages.
- The long persona text of the system prompt. It is a constructor parameter of `GoogleAIChat`; only its list of emotion tags (src/ai.py:53) and its example tags `LOVE` and `SINGING` are used.
- Reading and parsing `config.yaml`. The configuration is given as a map of sections.
- Configuring the Gemini client and building the model object. The model is the `model` parameter.
- The contents of the generative model, the translator, Whisper, the speech server and the audio device. They are oracles that return a value, fail, or return a status code.
- `hasattr(response, "text")`: a reply whose `text` cannot be read is one of the oracle's `ModelRaised` or `NoText` outcomes.
- `text_to_speech` from `src/tts.py` is recorded as a `Speak` call only. `src/tts.py`, `src/stt.py` and `src/tes.py` are not part of this model.
- The command-line loop under `__main__` in `src/ai.py`.
- PyText.Lower: `lower()`, `upper()` and `capitalize()` map only the ASCII letters; Python's full Unicode case mapping is not part of this model. The exit test and the role labels are exact, since no other character lower-cases to a letter of `exit` and the role names are ASCII. The emotion `Parse` returns is not: it is whatever the model wrote between the brackets, and where Python's `lower()` lower-cases a non-ASCII capital in it (such as `É`), the model leaves that character unchanged.
- AiChat.GoogleAIChat.BuildPrompt: the loop writes `Label(role)`, and `Conversation.LabelIsCapitalizedRole` proves it equal to `role.capitalize()`. The `capitalize()` call is not evaluated inside the loop.
- Capture.SpeechRecognizer.RecordAudio: requires that enough blocks arrive while the stream is open. The source blocks forever in `q.get()` otherwise; that wait is not part of this model.
- Capture.SpeechRecognizer.RecordAudio: `duration` is a whole number of seconds. A fractional duration and its float arithmetic are left out.
- Capture.SpeechRecognizer.Callback: a `Frame` stands for the numpy array built from the stream's raw buffer, a call into numpy that is not part of this model. The buffer holds whole 16-bit samples, low byte first, as on a little-endian host. The model queues the corrected conversion `Pcm.Decode`; the conversion as written is `Pcm.ConvertAsWritten` (see Findings), and the recording it would produce is not modelled further.
- The temporary WAV files: their names, writing, reading and removal, including files left behind when a step fails. The `RawInputStream` device and its threads are also left out. The callback runs sequentially, as the blocks of `arrivals`.
- Writing `output.wav` and decoding it in `speak` are folded into the `Player` oracle. So is `asyncio.sleep(1.5)` after playback (src/main.py:70).
- Interaction.MainApp.ChatMode: runs over a finite sequence of events. The source waits on `input()` forever, and spins on repeated read errors; both are beyond this model.
- Interaction.MainApp.VoiceMode: runs over a finite sequence of events for the same reason. The source's voice loop has no exit.
- Interaction.MainApp.constructor: only sets `running`. Building the session, recogniser and speaker (src/main.py:136-139) is not modelled, because `GoogleAIChat(config)` passes the configuration dict where a file path is expected, and would raise.
- The `await` of the synchronous `get_response` (src/main.py:155, 180), which raises in every iteration and is swallowed by the loop's handler. The loops are modelled over any exchange outcome, a raised one included, rather than over this always-raising path.

## Findings

| source | as written | input that shows it | evidently intended | confidence | as-written member | corrected member |
|---|---|---|---|---|---|---|
| src/main.py:101 | the callback converts the stream's raw byte buffer with `np.array(..., dtype=np.int16)`, which turns each byte into a sample of its own | a block holding the one sample -1 (bytes 255, 255) is queued as the two samples 255, 255; every block comes out twice as long, and the WAV receives each byte widened to two | one sample per two bytes (as `np.frombuffer` reads it), so that the recording holds exactly the captured audio | medium, not executed; rests on sounddevice passing the callback a buffer of unsigned bytes and on numpy converting such a buffer element by element | Pcm.AsWrittenGarbles | Pcm.EncodeDecode |
