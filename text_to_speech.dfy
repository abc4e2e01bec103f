/** The speech step of src/main.py (`TextToSpeech.speak`): an audio-query request, then a
    synthesis request carrying the returned query with its output format forced, then playback.
    The HTTP endpoint and the audio device are outside services given to `Speak` as functions. */
module Speech {
  import opened Wrappers
  import opened PyText
  import opened Pcm

  /** A JSON value as `response.json()` decodes it. */
  datatype Json = JNull | JBool(b: bool) | JNum(n: real) | JStr(s: string)
                | JArray(items: seq<Json>) | JObject(fields: map<string, Json>)

  type JsonObject = map<string, Json>

  datatype HttpResponse<T> = HttpResponse(status: int, body: T)

  /** The audio-query endpoint for `(text, speaker)`: `None` when the request raises; a body of
      `None` when the response is not a JSON object (`json()` or the item assignment raises). */
  type AudioQueryEndpoint = (string, int) -> Option<HttpResponse<Option<JsonObject>>>

  /** The synthesis endpoint for `(speaker, query)`: `None` when the request raises. */
  type SynthesisEndpoint = (int, JsonObject) -> Option<HttpResponse<seq<byte>>>

  /** Decoding and playing WAV bytes: false when decoding or playback raises. */
  type Player = seq<byte> -> bool

  /** What `speak` does, in order. */
  datatype Request = PostAudioQuery(url: string, text: string, speaker: int)
                   | PostSynthesis(url: string, speaker: int, query: JsonObject)
                   | Play(audio: seq<byte>)

  /** How `speak` ended; it returns nothing and never raises, every failure is printed. */
  datatype SpeakOutcome = Blank | Failed | QueryRejected(queryStatus: int)
                        | SynthesisRejected(synthesisStatus: int) | Played

  const Ok: int := 200
  const OutputSamplingRate: real := 24000.0
  const SamplingRateKey: string := "outputSamplingRate"
  const StereoKey: string := "outputStereo"

  /** The query sent for synthesis: the returned query with the output sampling rate forced to
      24000 and stereo output off, every other field as it was. */
  function SynthesisQuery(q: JsonObject): (r: JsonObject)
    ensures r.Keys == q.Keys + {SamplingRateKey, StereoKey}
    ensures r[SamplingRateKey] == JNum(OutputSamplingRate) && r[StereoKey] == JBool(false)
    ensures forall k :: k in q && k != SamplingRateKey && k != StereoKey ==> r[k] == q[k]
  {
    q[SamplingRateKey := JNum(OutputSamplingRate)][StereoKey := JBool(false)]
  }

  /** The query phase succeeded: a 200 response whose body is a JSON object. */
  predicate QueryAccepted(a: Option<HttpResponse<Option<JsonObject>>>) {
    a.Some? && a.value.status == Ok && a.value.body.Some?
  }

  /** The synthesis phase succeeded: a 200 response. */
  predicate SynthesisAccepted(s: Option<HttpResponse<seq<byte>>>) {
    s.Some? && s.value.status == Ok
  }

  class TextToSpeech {
    const voiceId: int
    const baseUrl: string

    constructor (voiceId: int, baseUrl: string)
      ensures this.voiceId == voiceId && this.baseUrl == baseUrl
    {
      this.voiceId := voiceId;
      this.baseUrl := baseUrl;
    }

    /** `speak(text)`. Blank text issues no request. A failed or non-200 audio query stops before
        synthesis is requested; a failed or non-200 synthesis stops before anything is played. The
        synthesis request carries the returned query with its output format forced. */
    method Speak(text: string, audioQuery: AudioQueryEndpoint, synthesis: SynthesisEndpoint, play: Player)
      returns (outcome: SpeakOutcome, requests: seq<Request>)
      ensures outcome == Blank <==> Strip(text) == []
      ensures requests == [] <==> Strip(text) == []
      ensures requests != [] ==> requests[0] == PostAudioQuery(baseUrl + "/audio_query", text, voiceId)
      ensures outcome.QueryRejected? <==>
        Strip(text) != [] && audioQuery(text, voiceId).Some? && audioQuery(text, voiceId).value.status != Ok
      ensures outcome.QueryRejected? ==> outcome.queryStatus == audioQuery(text, voiceId).value.status
      ensures |requests| >= 2 <==> Strip(text) != [] && QueryAccepted(audioQuery(text, voiceId))
      ensures |requests| >= 2 ==> requests[1] == PostSynthesis(baseUrl + "/synthesis", voiceId,
                                    SynthesisQuery(audioQuery(text, voiceId).value.body.value))
      ensures outcome.SynthesisRejected? ==> |requests| == 2
      ensures |requests| == 3 <==> |requests| >= 2 && SynthesisAccepted(synthesis(voiceId, requests[1].query))
      ensures |requests| == 3 ==> requests[2] == Play(synthesis(voiceId, requests[1].query).value.body)
      ensures |requests| <= 3
      ensures outcome == Played <==> |requests| == 3 && play(requests[2].audio)
    {
      if Strip(text) == [] {
        return Blank, [];
      }
      requests := [PostAudioQuery(baseUrl + "/audio_query", text, voiceId)];
      var response := audioQuery(text, voiceId);
      if response.None? {
        return Failed, requests;
      }
      if response.value.status != Ok {
        return QueryRejected(response.value.status), requests;
      }
      if response.value.body.None? {
        return Failed, requests;
      }
      var queryData := response.value.body.value;
      queryData := queryData[SamplingRateKey := JNum(OutputSamplingRate)];
      queryData := queryData[StereoKey := JBool(false)];
      requests := requests + [PostSynthesis(baseUrl + "/synthesis", voiceId, queryData)];
      var synthesisResponse := synthesis(voiceId, queryData);
      if synthesisResponse.None? {
        return Failed, requests;
      }
      if synthesisResponse.value.status != Ok {
        return SynthesisRejected(synthesisResponse.value.status), requests;
      }
      requests := requests + [Play(synthesisResponse.value.body)];
      var played := play(synthesisResponse.value.body);
      outcome := if played then Played else Failed;
    }
  }
}
