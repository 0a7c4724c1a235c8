/** The three HTTP routes of routes.py:22-56: their input guards, which answer
    400 before any work is done, and the responses they build from the foreign
    services (saving and cutting the audio, Whisper, the notes model, yt-dlp).
    An exception a service raises is not caught by these routes; Flask then
    answers 500. */
module Routes {
  import opened Wrappers
  import opened Transcripts
  import AudioStreamServer

  type byte = AudioStreamServer.byte

  /** A JSON value of a request body. */
  datatype Json = JNull | JBool(b: bool) | JNum(n: int) | JStr(s: string) | JList(items: seq<Json>) | JObject(fields: map<string, Json>)

  /** Python truthiness of a decoded JSON value: `None`, `False`, `0`, `""`,
      `[]` and `{}` are false. */
  predicate Truthy(v: Json)
  {
    match v
    case JNull => false
    case JBool(b) => b
    case JNum(n) => n != 0
    case JStr(s) => |s| > 0
    case JList(items) => |items| > 0
    case JObject(fields) => |fields| > 0
  }

  /** `data.get(key, default)` */
  function Get(data: map<string, Json>, key: string, default: Json): Json
  {
    if key in data then data[key] else default
  }

  datatype Response =
    | BadRequest(body: string)                // a `(message, 400)` tuple
    | JsonBody(fields: map<string, string>)   // `jsonify({...})`, status 200
    | ServerError(message: string)            // an exception left the view

  /** The foreign services the routes call. `transcribeFile` covers saving the
      upload, `split_audio` and Whisper on each chunk; `download` is yt-dlp. */
  datatype Services = Services(
    transcribeFile: seq<byte> -> Result<seq<string>, string>,
    download: Json -> Result<seq<byte>, string>,
    generateNotes: Json -> Result<string, string>)

  /** `transcribe()` (routes.py:22-33); `files` maps part names to contents. */
  function Transcribe(files: map<string, seq<byte>>, services: Services): (r: Response)
    ensures r.BadRequest? <==> "file" !in files
    ensures r.BadRequest? ==> r.body == "No file part"
    ensures r.JsonBody? <==> "file" in files && services.transcribeFile(files["file"]).Success?
    ensures r.JsonBody? ==> r.fields == map["transcription" := JoinWords(services.transcribeFile(files["file"]).value)]
    ensures r.ServerError? ==> "file" in files && services.transcribeFile(files["file"]).Failure?
                               && r.message == services.transcribeFile(files["file"]).error
  {
    if "file" !in files then BadRequest("No file part")
    else
      match services.transcribeFile(files["file"])
      case Failure(e) => ServerError(e)
      case Success(parts) => JsonBody(map["transcription" := JoinWords(parts)])
  }

  /** `notes()` (routes.py:35-42). */
  function GenerateNotes(data: map<string, Json>, services: Services): (r: Response)
    ensures r.BadRequest? <==> "transcription" !in data || !Truthy(data["transcription"])
    ensures r.BadRequest? ==> r.body == "Transcription required"
    ensures r.JsonBody? ==> "transcription" in data && services.generateNotes(data["transcription"]).Success?
                            && r.fields == map["notes" := services.generateNotes(data["transcription"]).value]
    ensures "transcription" in data && Truthy(data["transcription"]) ==>
              (r.JsonBody? <==> services.generateNotes(data["transcription"]).Success?)
    ensures r.ServerError? ==> "transcription" in data && services.generateNotes(data["transcription"]).Failure?
                               && r.message == services.generateNotes(data["transcription"]).error
  {
    var transcription := Get(data, "transcription", JStr(""));
    if !Truthy(transcription) then BadRequest("Transcription required")
    else
      match services.generateNotes(transcription)
      case Failure(e) => ServerError(e)
      case Success(notes) => JsonBody(map["notes" := notes])
  }

  /** `process_url()` (routes.py:44-56). */
  function ProcessUrl(data: map<string, Json>, services: Services): (r: Response)
    ensures r.BadRequest? <==> "url" !in data || !Truthy(data["url"])
    ensures r.BadRequest? ==> r.body == "URL is required"
    ensures r.JsonBody? <==>
              && "url" in data && Truthy(data["url"])
              && services.download(data["url"]).Success?
              && services.transcribeFile(services.download(data["url"]).value).Success?
              && services.generateNotes(JStr(JoinWords(services.transcribeFile(services.download(data["url"]).value).value))).Success?
  {
    var url := Get(data, "url", JNull);
    if !Truthy(url) then BadRequest("URL is required")
    else
      match services.download(url)
      case Failure(e) => ServerError(e)
      case Success(audio) =>
        match services.transcribeFile(audio)
        case Failure(e) => ServerError(e)
        case Success(parts) =>
          var transcription := JoinWords(parts);
          match services.generateNotes(JStr(transcription))
          case Failure(e) => ServerError(e)
          case Success(notes) => JsonBody(map["notes" := notes, "transcription" := transcription])
  }

  /** A URL that is present and truthy reaches the services, and a full success
      answers the notes together with the space-joined chunk transcriptions. */
  lemma ProcessUrlSucceeds(data: map<string, Json>, services: Services, audio: seq<byte>, parts: seq<string>, notes: string)
    requires "url" in data && Truthy(data["url"])
    requires services.download(data["url"]) == Success(audio)
    requires services.transcribeFile(audio) == Success(parts)
    requires services.generateNotes(JStr(JoinWords(parts))) == Success(notes)
    ensures ProcessUrl(data, services) == JsonBody(map["notes" := notes, "transcription" := JoinWords(parts)])
  {
  }

  /** An empty transcription string is refused like a missing one. */
  lemma EmptyTranscriptionRefused(services: Services)
    ensures GenerateNotes(map["transcription" := JStr("")], services) == BadRequest("Transcription required")
    ensures GenerateNotes(map[], services) == BadRequest("Transcription required")
  {
  }
}
