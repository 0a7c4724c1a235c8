# ResoNote core, modelled in Dafny

ResoNote turns recorded or uploaded lectures into study notes. A Flask server transcribes the audio and a language model writes notes from the transcription. A page script shows the notes and lets the user copy them. This project models three sequential parts of that system and proves what they do.

- **The page script** (`static/script.js`):
  - `formatNotes` turns the model's notes into HTML. It classifies each `'\n'`-separated line as a heading, a list item or a paragraph, renders it, and wraps list items with one greedy regex.
  - The five-pass plain-text conversion of `copyFormattedNotes`.
  - `handleFiles` with its re-entrancy flag, its set of names already seen and its 300 MiB limit.
  - The live-recording handlers as an event-driven state machine.
- **The server routes** (`routes.py`):
  - The per-session table `audio_buffers` and its four Socket.IO handlers: connect, disconnect, `audio-stream` and `stop-recording`.
  - The 400 guards of `/transcribe`, `/generate-notes` and `/process-url`.
  - The space-joined transcription.
- **The chunking loop** of `split_audio` (`audio_processing.py`).

Modules, one per file:

- `Wrappers`: `Option` and `Result`.
- `Text`: JavaScript `split`, `trim` and line terminators, `join`, and Python's `str(n)`.
- `Patterns`: where greedy `.*` and lazy `.*?` stop.
- `Markup`: line classification and rendering.
- `NotesFormat`: the list wrap and the `FormatNotes` method.
- `PlainText`: the copy conversion.
- `Uploads`: the `NotesPage` class, which holds `handleFiles`, `displayNotes` and `copyFormattedNotes`.
- `LiveRecording`: the `LiveSession` class.
- `Transcripts`: the space join.
- `AudioStreamServer`: the `AudioBufferTable` class.
- `Routes`: the REST views.
- `AudioChunks`: the `SplitAudio` method.

Code that updates state in place is written as classes and methods. Each method is proved to follow a state-transition function: `Handle`, `Next` or `FileTurn`/`HandleFilesSpec`. The properties are proved about those functions. Regexes follow JavaScript's semantics:

- The search runs left to right.
- `.` does not match `\n`, `\r`, U+2028 or U+2029.
- Greedy `.*` ends at the last reachable closing tag.
- Lazy `.*?` ends at the first reachable closing tag.

Two consequences of the code are worth knowing:

- Empty notes format to `<p></p>`, because `"".split('\n')` is `[""]` and the one empty line becomes an empty paragraph.
- The list wrap puts one `<ul>` before the first `<li>` and one `</ul>` after the last `</li>` (when no line break lies between them), so headings and paragraphs between list items end up inside that one list.

## Model

| member | source | states |
|---|---|---|
| Text.Split | static/script.js:166 | `split` on one character gives at least one part, and no part holds the separator |
| Text.SplitCount | static/script.js:166 | there is one part more than there are separators |
| Text.JoinSplit | static/script.js:166 | joining the parts of a split with the separator gives the input back |
| Text.SplitJoin | routes.py:30 | splitting a join of separator-free parts (at least one) gives the parts back |
| Text.Trim | static/script.js:170-176 | `trim` leaves no JavaScript white space or line terminator at either end and never lengthens |
| Text.TrimIsSlice | static/script.js:170-176 | the trimmed line is a contiguous slice of the line |
| Text.TrimOfTrimmed | static/script.js:170-176 | trimming a trimmed string changes nothing |
| Text.NatToString | audio_processing.py:12 | `str(n)` is a non-empty string of decimal digits that, read as a decimal numeral (`DigitsValue`), denotes n; it has no leading zero, and has one digit exactly for n < 10 |
| Text.NatToStringInjective | audio_processing.py:12 | different chunk numbers have different decimal names |
| Patterns.LastCloseSpec | static/script.js:180 | greedy `.*` followed by a closing tag stops at the last occurrence reachable without crossing a line terminator, or fails when there is none |
| Patterns.LastCloseIs | static/script.js:180 | a reachable close with no close after it is where the greedy match stops |
| Patterns.FirstCloseSpec | static/script.js:137-141 | lazy `.*?` followed by a closing tag stops at the first occurrence, which lies before any line terminator, or fails when there is none |
| Patterns.FirstCloseIs | static/script.js:137-141 | a close with no earlier close and no line terminator before it is where the lazy match stops |
| Markup.StartsNumberedMeaning | static/script.js:173 | `/^\d+\./` holds iff the line starts with one or more digits followed by a dot |
| Markup.RemoveAll | static/script.js:170 | `replace(/#/g, '')` leaves no `#` and keeps every other character with its count |
| Markup.RemoveAllOne | static/script.js:170 | on one character, the replace gives nothing for `#` and the character itself otherwise |
| Markup.RemoveAllAppend | static/script.js:170 | the replace on a concatenation is the concatenation of the replaces, so the characters that stay keep their order |
| Markup.RemoveFirstMarker | static/script.js:172 | `replace(/[-*]/, '')` removes exactly one character when the line has a marker, and nothing otherwise |
| Markup.RemoveFirstMarkerAt | static/script.js:172 | the character removed is the first `-` or `*`, wherever it stands |
| Markup.Classify | static/script.js:169-177 | heading iff the untrimmed line starts with `#`; list item iff otherwise it starts with `-`/`*` or digits-dot; heading text is the line with every `#` removed, then trimmed (so it has no `#`); a bullet's text is the rest of the line after the marker, trimmed; a numbered item keeps its number; a paragraph is the trimmed line |
| Markup.NumberSurvivesTrim | static/script.js:173-174 | the trimmed text of a numbered item still starts with digits and a dot |
| Markup.RenderShape | static/script.js:170-176 | each block renders as its opening tag, its text and its closing tag, and the tags tell the block kinds apart |
| Markup.RenderAllAppend | static/script.js:168-178 | appending rendered blocks to `formatted` concatenates their renderings in order |
| Markup.Blocks | static/script.js:166-178 | one block per `'\n'`-separated line, as many as there are newlines plus one, block i classifying line i |
| Markup.IndentedBulletIsParagraph | static/script.js:169-176 | `"  - x"` becomes the paragraph `- x`, because classification looks at the untrimmed line |
| Markup.BulletBeforeNumber | static/script.js:171-174 | `"-1."` is a bullet with text `1.`, because the bullet test comes first |
| Markup.HeadingDropsEveryHash | static/script.js:170 | `"# A #B#"` becomes the heading `A B`: every `#` goes, not only the leading ones |
| NotesFormat.MatchEnd | static/script.js:180 | a wrap match is at least as long as `<li></li>` and lies within the text |
| NotesFormat.FirstItem | static/script.js:180 | the index of the first list item: it is a list item and none comes before it |
| NotesFormat.LastItem | static/script.js:180 | the index of the last list item: it is a list item and none comes after it |
| NotesFormat.NoItemsUnchanged | static/script.js:180 | the wrap leaves text containing no `<li>` unchanged |
| NotesFormat.OpenLiOnlyAtItemStart | static/script.js:170-180 | in rendered safe blocks a `<li>` starts only where a list item opens |
| NotesFormat.CloseLiOnlyAtItemEnd | static/script.js:170-180 | in rendered safe blocks a `</li>` starts only where a list item closes |
| NotesFormat.SkipPlain | static/script.js:180 | rendered headings and paragraphs pass through the wrap unchanged |
| NotesFormat.LastCloseAtLastItem | static/script.js:180 | from the first `<li>`, the greedy match runs to the end of the last list item's `</li>` |
| NotesFormat.WrapFromFirstItem | static/script.js:180 | from the first list item on, one match is wrapped in `<ul>…</ul>` and the rest is copied |
| NotesFormat.WrapListsGroups | static/script.js:180 | when no block text holds `<li>`, `</li>` or a line terminator, the wrap equals `Grouped`: one `<ul>` before the first list item and one `</ul>` after the last, or no change without list items |
| NotesFormat.GroupedOnlyInserts | static/script.js:180 | the grouped markup is the rendering of the blocks before the first list item, `<ul>`, the rendering of the run from the first to the last list item (which starts with `<li>` and ends with `</li>`), `</ul>`, and the rendering of the rest; the plain rendering is the same three parts without the two tags |
| NotesFormat.FormatNotes | static/script.js:164-182 | the loop's output is the wrap of the blocks rendered in line order; for safe notes it is `Grouped` of those blocks |
| NotesFormat.HeadingInsideList | static/script.js:180 | a heading between two list items is swallowed into the one `<ul>` |
| NotesFormat.EmptyNotes | static/script.js:165-181 | empty notes format to `<p></p>` |
| PlainText.NoAngleUnchanged | static/script.js:137-141 | a pass whose pattern starts with `<` leaves text without `<` unchanged |
| PlainText.PlainTextIdentity | static/script.js:137-141 | the conversion is the identity on notes without `<` |
| PlainText.SegPass | static/script.js:137-141 | each pass rewrites exactly the element or the list tag it is for and copies every other segment |
| PlainText.FlatPasses | static/script.js:137-141 | the passes rewrite clean segment sequences segment by segment, in the order the calls are written |
| PlainText.PlainTextOfSegments | static/script.js:137-141 | on clean segments, the conversion gives each segment's plain form in order |
| PlainText.PlainTextOfRendered | static/script.js:137-141 | on the rendering of clean blocks, the conversion gives each block's plain line: `\n`-text-`\n` for a heading, a bullet line for a list item, text-`\n` for a paragraph |
| PlainText.PlainTextOfGrouped | static/script.js:137-141 | on the grouped markup, `<ul>` and `</ul>` each become one `\n` around the converted list items |
| PlainText.ParagraphsOnTheirOwnLines | static/script.js:137-141 | converting rendered clean paragraphs and splitting on `\n` gives the paragraph texts, in order, and one final empty line |
| Uploads.NotesPage.constructor | static/script.js:14-15 | the page starts idle, with no names seen and empty notes |
| Uploads.NotesPage.DisplayNotes | static/script.js:115-132 | the raw notes are kept as `currentNotes`; defined notes are shown formatted by `FormatNotes`; `undefined` throws before anything is shown |
| Uploads.NotesPage.HandleFile | static/script.js:47-63 | one turn of the loop follows `FileTurn` |
| Uploads.NotesPage.HandleFiles | static/script.js:42-67 | the whole call follows `HandleFilesSpec`, and a throw leaves `isProcessing` raised |
| Uploads.NotesPage.CopyFormattedNotes | static/script.js:135-141 | the copied text is the conversion of the raw `currentNotes`; nothing is copied when they are `undefined` |
| Uploads.BusyCallIgnored | static/script.js:43 | a call while `isProcessing` is raised changes nothing |
| Uploads.NameRecordedFirst | static/script.js:47-52 | every file adds its name to `uploadedFiles`, before and whatever the size check |
| Uploads.SizeLimit | static/script.js:54-58 | a file is refused iff it is over 314572800 bytes; a refused file sends no request, an accepted one is sent for transcription |
| Uploads.NotesOnlyForTranscription | static/script.js:58-61 | notes are requested iff the transcription is truthy, and with that transcription |
| Uploads.UploadedGrows | static/script.js:46-64 | names only accumulate, and every file the loop reached is recorded |
| Uploads.RetryRefused | static/script.js:47-52 | a file dropped again is refused with an alert, even when its first drop was turned away for its size |
| Uploads.FlagAfterCall | static/script.js:42-67 | the flag is lowered at the end iff the loop did not throw; after a throw every later drop is ignored |
| Uploads.StaysProcessing | static/script.js:46-64 | the loop never lowers the flag |
| Uploads.MissingNotesThrow | static/script.js:58-61 | when the notes request yields nothing, `currentNotes` becomes `undefined`, nothing is shown and the flag stays raised |
| Uploads.CopyOfRawNotes | static/script.js:117 | copying after an upload converts the raw notes, not the formatted markup, so notes without `<` are copied as they are |
| LiveRecording.LiveSession.constructor | static/script.js:220-315 | the page starts with no recorder, no socket and nothing sent |
| LiveRecording.LiveSession.OnStartClick | static/script.js:220-236 | without browser support or microphone nothing changes; otherwise a new inactive recorder and an unconnected socket |
| LiveRecording.LiveSession.OnConnect | static/script.js:237-242 | `connect` follows `Next`: the recorder starts and the buttons flip, unless `start` throws on a recorder already recording |
| LiveRecording.LiveSession.OnDisconnect | static/script.js:244-248 | `disconnect` follows `Next`: re-enables start and disables stop |
| LiveRecording.LiveSession.CloseIfConnected | static/script.js:262-264 | `socket.disconnect()` runs only on a connected socket |
| LiveRecording.LiveSession.OnTranscriptionNotes | static/script.js:254-265 | follows `Next`: truthy notes are shown, then the socket is closed if connected |
| LiveRecording.LiveSession.OnServerError | static/script.js:267-273 | follows `Next`: the error is reported, then the socket is closed if connected |
| LiveRecording.LiveSession.OnDataAvailable | static/script.js:275-282 | follows `Next`: a frame is sent only when not empty and connected |
| LiveRecording.LiveSession.OnRecorderStop | static/script.js:285-291 | follows `Next`: `stop-recording` is sent only when connected |
| LiveRecording.LiveSession.OnStopClick | static/script.js:306-315 | follows `Next`: stops an active recorder and flips the buttons, else nothing |
| LiveRecording.FrameGuard | static/script.js:276-281 | a frame is added iff its size is positive and the socket is connected; otherwise nothing changes |
| LiveRecording.StopSignalGuard | static/script.js:286-289 | the stop signal count grows by one iff the socket is connected |
| LiveRecording.DisconnectGuard | static/script.js:262-264 | on notes or an error, `disconnect()` is called iff connected, and the socket is closed afterwards |
| LiveRecording.InactiveStopClick | static/script.js:307-314 | a stop click with no recorder or an inactive one changes nothing |
| LiveRecording.DisconnectStep | static/script.js:237-291 | no handler closes more than is open, and only `connect` opens |
| LiveRecording.DisconnectsBounded | static/script.js:237-291 | over any events, `disconnect()` calls plus an open socket never exceed the connections made |
| LiveRecording.DisconnectOncePerConnection | static/script.js:237-291 | from page load, `disconnect()` is called at most once per connection |
| LiveRecording.FramesNeverEmpty | static/script.js:276 | no empty frame is ever sent |
| LiveRecording.NothingBeforeConnect | static/script.js:276-289 | before the socket connects, no frame, stop signal or `disconnect()` is sent |
| Transcripts.JoinWords | routes.py:30 | no chunks join to `""` and one chunk joins to itself |
| Transcripts.JoinWordsCons | routes.py:30 | the first chunk's text, one space, then the rest joined |
| Transcripts.JoinWordsSplit | routes.py:30 | chunk texts without spaces are recovered, in order, by splitting on spaces |
| Transcripts.JoinWordsSpaces | routes.py:30 | the join adds exactly one space per chunk after the first |
| AudioStreamServer.AudioBufferTable.constructor | routes.py:15 | the table starts empty, with nothing emitted |
| AudioStreamServer.AudioBufferTable.HandleConnect | routes.py:58-62 | the session gets a fresh empty buffer, replacing any old one, and the rest of the table stays; follows `Handle` |
| AudioStreamServer.AudioBufferTable.HandleDisconnect | routes.py:64-70 | the session's entry is removed if present, otherwise nothing changes; follows `Handle` |
| AudioStreamServer.AudioBufferTable.HandleAudioStream | routes.py:72-85 | a missing buffer is created, `bytes`/`bytearray` payloads are appended, other payloads leave it unchanged; follows `Handle` |
| AudioStreamServer.AudioBufferTable.ProcessAudioBuffer | routes.py:87-118 | without a buffer, one `No audio data available.` error and no change; with one, exactly one emission for the processed bytes and the entry removed; follows `Handle` |
| AudioStreamServer.ConnectInstallsEmpty | routes.py:58-61 | connect installs an empty buffer and leaves other sessions untouched |
| AudioStreamServer.DisconnectWithoutBuffer | routes.py:64-69 | disconnect without a buffer is a no-op |
| AudioStreamServer.StreamAppends | routes.py:72-85 | a stream event appends exactly the payload's bytes at the end, or nothing for another payload type |
| AudioStreamServer.StopWithoutBuffer | routes.py:89-92 | stop without a buffer emits the one error and leaves the table unchanged |
| AudioStreamServer.StopWithBuffer | routes.py:94-118 | stop with a buffer emits exactly one event, `transcription-notes` iff both services succeed, and removes the entry |
| AudioStreamServer.SecondStopFindsNoBuffer | routes.py:89-117 | a second stop in a row gets the no-buffer error |
| AudioStreamServer.CollectStep | routes.py:72-85 | an event that does not reset the session adds to its buffer exactly what it carries for the session |
| AudioStreamServer.BufferCollectsStream | routes.py:58-118 | between resets, the session's buffer grows by exactly its own stream payloads, in arrival order, whatever other sessions do |
| AudioStreamServer.StopProcessesSession | routes.py:58-118 | the stop after a connect processes exactly the bytes streamed for the session since the connect, and removes its entry |
| AudioStreamServer.RunAppend | routes.py:58-118 | handling two event sequences one after the other is handling their concatenation |
| Routes.Transcribe | routes.py:22-33 | 400 `No file part` iff there is no `file` part; success iff the services succeed, answering the space-joined chunk transcriptions; otherwise the service's error |
| Routes.GenerateNotes | routes.py:35-42 | 400 `Transcription required` iff the transcription is missing or falsy; for a truthy one, success iff the notes service succeeds, answering its notes; otherwise the service's error |
| Routes.ProcessUrl | routes.py:44-56 | 400 `URL is required` iff the URL is missing or falsy; success iff the URL is truthy and download, transcription and notes all succeed |
| Routes.ProcessUrlSucceeds | routes.py:44-56 | a truthy URL whose services all succeed answers the notes with the space-joined transcription |
| Routes.EmptyTranscriptionRefused | routes.py:38-40 | an empty or missing transcription is refused |
| AudioChunks.ChunkPaths | audio_processing.py:12-14 | path k is the path of chunk k, for each k in order |
| AudioChunks.SplitAudio | audio_processing.py:5-16 | the loop exports exactly the windows of the audio, in order, and returns their paths in the same order |
| AudioChunks.SplitStep | audio_processing.py:10-11 | the slice cut at `i` is the next window |
| AudioChunks.NoAudioNoChunks | audio_processing.py:10-16 | empty audio yields no chunk |
| AudioChunks.WindowAt | audio_processing.py:10-11 | chunk k is `audio[k*L : min(k*L + L, len)]` |
| AudioChunks.WindowsCount | audio_processing.py:10 | there are `ceil(len / L)` chunks |
| AudioChunks.WindowsConcat | audio_processing.py:10-11 | the chunks, concatenated in order, give the audio back, with no gap or overlap at millisecond granularity |
| AudioChunks.WindowLengths | audio_processing.py:10-11 | every chunk but the last is exactly `L` long; the last is not empty |
| AudioChunks.HourOfAudio | config.py:7 | an hour of audio makes six ten-minute chunks, a minute more makes seven |
| AudioChunks.PathJoinInjective | audio_processing.py:12 | `os.path.join` with the same folder keeps different names apart |
| AudioChunks.ChunkPathsDistinct | audio_processing.py:12 | different chunks go to different paths |
| AudioChunks.ThirdChunkPath | audio_processing.py:12 | chunk 3 in `/uploads` goes to `/uploads/chunk_3.m4a` |

## Left out

- DOM and UI wiring is not modelled: element lookups, drag and drop, alerts, the spinner, `innerHTML`, scrolling, the clipboard API and the `execCommand` fallback. Alerts appear only as notices in `Uploads`.
- The two `fetch` helpers are oracles that return the answered string or nothing. HTTP, status codes and JSON parsing on the page are not modelled.
- `MediaRecorder`, `getUserMedia` and Socket.IO are not modelled. Their events are inputs to `LiveRecording.Next`.
- Sent frames are kept as a multiset of sizes. Their order is not claimed, because the `arrayBuffer().then` callbacks may complete in any order.
- Earlier sockets stay open after a new start click, and this is not modelled. The state holds only the latest socket and recorder.
- The stop listener registered inside the start handler is not modelled separately. Its guard is the same as the outer listener's, and after the first listener stops the recorder the second one sees it inactive.
- `buffer_lock` and threading are not modelled. The server handlers run one at a time.
- Temporary-file writes and deletes, `utils.py`, `config.py` apart from its chunk length, and the app factory are not part of this model.
- `transcription.py` (Whisper and the notes model), yt-dlp and pydub's decode and export are foreign services. They are function parameters that may fail, and their failure messages stand for `str(e)`.
- The routes and the stop handler receive the chunk transcriptions from one service parameter (`transcribeFile`, `transcribeChunks`), so the model does not connect `AudioChunks.Windows` to `Routes.Transcribe`. That the windows reach the joined text in order is not stated; only the join of whatever list the service returns is.
- LiveRecording.Next: arriving notes are recorded raw in `notesShown`. In the source `displayNotes` (static/script.js:260) formats them and overwrites the shared `currentNotes` (static/script.js:117). The live state machine and the `Uploads.NotesPage` class are separate models, and this link between them is not stated.
- Uploads.NotesPage.HandleFiles: each `await` is modelled as an atomic step, so events that could interleave with an upload (another drop, a live recording) are not modelled. Only the re-entrancy flag, which refuses a second call, is.
- Routes: a request body that is not a JSON object is not modelled. In the source, `data.get` then raises and Flask answers 500.
- Routes.ProcessUrl: its contract states the 400 guard and exactly when the answer is a success. The fields of that success are stated by `Routes.ProcessUrlSucceeds`.
- A size check that uses `file.size / (1024 * 1024)` is modelled as an exact integer comparison. Division by a power of two is exact on the sizes a browser reports.
- The displayed size in kilobytes, which uses floating point, is not modelled.
- AudioChunks.SplitAudio: requires a positive chunk length. Python's `range` raises for a step of 0, and the configured length is 600000.
- AudioChunks.PathJoin models `os.path.join` only for a relative file name, which is what `split_audio` passes.
- NotesFormat.WrapListsGroups: the first-`<li>`/last-`</li>` statement needs block texts without `<li>`, `</li>` or line terminators. The unrestricted behaviour is `WrapLists` itself, which `FormatNotes` is proved to compute for every input.
- PlainText.PlainTextOfRendered: the block-by-block statement needs block texts without `<` or line terminators. The unrestricted behaviour is `ToPlainText` itself.
