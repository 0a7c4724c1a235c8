/** The upload path of the page script (static/script.js:42-67, 115-141):
    `handleFiles` with its re-entrancy flag and its set of names already seen,
    `displayNotes`, which keeps the notes last received and shows them
    formatted, and `copyFormattedNotes`, which turns the kept notes into plain
    text. The two `fetch` helpers are oracles: each returns the string the
    server answered, or nothing when the request failed or the answer had no
    such field (`undefined`). */
module Uploads {
  import opened Wrappers
  import opened Markup
  import opened NotesFormat
  import opened PlainText

  const MaxFileSizeMb: nat := 300
  const MiB: nat := 1048576

  /** `file.size / (1024 * 1024) > MAX_FILE_SIZE_MB`. Division by a power of
      two is exact on the sizes a browser reports, so the test is exact. */
  predicate ExceedsLimit(size: nat)
  {
    size > MaxFileSizeMb * MiB
  }

  datatype FileInfo = FileInfo(name: string, size: nat)

  /** What the page tells the user. */
  datatype Notice =
    | AlreadyProcessed(name: string)   // `alert` at :48
    | TooLarge(name: string)           // `alert` at :55
    | FileShown(file: FileInfo)        // `displayFileMessage` at :57

  /** The requests the page sends to the server. */
  datatype Request = TranscribeRequest(file: FileInfo) | NotesRequest(transcription: string)

  datatype Oracles = Oracles(transcribe: FileInfo -> Option<string>, generate: string -> Option<string>)

  /** The page state `handleFiles` and `displayNotes` touch. `current` is
      `currentNotes`, where `None` stands for `undefined`; `shown` holds the
      formatted notes appended to the page, oldest first. */
  datatype Page = Page(
    processing: bool,
    uploaded: set<string>,
    current: Option<string>,
    shown: seq<string>,
    notices: seq<Notice>,
    requests: seq<Request>)

  /** JavaScript truthiness of an optional string. */
  predicate Truthy(s: Option<string>)
  {
    s.Some? && |s.value| > 0
  }

  /** What `formatNotes` returns (`NotesFormat.FormatNotes`). */
  function Formatted(notes: string): string
  {
    WrapLists(RenderAll(Blocks(notes)))
  }

  /** The state after one turn of the loop, and whether the turn threw. */
  datatype Turn = Turn(page: Page, threw: bool)

  /** One turn of the `for` loop at static/script.js:46-64. When the notes
      request yields `undefined`, `displayNotes` stores it and `formatNotes`
      throws on it (:117, :122, :166): the turn ends there. */
  function FileTurn(p: Page, f: FileInfo, oracles: Oracles): Turn
  {
    if f.name in p.uploaded then Turn(p.(notices := p.notices + [AlreadyProcessed(f.name)]), false)
    else
      var p1 := p.(uploaded := p.uploaded + {f.name});
      if ExceedsLimit(f.size) then Turn(p1.(notices := p1.notices + [TooLarge(f.name)]), false)
      else
        var p2 := p1.(notices := p1.notices + [FileShown(f)], requests := p1.requests + [TranscribeRequest(f)]);
        var transcription := oracles.transcribe(f);
        if !Truthy(transcription) then Turn(p2, false)
        else
          var p3 := p2.(requests := p2.requests + [NotesRequest(transcription.value)]);
          match oracles.generate(transcription.value)
          case None => Turn(p3.(current := None), true)
          case Some(notes) => Turn(p3.(current := Some(notes), shown := p3.shown + [Formatted(notes)]), false)
  }

  /** The loop over `files`, cut short by a throw. */
  function FilesTurns(p: Page, files: seq<FileInfo>, oracles: Oracles): Turn
    decreases |files|
  {
    if |files| == 0 then Turn(p, false)
    else
      var t := FileTurn(p, files[0], oracles);
      if t.threw then t else FilesTurns(t.page, files[1..], oracles)
  }

  /** `handleFiles(files)`: nothing while busy; otherwise the flag is raised,
      the loop runs, and the flag is lowered again unless the loop threw. */
  function HandleFilesSpec(p: Page, files: seq<FileInfo>, oracles: Oracles): Page
  {
    if p.processing then p
    else
      var t := FilesTurns(p.(processing := true), files, oracles);
      if t.threw then t.page else t.page.(processing := false)
  }

  class NotesPage {
    var isProcessing: bool
    var uploadedFiles: set<string>
    var currentNotes: Option<string>
    var shown: seq<string>
    var notices: seq<Notice>
    var requests: seq<Request>

    function State(): Page
      reads this
    {
      Page(isProcessing, uploadedFiles, currentNotes, shown, notices, requests)
    }

    /** The page as loaded (static/script.js:14-15, 113). */
    constructor ()
      ensures State() == Page(false, {}, Some(""), [], [], [])
    {
      isProcessing := false;
      uploadedFiles := {};
      currentNotes := Some("");
      shown := [];
      notices := [];
      requests := [];
    }

    /** `displayNotes` (static/script.js:115-132): keeps the notes, then
        formats them; on `undefined` the formatting throws and nothing is shown. */
    method DisplayNotes(notes: Option<string>) returns (threw: bool)
      modifies this
      ensures currentNotes == notes && threw == notes.None?
      ensures shown == old(shown) + (if notes.Some? then [Formatted(notes.value)] else [])
      ensures isProcessing == old(isProcessing) && uploadedFiles == old(uploadedFiles)
      ensures notices == old(notices) && requests == old(requests)
    {
      currentNotes := notes;
      if notes.None? {
        return true;
      }
      var formatted := FormatNotes(notes.value);
      shown := shown + [formatted];
      threw := false;
    }

    /** `handleFiles` (static/script.js:42-67). `threw` tells that the returned
        promise is rejected, in which case `isProcessing` stays raised. */
    method HandleFiles(files: seq<FileInfo>, oracles: Oracles) returns (threw: bool)
      modifies this
      ensures State() == HandleFilesSpec(old(State()), files, oracles)
      ensures threw ==> isProcessing
    {
      if isProcessing {
        return false;
      }
      isProcessing := true;
      ghost var start := State();
      var i := 0;
      while i < |files|
        invariant 0 <= i <= |files|
        invariant isProcessing
        invariant FilesTurns(start, files, oracles) == FilesTurns(State(), files[i..], oracles)
        decreases |files| - i
      {
        assert files[i..][1..] == files[i + 1..];
        var failed := HandleFile(files[i], oracles);
        if failed {
          return true;
        }
        i := i + 1;
      }
      isProcessing := false;
      threw := false;
    }

    /** One turn of the loop of `handleFiles` (static/script.js:47-63). */
    method HandleFile(f: FileInfo, oracles: Oracles) returns (threw: bool)
      modifies this
      ensures Turn(State(), threw) == FileTurn(old(State()), f, oracles)
    {
      if f.name in uploadedFiles {
        notices := notices + [AlreadyProcessed(f.name)];
        return false;
      }
      uploadedFiles := uploadedFiles + {f.name};
      if ExceedsLimit(f.size) {
        notices := notices + [TooLarge(f.name)];
        return false;
      }
      notices := notices + [FileShown(f)];
      requests := requests + [TranscribeRequest(f)];
      var transcription := oracles.transcribe(f);
      if !Truthy(transcription) {
        return false;
      }
      requests := requests + [NotesRequest(transcription.value)];
      var notes := oracles.generate(transcription.value);
      threw := DisplayNotes(notes);
    }

    /** The text `copyFormattedNotes` puts on the clipboard (static/script.js:135-141),
        or `None` when `currentNotes` is `undefined` and the `replace` throws. */
    method CopyFormattedNotes() returns (plain: Option<string>)
      ensures currentNotes.None? ==> plain.None?
      ensures currentNotes.Some? ==> plain == Some(ToPlainText(currentNotes.value))
    {
      if currentNotes.None? {
        return None;
      }
      plain := Some(ToPlainText(currentNotes.value));
    }
  }

  // ---------------------------------------------------------------------------
  // Properties of `handleFiles`

  /** A call while another is running changes nothing. */
  lemma BusyCallIgnored(p: Page, files: seq<FileInfo>, oracles: Oracles)
    requires p.processing
    ensures HandleFilesSpec(p, files, oracles) == p
  {
  }

  /** The name is recorded before the size check: every turn that does not
      skip the file adds its name, whatever the size. */
  lemma NameRecordedFirst(p: Page, f: FileInfo, oracles: Oracles)
    ensures FileTurn(p, f, oracles).page.uploaded == p.uploaded + {f.name}
  {
  }

  /** A file is turned away for its size exactly when it is over 300 MiB; it
      then sends no request. Exactly 300 MiB is accepted. */
  lemma SizeLimit(p: Page, f: FileInfo, oracles: Oracles)
    requires f.name !in p.uploaded
    ensures var t := FileTurn(p, f, oracles);
            && (ExceedsLimit(f.size) <==> f.size > 314572800)
            && (ExceedsLimit(f.size) ==> t.page.requests == p.requests && t.page.notices == p.notices + [TooLarge(f.name)])
            && (!ExceedsLimit(f.size) ==> |t.page.requests| > |p.requests| && t.page.requests[|p.requests|] == TranscribeRequest(f))
  {
  }

  /** Notes are requested exactly when the transcription is truthy. */
  lemma NotesOnlyForTranscription(p: Page, f: FileInfo, oracles: Oracles)
    requires f.name !in p.uploaded && !ExceedsLimit(f.size)
    ensures var t := FileTurn(p, f, oracles);
            && (Truthy(oracles.transcribe(f)) <==> |t.page.requests| == |p.requests| + 2)
            && (Truthy(oracles.transcribe(f)) ==> t.page.requests[|p.requests| + 1] == NotesRequest(oracles.transcribe(f).value))
            && (!Truthy(oracles.transcribe(f)) ==> t.page.requests == p.requests + [TranscribeRequest(f)])
  {
  }

  /** Names only accumulate over the loop. */
  lemma {:induction false} UploadedGrows(p: Page, files: seq<FileInfo>, oracles: Oracles)
    ensures p.uploaded <= FilesTurns(p, files, oracles).page.uploaded
    ensures forall i | 0 <= i < |files| :: !FilesTurns(p, files[..i], oracles).threw ==> files[i].name in FilesTurns(p, files, oracles).page.uploaded
    decreases |files|
  {
    if |files| > 0 {
      var t := FileTurn(p, files[0], oracles);
      NameRecordedFirst(p, files[0], oracles);
      if !t.threw {
        UploadedGrows(t.page, files[1..], oracles);
        forall i | 0 <= i < |files| && !FilesTurns(p, files[..i], oracles).threw
          ensures files[i].name in FilesTurns(p, files, oracles).page.uploaded
        {
          if i > 0 {
            assert files[..i][1..] == files[1..][..i - 1];
            assert files[1..][i - 1] == files[i];
          }
        }
      }
    }
  }

  /** Dropping a file again is refused, even when the first attempt was
      turned away for its size: the second call only alerts. */
  lemma RetryRefused(p: Page, f: FileInfo, oracles: Oracles)
    requires !p.processing
    requires !FileTurn(p.(processing := true), f, oracles).threw
    ensures var q := HandleFilesSpec(p, [f], oracles);
            HandleFilesSpec(q, [f], oracles) == q.(notices := q.notices + [AlreadyProcessed(f.name)])
  {
    assert [f][1..] == [];
    var t := FileTurn(p.(processing := true), f, oracles);
    assert FilesTurns(p.(processing := true), [f], oracles) == t;
    NameRecordedFirst(p.(processing := true), f, oracles);
    var q := HandleFilesSpec(p, [f], oracles);
    assert q == t.page.(processing := false);
    assert f.name in q.uploaded;
    assert FilesTurns(q.(processing := true), [f], oracles) == FileTurn(q.(processing := true), f, oracles);
  }

  /** The flag is lowered at the end unless the loop threw; after a throw the
      page ignores every later drop. */
  lemma FlagAfterCall(p: Page, files: seq<FileInfo>, oracles: Oracles, later: seq<FileInfo>)
    requires !p.processing
    ensures var t := FilesTurns(p.(processing := true), files, oracles);
            var q := HandleFilesSpec(p, files, oracles);
            && (q.processing <==> t.threw)
            && (t.threw ==> HandleFilesSpec(q, later, oracles) == q)
  {
    StaysProcessing(p.(processing := true), files, oracles);
  }

  lemma {:induction false} StaysProcessing(p: Page, files: seq<FileInfo>, oracles: Oracles)
    requires p.processing
    ensures FilesTurns(p, files, oracles).page.processing
    decreases |files|
  {
    if |files| > 0 {
      StaysProcessing(FileTurn(p, files[0], oracles).page, files[1..], oracles);
    }
  }

  /** The throw: a truthy transcription whose notes request yields nothing
      leaves `currentNotes` undefined and the flag raised. */
  lemma MissingNotesThrow(p: Page, f: FileInfo, oracles: Oracles)
    requires !p.processing && f.name !in p.uploaded && !ExceedsLimit(f.size)
    requires Truthy(oracles.transcribe(f)) && oracles.generate(oracles.transcribe(f).value).None?
    ensures var q := HandleFilesSpec(p, [f], oracles);
            q.processing && q.current.None? && q.shown == p.shown
  {
  }

  // ---------------------------------------------------------------------------
  // What is copied

  /** Notes received from the server are kept raw, not as formatted markup;
      copying notes without `<` therefore yields the notes themselves. */
  lemma CopyOfRawNotes(p: Page, f: FileInfo, oracles: Oracles, notes: string)
    requires !p.processing && f.name !in p.uploaded && !ExceedsLimit(f.size)
    requires Truthy(oracles.transcribe(f)) && oracles.generate(oracles.transcribe(f).value) == Some(notes)
    requires '<' !in notes
    ensures var q := HandleFilesSpec(p, [f], oracles);
            && q.current == Some(notes)
            && q.shown == p.shown + [Formatted(notes)]
            && ToPlainText(q.current.value) == notes
  {
    assert [f][1..] == [];
    assert FilesTurns(p.(processing := true), [f], oracles) == FileTurn(p.(processing := true), f, oracles);
    PlainTextIdentity(notes);
  }
}
