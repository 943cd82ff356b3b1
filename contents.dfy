/**
 * `generate_contents`: collect the typed text and audio transcriptions of a
 * submission into one requirement for the chat model. If any upload is a Word
 * document, the first one decides the reply instead, once the audio uploads
 * before it are transcribed.
 */
module Contents {
  import opened Wrappers
  import opened Interfaces
  import opened Paths
  import opened Requirements

  /**
   * A submission. `text` is None when the "text" entry is absent or None.
   * `files` is None when the "files" entry holds None (iterating it raises);
   * an absent entry is the default empty list, `Some([])`.
   */
  datatype Message = Message(text: Option<string>, files: Option<seq<string>>)

  /** What `generate_contents` returns to the chat window. */
  datatype Reply = Chatted(content: string) | FromDocument(content: string)

  /** A chain of collaborator calls that stops at the first fault. */
  datatype Run<T> = Run(result: Result<T, Fault>, calls: seq<Call>)

  /** An upload together with the branch of the loop it takes. */
  datatype Upload = Upload(path: string, kind: ExtClass)

  /** Each upload with its classification, in upload order. */
  function Classified(files: seq<string>): (r: seq<Upload>)
    ensures |r| == |files|
  {
    seq(|files|, i requires 0 <= i < |files| => Upload(files[i], Classify(files[i])))
  }

  /** Index of the first upload that classifies as a document, or the number of uploads. */
  function FirstDocument(uploads: seq<Upload>): (k: nat)
    ensures k <= |uploads|
  {
    if uploads == [] then 0
    else if uploads[0].kind == Document then 0
    else 1 + FirstDocument(uploads[1..])
  }

  /** The paths of the uploads that classify as audio, in upload order. */
  function AudioFiles(uploads: seq<Upload>): seq<string> {
    if uploads == [] then []
    else
      var last := uploads[|uploads| - 1];
      AudioFiles(uploads[..|uploads| - 1]) + (if last.kind == Audio then [last.path] else [])
  }

  /** One `asr` call per path, in order. */
  function AsrCalls(paths: seq<string>): (r: seq<Call>)
    ensures |r| == |paths|
    ensures forall i :: 0 <= i < |paths| ==> r[i] == Asr(paths[i])
  {
    seq(|paths|, i requires 0 <= i < |paths| => Asr(paths[i]))
  }

  ghost predicate TranscriptionsSucceed(asr: string -> Result<string, Fault>, paths: seq<string>) {
    forall i :: 0 <= i < |paths| ==> asr(paths[i]).Ok?
  }

  /** The transcription of every path, when none fails. */
  ghost function Transcripts(asr: string -> Result<string, Fault>, paths: seq<string>): seq<string>
    requires TranscriptionsSucceed(asr, paths)
  {
    seq(|paths|, i requires 0 <= i < |paths| => asr(paths[i]).value)
  }

  /** Transcribe the paths in order, stopping at the first fault. */
  function Transcribe(asr: string -> Result<string, Fault>, paths: seq<string>): (r: Run<seq<string>>)
    ensures |r.calls| <= |paths|
    ensures r.result.Ok? ==> |r.result.value| == |r.calls| == |paths|
    ensures r.result.Err? ==> r.calls != []
  {
    if paths == [] then Run(Ok([]), [])
    else
      var n := |paths| - 1;
      var before := Transcribe(asr, paths[..n]);
      if before.result.Err? then before
      else
        match asr(paths[n])
        case Err(f) => Run(Err(f), before.calls + [Asr(paths[n])])
        case Ok(t) => Run(Ok(before.result.value + [t]), before.calls + [Asr(paths[n])])
  }

  /** extract -> format -> adjust_single_picture: the document branch. */
  function DocumentPath(env: Env, path: string): (r: Run<string>)
    ensures r.calls != [] && r.calls[0] == ExtractDocx(path)
    ensures forall c :: c in r.calls ==> !c.Chat? && !c.Asr?
    ensures r.result.Ok? <==>
      && env.extractDocx(path).Ok?
      && env.format(env.extractDocx(path).value).Ok?
      && env.adjustSinglePicture(env.format(env.extractDocx(path).value).value).Ok?
    ensures r.result.Ok? ==>
      r.result.value == env.adjustSinglePicture(env.format(env.extractDocx(path).value).value).value
  {
    match env.extractDocx(path)
    case Err(f) => Run(Err(f), [ExtractDocx(path)])
    case Ok(raw) =>
      match env.format(raw)
      case Err(f) => Run(Err(f), [ExtractDocx(path), Format(raw)])
      case Ok(markdown) =>
        Run(env.adjustSinglePicture(markdown), [ExtractDocx(path), Format(raw), AdjustSinglePicture(markdown)])
  }

  /**
   * The answer to classified uploads, stated by phases: the audio uploads before
   * the first document are transcribed; then either the first document is the
   * answer or the requirement goes to the chat model. Every fault is the network message.
   */
  function Answer(env: Env, text: Option<string>, uploads: seq<Upload>): (h: Handled<Reply>)
    ensures h.result.Err? ==> h.result.error == NetworkRetry
  {
    var k := FirstDocument(uploads);
    var transcribed := Transcribe(env.asr, AudioFiles(uploads[..k]));
    if transcribed.result.Err? then
      Handled(Err(NetworkRetry), transcribed.calls)
    else if k < |uploads| then
      var doc := DocumentPath(env, uploads[k].path);
      Handled(if doc.result.Ok? then Ok(FromDocument(doc.result.value)) else Err(NetworkRetry),
              transcribed.calls + doc.calls)
    else
      var requirement := Requirement(text, transcribed.result.value);
      var answer := env.chat(requirement);
      Handled(if answer.Ok? then Ok(Chatted(answer.value)) else Err(NetworkRetry),
              transcribed.calls + [Chat(requirement)])
  }

  /** What `generate_contents` does with a submission. */
  function Generate(env: Env, msg: Message): (h: Handled<Reply>)
    ensures h.result.Err? ==> h.result.error == NetworkRetry
    ensures msg.files.None? ==> h == Handled(Err(NetworkRetry), [])
  {
    match msg.files
    case None => Handled(Err(NetworkRetry), [])
    case Some(files) => Answer(env, msg.text, Classified(files))
  }

  // ---------------------------------------------------------------------------
  // Facts about the pieces

  /** The first document is a document, and no upload before it is one. */
  lemma {:induction false} FirstDocumentIsFirst(uploads: seq<Upload>)
    ensures forall j :: 0 <= j < FirstDocument(uploads) ==> uploads[j].kind != Document
    ensures FirstDocument(uploads) < |uploads| ==> uploads[FirstDocument(uploads)].kind == Document
    decreases |uploads|
  {
    if uploads != [] && uploads[0].kind != Document {
      FirstDocumentIsFirst(uploads[1..]);
      forall j | 0 < j < FirstDocument(uploads) ensures uploads[j].kind != Document {
        assert uploads[j] == uploads[1..][j - 1];
      }
    }
  }

  /** The first document of a concatenation is the first one of its first part, if it has one. */
  lemma {:induction false} FirstDocumentConcat(a: seq<Upload>, b: seq<Upload>)
    ensures FirstDocument(a + b) == if FirstDocument(a) < |a| then FirstDocument(a) else |a| + FirstDocument(b)
    decreases |a|
  {
    if a == [] {
      assert a + b == b;
    } else {
      assert (a + b)[1..] == a[1..] + b;
      FirstDocumentConcat(a[1..], b);
    }
  }

  /** The audio list holds exactly the audio uploads. */
  lemma {:induction false} AudioFilesMembers(uploads: seq<Upload>)
    ensures |AudioFiles(uploads)| <= |uploads|
    ensures forall p :: p in AudioFiles(uploads) <==> Upload(p, Audio) in uploads
    decreases |uploads|
  {
    if uploads != [] {
      var n := |uploads| - 1;
      AudioFilesMembers(uploads[..n]);
      assert uploads == uploads[..n] + [uploads[n]];
    }
  }

  lemma {:induction false} AudioFilesConcat(a: seq<Upload>, b: seq<Upload>)
    ensures AudioFiles(a + b) == AudioFiles(a) + AudioFiles(b)
    decreases |b|
  {
    if b == [] {
      assert a + b == a;
    } else {
      var n := |b| - 1;
      assert (a + b)[..|a + b| - 1] == a + b[..n];
      AudioFilesConcat(a, b[..n]);
    }
  }

  /** When every call succeeds, transcription yields each transcription in order, one call per path. */
  lemma {:induction false} TranscribeAll(asr: string -> Result<string, Fault>, paths: seq<string>)
    requires TranscriptionsSucceed(asr, paths)
    ensures Transcribe(asr, paths) == Run(Ok(Transcripts(asr, paths)), AsrCalls(paths))
    decreases |paths|
  {
    if paths != [] {
      var n := |paths| - 1;
      var init := paths[..n];
      assert forall i :: 0 <= i < n ==> init[i] == paths[i];
      TranscribeAll(asr, init);
      assert AsrCalls(init) + [Asr(paths[n])] == AsrCalls(paths);
      assert Transcripts(asr, init) + [asr(paths[n]).value] == Transcripts(asr, paths);
    }
  }

  /** A transcription that succeeds had every call succeed. */
  lemma {:induction false} TranscribeOkOnlyIfAll(asr: string -> Result<string, Fault>, paths: seq<string>)
    requires Transcribe(asr, paths).result.Ok?
    ensures TranscriptionsSucceed(asr, paths)
    decreases |paths|
  {
    if paths != [] {
      var n := |paths| - 1;
      var init := paths[..n];
      TranscribeOkOnlyIfAll(asr, init);
      assert forall i :: 0 <= i < n ==> asr(paths[i]) == asr(init[i]);
    }
  }

  /** Transcription succeeds exactly when every call succeeds, and then yields each transcription in order. */
  lemma {:induction false} TranscribeSucceeds(asr: string -> Result<string, Fault>, paths: seq<string>)
    ensures Transcribe(asr, paths).result.Ok? <==> TranscriptionsSucceed(asr, paths)
    ensures TranscriptionsSucceed(asr, paths) ==>
      Transcribe(asr, paths) == Run(Ok(Transcripts(asr, paths)), AsrCalls(paths))
  {
    if TranscriptionsSucceed(asr, paths) {
      TranscribeAll(asr, paths);
    }
    if Transcribe(asr, paths).result.Ok? {
      TranscribeOkOnlyIfAll(asr, paths);
    }
  }

  /** A failed transcription is the first faulting path: all before it were transcribed, none after it tried. */
  lemma {:induction false} TranscribeFails(asr: string -> Result<string, Fault>, paths: seq<string>)
    requires Transcribe(asr, paths).result.Err?
    ensures exists j :: (0 <= j < |paths| && asr(paths[j]).Err?
      && Transcribe(asr, paths).result.error == asr(paths[j]).error
      && TranscriptionsSucceed(asr, paths[..j])
      && Transcribe(asr, paths).calls == AsrCalls(paths[..j + 1]))
    decreases |paths|
  {
    var n := |paths| - 1;
    var before := Transcribe(asr, paths[..n]);
    assert paths[..n][..n] == paths[..n];
    if before.result.Err? {
      TranscribeFails(asr, paths[..n]);
      var j :| 0 <= j < n && asr(paths[..n][j]).Err?
        && before.result.error == asr(paths[..n][j]).error
        && TranscriptionsSucceed(asr, paths[..n][..j])
        && before.calls == AsrCalls(paths[..n][..j + 1]);
      assert paths[..n][..j] == paths[..j] && paths[..n][..j + 1] == paths[..j + 1];
    } else {
      TranscribeSucceeds(asr, paths[..n]);
      assert AsrCalls(paths[..n]) + [Asr(paths[n])] == AsrCalls(paths[..n + 1]);
    }
  }

  /** Once a transcription has failed, later paths are never handed to `asr`. */
  lemma {:induction false} TranscribeStopsAtFault(asr: string -> Result<string, Fault>, a: seq<string>, b: seq<string>)
    requires Transcribe(asr, a).result.Err?
    ensures Transcribe(asr, a + b) == Transcribe(asr, a)
    decreases |b|
  {
    if b == [] {
      assert a + b == a;
    } else {
      var n := |b| - 1;
      assert (a + b)[..|a + b| - 1] == a + b[..n];
      TranscribeStopsAtFault(asr, a, b[..n]);
    }
  }

  // ---------------------------------------------------------------------------
  // One pass of the upload loop

  lemma {:induction false} FragmentsSnoc(text: Option<string>, transcripts: seq<string>, t: string)
    ensures Fragments(text, transcripts + [t]) == Fragments(text, transcripts) + [t]
  {
  }

  lemma {:induction false} TranscribeStep(asr: string -> Result<string, Fault>, paths: seq<string>, p: string, transcripts: seq<string>, calls: seq<Call>)
    requires Transcribe(asr, paths) == Run(Ok(transcripts), calls)
    ensures asr(p).Ok? ==> Transcribe(asr, paths + [p]) == Run(Ok(transcripts + [asr(p).value]), calls + [Asr(p)])
    ensures asr(p).Err? ==> Transcribe(asr, paths + [p]) == Run(Err(asr(p).error), calls + [Asr(p)])
  {
    assert (paths + [p])[..|paths|] == paths;
  }

  lemma {:induction false} AudioFilesStep(uploads: seq<Upload>, i: nat)
    requires i < |uploads|
    ensures uploads[i].kind == Audio ==> AudioFiles(uploads[..i + 1]) == AudioFiles(uploads[..i]) + [uploads[i].path]
    ensures uploads[i].kind != Audio ==> AudioFiles(uploads[..i + 1]) == AudioFiles(uploads[..i])
  {
    assert uploads[..i + 1][..i] == uploads[..i];
    assert AudioFiles(uploads[..i]) + [] == AudioFiles(uploads[..i]);
  }

  /** A pass over an upload that is not a document keeps the loop's invariant. */
  lemma {:induction false} ScanStep(env: Env, uploads: seq<Upload>, i: nat, transcripts: seq<string>, calls: seq<Call>)
    requires i < |uploads| && i <= FirstDocument(uploads) && uploads[i].kind != Document
    requires Transcribe(env.asr, AudioFiles(uploads[..i])) == Run(Ok(transcripts), calls)
    ensures i + 1 <= FirstDocument(uploads)
    ensures uploads[i].kind == Audio && env.asr(uploads[i].path).Ok? ==>
      Transcribe(env.asr, AudioFiles(uploads[..i + 1])) ==
        Run(Ok(transcripts + [env.asr(uploads[i].path).value]), calls + [Asr(uploads[i].path)])
    ensures uploads[i].kind == Audio && env.asr(uploads[i].path).Err? ==>
      Transcribe(env.asr, AudioFiles(uploads[..i + 1])).result.Err? &&
      Transcribe(env.asr, AudioFiles(uploads[..i + 1])).calls == calls + [Asr(uploads[i].path)]
    ensures uploads[i].kind == Unsupported ==>
      Transcribe(env.asr, AudioFiles(uploads[..i + 1])) == Run(Ok(transcripts), calls)
  {
    FirstDocumentIsFirst(uploads);
    AudioFilesStep(uploads, i);
    if uploads[i].kind == Audio {
      TranscribeStep(env.asr, AudioFiles(uploads[..i]), uploads[i].path, transcripts, calls);
    }
  }

  /** A fault on the audio upload at `i`, before any document, is the outcome of the whole handler. */
  lemma {:induction false} AsrFaultIsFinal(env: Env, text: Option<string>, uploads: seq<Upload>, i: nat, calls: seq<Call>)
    requires i < FirstDocument(uploads)
    requires Transcribe(env.asr, AudioFiles(uploads[..i + 1])).result.Err?
    requires Transcribe(env.asr, AudioFiles(uploads[..i + 1])).calls == calls
    ensures Answer(env, text, uploads) == Handled(Err(NetworkRetry), calls)
  {
    var k := FirstDocument(uploads);
    AudioFilesConcat(uploads[..i + 1], uploads[i + 1..k]);
    assert uploads[..i + 1] + uploads[i + 1..k] == uploads[..k];
    TranscribeStopsAtFault(env.asr, AudioFiles(uploads[..i + 1]), AudioFiles(uploads[i + 1..k]));
  }

  /** Reaching the first document with every earlier transcription done, the document decides the outcome. */
  lemma {:induction false} DocumentIsFinal(env: Env, text: Option<string>, uploads: seq<Upload>, i: nat, transcripts: seq<string>, calls: seq<Call>)
    requires i < |uploads| && i <= FirstDocument(uploads) && uploads[i].kind == Document
    requires Transcribe(env.asr, AudioFiles(uploads[..i])) == Run(Ok(transcripts), calls)
    ensures var doc := DocumentPath(env, uploads[i].path);
      Answer(env, text, uploads) ==
        Handled(if doc.result.Ok? then Ok(FromDocument(doc.result.value)) else Err(NetworkRetry), calls + doc.calls)
  {
    FirstDocumentIsFirst(uploads);
    assert FirstDocument(uploads) == i;
  }

  /** Past the last upload with no document seen, the requirement goes to the chat model. */
  lemma {:induction false} ChatIsFinal(env: Env, text: Option<string>, uploads: seq<Upload>, transcripts: seq<string>, calls: seq<Call>)
    requires FirstDocument(uploads) == |uploads|
    requires Transcribe(env.asr, AudioFiles(uploads)) == Run(Ok(transcripts), calls)
    ensures var requirement := Requirement(text, transcripts);
      var answer := env.chat(requirement);
      Answer(env, text, uploads) ==
        Handled(if answer.Ok? then Ok(Chatted(answer.value)) else Err(NetworkRetry), calls + [Chat(requirement)])
  {
    assert uploads[..|uploads|] == uploads;
  }

  // ---------------------------------------------------------------------------
  // The handler

  /** The document branch: extract, format, adjust, stopping at the first fault. */
  method ReadDocument(env: Env, path: string) returns (content: Result<string, Fault>, calls: seq<Call>)
    ensures Run(content, calls) == DocumentPath(env, path)
  {
    var raw := env.extractDocx(path);
    calls := [ExtractDocx(path)];
    if raw.Err? {
      return Err(raw.error), calls;
    }
    var markdown := env.format(raw.value);
    calls := calls + [Format(raw.value)];
    if markdown.Err? {
      return Err(markdown.error), calls;
    }
    content := env.adjustSinglePicture(markdown.value);
    calls := calls + [AdjustSinglePicture(markdown.value)];
  }

  /**
   * One pass of the upload loop, for the upload at `i` whose branch is `kind`:
   * an audio file is transcribed, a document ends the handler with the
   * document branch, anything else is skipped. `finished` holds the handler's
   * result when this pass returns it.
   */
  method ScanUpload(env: Env, text: Option<string>, ghost uploads: seq<Upload>, i: nat, file: string, kind: ExtClass,
                    texts: seq<string>, ghost transcripts: seq<string>, calls: seq<Call>)
    returns (finished: Option<Result<Reply, UserError>>, texts': seq<string>, ghost transcripts': seq<string>, calls': seq<Call>)
    requires i < |uploads| && uploads[i] == Upload(file, kind) && i <= FirstDocument(uploads)
    requires Transcribe(env.asr, AudioFiles(uploads[..i])) == Run(Ok(transcripts), calls)
    requires texts == Fragments(text, transcripts)
    ensures finished.Some? ==> Answer(env, text, uploads) == Handled(finished.value, calls')
    ensures finished.None? ==>
      && i + 1 <= FirstDocument(uploads)
      && Transcribe(env.asr, AudioFiles(uploads[..i + 1])) == Run(Ok(transcripts'), calls')
      && texts' == Fragments(text, transcripts')
  {
    finished, texts', transcripts', calls' := None, texts, transcripts, calls;
    if kind != Document {
      ScanStep(env, uploads, i, transcripts, calls);
    }
    match kind {
      case Audio =>
        var audioText := env.asr(file);
        calls' := calls + [Asr(file)];
        if audioText.Err? {
          AsrFaultIsFinal(env, text, uploads, i, calls');
          finished := Some(Err(NetworkRetry));
          return;
        }
        FragmentsSnoc(text, transcripts, audioText.value);
        texts' := texts + [audioText.value];
        transcripts' := transcripts + [audioText.value];
      case Document =>
        DocumentIsFinal(env, text, uploads, i, transcripts, calls);
        var content, documentCalls := ReadDocument(env, file);
        calls' := calls + documentCalls;
        if content.Err? {
          finished := Some(Err(NetworkRetry));
        } else {
          finished := Some(Ok(FromDocument(content.value)));
        }
      case Unsupported =>
        // logged as an unsupported format and skipped
    }
  }

  /**
   * The handler itself: a loop over the uploads in order, transcribing audio,
   * returning early on the first document, skipping everything else. The
   * history it is given plays no part.
   */
  method GenerateContents(env: Env, msg: Message, history: seq<Turn>) returns (r: Result<Reply, UserError>, calls: seq<Call>)
    ensures Handled(r, calls) == Generate(env, msg)
  {
    calls := [];
    var texts: seq<string> := [];
    if Truthy(msg.text) {
      texts := texts + [msg.text.value];
    }
    if msg.files.None? {
      // iterating over None raises a TypeError
      return Err(NetworkRetry), calls;
    }
    var files := msg.files.value;
    ghost var uploads := Classified(files);
    ghost var transcripts: seq<string> := [];
    var i := 0;
    while i < |files|
      invariant i <= FirstDocument(uploads)
      invariant Transcribe(env.asr, AudioFiles(uploads[..i])) == Run(Ok(transcripts), calls)
      invariant texts == Fragments(msg.text, transcripts)
    {
      var file := files[i];
      var kind := Classify(file);
      assert uploads[i] == Upload(file, kind);
      var finished;
      finished, texts, transcripts, calls := ScanUpload(env, msg.text, uploads, i, file, kind, texts, transcripts, calls);
      if finished.Some? {
        return finished.value, calls;
      }
      i := i + 1;
    }
    assert uploads[..i] == uploads;
    ChatIsFinal(env, msg.text, uploads, transcripts, calls);
    var userRequirement := RequirementPrefix + Join("\n", texts);
    var slidesContent := env.chat(userRequirement);
    calls := calls + [Chat(userRequirement)];
    if slidesContent.Err? {
      return Err(NetworkRetry), calls;
    }
    return Ok(Chatted(slidesContent.value)), calls;
  }
}
