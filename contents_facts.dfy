/**
 * What `generate_contents` promises: the requirement it sends, the priority of
 * the first document, the inertness of unsupported uploads, and its single
 * error outcome.
 */
module ContentsFacts {
  import opened Wrappers
  import opened Interfaces
  import opened Paths
  import opened Requirements
  import opened Contents

  /** Classifying a concatenation classifies each part. */
  lemma {:induction false} ClassifiedConcat(a: seq<string>, b: seq<string>)
    ensures Classified(a + b) == Classified(a) + Classified(b)
  {
    var l, r := Classified(a + b), Classified(a) + Classified(b);
    forall i | 0 <= i < |l| ensures l[i] == r[i] {
      if i < |a| {
        assert (a + b)[i] == a[i];
      } else {
        assert (a + b)[i] == b[i - |a|];
      }
    }
  }

  /** A document at `i` means the first document is at `i` or earlier. */
  lemma {:induction false} FirstDocumentAtMost(uploads: seq<Upload>, i: nat)
    requires i < |uploads| && uploads[i].kind == Document
    ensures FirstDocument(uploads) <= i
  {
    FirstDocumentIsFirst(uploads);
  }

  /** Every call recorded by a run of transcriptions is a call to `asr`. */
  lemma {:induction false} AsrCallsAreAsr(paths: seq<string>, c: Call)
    requires c in AsrCalls(paths)
    ensures c.Asr?
  {
    var i :| 0 <= i < |AsrCalls(paths)| && AsrCalls(paths)[i] == c;
  }

  // ---------------------------------------------------------------------------
  // The three outcomes

  /**
   * With no document among the uploads and every transcription succeeding, the
   * chat model receives the requirement built from the text and the
   * transcriptions in upload order, after one `asr` call per audio upload, and
   * its answer is the reply.
   */
  lemma {:induction false} ChatOutcome(env: Env, text: Option<string>, uploads: seq<Upload>)
    requires FirstDocument(uploads) == |uploads|
    requires TranscriptionsSucceed(env.asr, AudioFiles(uploads))
    ensures var requirement := Requirement(text, Transcripts(env.asr, AudioFiles(uploads)));
      var h := Answer(env, text, uploads);
      && h.calls == AsrCalls(AudioFiles(uploads)) + [Chat(requirement)]
      && (h.result.Ok? <==> env.chat(requirement).Ok?)
      && (h.result.Ok? ==> h.result.value == Chatted(env.chat(requirement).value))
  {
    TranscribeSucceeds(env.asr, AudioFiles(uploads));
    assert uploads[..|uploads|] == uploads;
  }

  /** Without a truthy text and without audio, the chat model receives the bare prefix. */
  lemma {:induction false} BareRequirement(env: Env, text: Option<string>, uploads: seq<Upload>)
    requires FirstDocument(uploads) == |uploads| && !Truthy(text) && AudioFiles(uploads) == []
    ensures Answer(env, text, uploads).calls == [Chat(RequirementPrefix)]
  {
    ChatOutcome(env, text, uploads);
    assert Transcripts(env.asr, []) == [];
    RequirementLayout(text, []);
  }

  /**
   * The first document decides the reply: the audio before it is transcribed
   * and the transcriptions dropped, the document goes through extract, format
   * and adjust, the chat model is never called, and the text plays no part.
   */
  lemma {:induction false} DocumentOutcome(env: Env, text: Option<string>, uploads: seq<Upload>)
    requires FirstDocument(uploads) < |uploads|
    requires TranscriptionsSucceed(env.asr, AudioFiles(uploads[..FirstDocument(uploads)]))
    ensures var k := FirstDocument(uploads);
      var doc := DocumentPath(env, uploads[k].path);
      var h := Answer(env, text, uploads);
      && uploads[k].kind == Document
      && (forall j :: 0 <= j < k ==> uploads[j].kind != Document)
      && h.calls == AsrCalls(AudioFiles(uploads[..k])) + doc.calls
      && (h.result.Ok? <==> doc.result.Ok?)
      && (h.result.Ok? ==> h.result.value == FromDocument(doc.result.value))
      && (forall c :: c in h.calls ==> !c.Chat?)
  {
    var k := FirstDocument(uploads);
    FirstDocumentIsFirst(uploads);
    TranscribeSucceeds(env.asr, AudioFiles(uploads[..k]));
    var doc := DocumentPath(env, uploads[k].path);
    forall c | c in AsrCalls(AudioFiles(uploads[..k])) + doc.calls ensures !c.Chat? {
      if c in AsrCalls(AudioFiles(uploads[..k])) {
        AsrCallsAreAsr(AudioFiles(uploads[..k]), c);
      }
    }
  }

  /**
   * A failing transcription before the first document ends the handler with the
   * network message; the calls made are the `asr` calls up to and including the
   * first failing one, so neither a document nor the chat model is touched.
   */
  lemma {:induction false} TranscriptionFaultOutcome(env: Env, text: Option<string>, uploads: seq<Upload>)
    requires !TranscriptionsSucceed(env.asr, AudioFiles(uploads[..FirstDocument(uploads)]))
    ensures var paths := AudioFiles(uploads[..FirstDocument(uploads)]);
      var h := Answer(env, text, uploads);
      && h.result == Err(NetworkRetry)
      && exists j :: (0 <= j < |paths| && env.asr(paths[j]).Err?
        && TranscriptionsSucceed(env.asr, paths[..j])
        && h.calls == AsrCalls(paths[..j + 1]))
  {
    var paths := AudioFiles(uploads[..FirstDocument(uploads)]);
    TranscribeSucceeds(env.asr, paths);
    TranscribeFails(env.asr, paths);
  }

  /**
   * The handler succeeds exactly when every collaborator it calls succeeds:
   * each transcription, then either the whole document branch or the chat model.
   */
  lemma {:induction false} AnswerSucceeds(env: Env, text: Option<string>, uploads: seq<Upload>)
    ensures var k := FirstDocument(uploads);
      var paths := AudioFiles(uploads[..k]);
      Answer(env, text, uploads).result.Ok? <==>
        && TranscriptionsSucceed(env.asr, paths)
        && (k < |uploads| ==> DocumentPath(env, uploads[k].path).result.Ok?)
        && (k == |uploads| ==> env.chat(Requirement(text, Transcripts(env.asr, paths))).Ok?)
  {
    var k := FirstDocument(uploads);
    if !TranscriptionsSucceed(env.asr, AudioFiles(uploads[..k])) {
      TranscriptionFaultOutcome(env, text, uploads);
    } else if k < |uploads| {
      DocumentOutcome(env, text, uploads);
    } else {
      assert uploads[..k] == uploads;
      ChatOutcome(env, text, uploads);
    }
  }

  // ---------------------------------------------------------------------------
  // Uploads that make no difference

  /**
   * Two upload lists take the same course when they hold the same audio before
   * their first document and agree on that document, or both have none.
   */
  ghost predicate SameCourse(x: seq<Upload>, y: seq<Upload>) {
    && AudioFiles(x[..FirstDocument(x)]) == AudioFiles(y[..FirstDocument(y)])
    && (FirstDocument(x) < |x| <==> FirstDocument(y) < |y|)
    && (FirstDocument(x) < |x| ==> x[FirstDocument(x)].path == y[FirstDocument(y)].path)
  }

  /** Upload lists that take the same course get the same answer, with the same calls. */
  lemma {:induction false} SameAnswer(env: Env, text: Option<string>, x: seq<Upload>, y: seq<Upload>)
    requires SameCourse(x, y)
    ensures Answer(env, text, x) == Answer(env, text, y)
  {
  }

  lemma {:induction false} TrailingSameCourse(a: seq<Upload>, b: seq<Upload>)
    requires FirstDocument(a) < |a|
    ensures SameCourse(a + b, a)
  {
    var k := FirstDocument(a);
    FirstDocumentConcat(a, b);
    assert (a + b)[..k] == a[..k];
    assert (a + b)[k] == a[k];
  }

  /** Uploads after the first document are never looked at. */
  lemma {:induction false} TrailingUploadsIgnored(env: Env, text: Option<string>, a: seq<Upload>, b: seq<Upload>)
    requires FirstDocument(a) < |a|
    ensures Answer(env, text, a + b) == Answer(env, text, a)
  {
    TrailingSameCourse(a, b);
    SameAnswer(env, text, a + b, a);
  }

  /** Skipping a non-document upload moves the first document of what follows by one. */
  lemma {:induction false} FirstDocumentSkip(a: seq<Upload>, u: Upload, b: seq<Upload>)
    requires u.kind != Document && FirstDocument(a) == |a|
    ensures FirstDocument(a + [u] + b) == |a| + 1 + FirstDocument(b)
    ensures FirstDocument(a + b) == |a| + FirstDocument(b)
  {
    assert a + [u] + b == a + ([u] + b);
    FirstDocumentConcat(a, [u] + b);
    FirstDocumentConcat(a, b);
    FirstDocumentConcat([u], b);
    assert FirstDocument([u]) == 1;
  }

  /** Audio of a prefix that runs past an unsupported upload. */
  lemma {:induction false} AudioSkip(a: seq<Upload>, u: Upload, c: seq<Upload>)
    requires u.kind == Unsupported
    ensures AudioFiles(a + [u] + c) == AudioFiles(a + c)
  {
    AudioFilesConcat(a + [u], c);
    AudioFilesConcat(a, [u]);
    AudioFilesConcat(a, c);
    assert AudioFiles([u]) == AudioFiles([]) + [];
    assert AudioFiles(a) + [] == AudioFiles(a);
  }

  /** Prefixes that reach into the part after an inserted upload. */
  lemma {:induction false} PrefixesPast(a: seq<Upload>, u: Upload, b: seq<Upload>, n: nat)
    requires n <= |b|
    ensures (a + [u] + b)[..|a| + 1 + n] == a + [u] + b[..n]
    ensures (a + b)[..|a| + n] == a + b[..n]
  {
  }

  /** An unsupported upload after the first document is beyond what is looked at. */
  lemma {:induction false} UnsupportedAfterDocument(a: seq<Upload>, u: Upload, b: seq<Upload>)
    requires FirstDocument(a) < |a|
    ensures SameCourse(a + [u] + b, a + b)
  {
    assert a + [u] + b == a + ([u] + b);
    TrailingSameCourse(a, [u] + b);
    TrailingSameCourse(a, b);
  }

  /** An unsupported upload before the first document only shifts the positions after it. */
  lemma {:induction false} UnsupportedBeforeDocument(a: seq<Upload>, u: Upload, b: seq<Upload>)
    requires u.kind == Unsupported && FirstDocument(a) == |a|
    ensures SameCourse(a + [u] + b, a + b)
  {
    var kb := FirstDocument(b);
    FirstDocumentSkip(a, u, b);
    PrefixesPast(a, u, b, kb);
    AudioSkip(a, u, b[..kb]);
    if kb < |b| {
      assert (a + [u] + b)[|a| + 1 + kb] == b[kb] == (a + b)[|a| + kb];
    }
  }

  lemma {:induction false} UnsupportedSameCourse(a: seq<Upload>, u: Upload, b: seq<Upload>)
    requires u.kind == Unsupported
    ensures SameCourse(a + [u] + b, a + b)
  {
    if FirstDocument(a) < |a| {
      UnsupportedAfterDocument(a, u, b);
    } else {
      UnsupportedBeforeDocument(a, u, b);
    }
  }

  /** An unsupported upload, wherever it sits, changes neither the reply nor the calls made. */
  lemma {:induction false} UnsupportedInert(env: Env, text: Option<string>, a: seq<Upload>, u: Upload, b: seq<Upload>)
    requires u.kind == Unsupported
    ensures Answer(env, text, a + [u] + b) == Answer(env, text, a + b)
  {
    UnsupportedSameCourse(a, u, b);
    SameAnswer(env, text, a + [u] + b, a + b);
  }

  // ---------------------------------------------------------------------------
  // The same facts on submissions

  /** A file list holding a document: files after the first document make no difference. */
  lemma {:induction false} GenerateIgnoresFilesAfterDocument(env: Env, text: Option<string>, files: seq<string>, more: seq<string>, i: nat)
    requires i < |files| && Classify(files[i]) == Document
    ensures Generate(env, Message(text, Some(files + more))) == Generate(env, Message(text, Some(files)))
  {
    ClassifiedConcat(files, more);
    FirstDocumentAtMost(Classified(files), i);
    TrailingUploadsIgnored(env, text, Classified(files), Classified(more));
  }

  /** A file of an unsupported format can be dropped from the file list without changing anything. */
  lemma {:induction false} GenerateSkipsUnsupported(env: Env, text: Option<string>, a: seq<string>, p: string, b: seq<string>)
    requires Classify(p) == Unsupported
    ensures Generate(env, Message(text, Some(a + [p] + b))) == Generate(env, Message(text, Some(a + b)))
  {
    ClassifiedConcat(a + [p], b);
    ClassifiedConcat(a, [p]);
    ClassifiedConcat(a, b);
    assert Classified([p]) == [Upload(p, Unsupported)];
    UnsupportedInert(env, text, Classified(a), Upload(p, Unsupported), Classified(b));
  }

  /** Typed text and no upload: one chat call with the prefix and the text, whose answer is the reply. */
  lemma {:induction false} TypedTextOnly(env: Env, text: string)
    requires text != ""
    ensures var requirement := RequirementPrefix + text;
      var h := Generate(env, Message(Some(text), Some([])));
      && h.calls == [Chat(requirement)]
      && (h.result.Ok? <==> env.chat(requirement).Ok?)
      && (h.result.Ok? ==> h.result.value == Chatted(env.chat(requirement).value))
  {
    var uploads := Classified([]);
    assert uploads == [];
    ChatOutcome(env, Some(text), uploads);
    assert Transcripts(env.asr, []) == [];
    assert Fragments(Some(text), []) == [text];
  }

  /** A lone Word document: its extract-format-adjust result is the reply and the chat model is never called. */
  lemma {:induction false} SingleDocument(env: Env, text: Option<string>, document: string)
    requires Classify(document) == Document
    ensures var doc := DocumentPath(env, document);
      var h := Generate(env, Message(text, Some([document])));
      && h.calls == doc.calls
      && (h.result.Ok? <==> doc.result.Ok?)
      && (h.result.Ok? ==> h.result.value == FromDocument(doc.result.value))
      && (forall c :: c in h.calls ==> !c.Chat?)
  {
    var uploads := Classified([document]);
    assert uploads == [Upload(document, Document)];
    assert FirstDocument(uploads) == 0;
    assert AudioFiles(uploads[..0]) == [];
    DocumentOutcome(env, text, uploads);
  }

  /** A typed text and one voice note: one transcription, then the chat model gets both lines. */
  lemma {:induction false} TextAndVoiceNote(env: Env, text: string, voice: string, transcript: string)
    requires text != "" && Classify(voice) == Audio && env.asr(voice) == Ok(transcript)
    ensures Generate(env, Message(Some(text), Some([voice]))).calls ==
      [Asr(voice), Chat(RequirementPrefix + text + "\n" + transcript)]
  {
    var uploads := Classified([voice]);
    assert uploads == [Upload(voice, Audio)];
    assert AudioFiles(uploads) == [voice] by {
      assert uploads[..0] == [];
    }
    ChatOutcome(env, Some(text), uploads);
    assert Transcripts(env.asr, [voice]) == [transcript];
    RequirementOfTextAndTranscript(text, transcript);
  }

  /** The same scenario on classified uploads. */
  lemma {:induction false} VoiceNoteThenDocumentUploads(env: Env, text: Option<string>, voice: string, document: string)
    requires env.asr(voice).Ok?
    ensures Answer(env, text, [Upload(voice, Audio), Upload(document, Document)]).calls ==
      [Asr(voice)] + DocumentPath(env, document).calls
  {
    var uploads := [Upload(voice, Audio), Upload(document, Document)];
    assert FirstDocument(uploads) == 1 by {
      assert uploads[1..] == [Upload(document, Document)];
    }
    assert uploads[..1] == [Upload(voice, Audio)];
    assert AudioFiles(uploads[..1]) == [voice] by {
      assert uploads[..1][..0] == [];
    }
    DocumentOutcome(env, text, uploads);
  }

  /** A voice note followed by a Word document: the note is transcribed, then the document answers. */
  lemma {:induction false} VoiceNoteThenDocument(env: Env, text: Option<string>, voice: string, document: string)
    requires Classify(voice) == Audio && Classify(document) == Document && env.asr(voice).Ok?
    ensures Generate(env, Message(text, Some([voice, document]))).calls ==
      [Asr(voice)] + DocumentPath(env, document).calls
  {
    assert Classified([voice, document]) == [Upload(voice, Audio), Upload(document, Document)];
    VoiceNoteThenDocumentUploads(env, text, voice, document);
  }

  /** Whatever is uploaded after that document is never touched. */
  lemma {:induction false} DocumentAfterVoiceNote(env: Env, text: Option<string>, voice: string, document: string, rest: seq<string>)
    requires Classify(voice) == Audio && Classify(document) == Document && env.asr(voice).Ok?
    ensures Generate(env, Message(text, Some([voice, document] + rest))).calls ==
      [Asr(voice)] + DocumentPath(env, document).calls
  {
    GenerateIgnoresFilesAfterDocument(env, text, [voice, document], rest, 1);
    VoiceNoteThenDocument(env, text, voice, document);
  }
}
