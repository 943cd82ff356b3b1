# ChatPPT request dispatch, modelled in Dafny

ChatPPT's web server (`src/gradio_server.py`) turns chat messages into
PowerPoint decks through three handlers. Each delegates to collaborators: a
speech recogniser, a Word extractor, LLM-backed formatter, assistant, chat
bot and image advisor, an input parser and a deck writer.

- `generate_contents(message, history)` collects the typed text and the
  transcriptions of the audio uploads into one requirement for the chat bot.
  If any upload is a Word document, the first one decides the reply instead:
  its extracted, formatted and adjusted content, once the audio uploads before
  it are transcribed. Every fault is reported as the same "network problem,
  please retry" message.
- `handle_image_generate(history)` hands the last turn's content to the image
  advisor and appends the illustrated version to the history, in place.
- `handle_generate(history)` parses the last turn's content into slide data
  and a title. It writes the deck to `outputs/<title>.pptx` and returns that
  path.

The model treats the collaborators as arbitrary functions that may fail
(`Interfaces.Env`). Each handler returns its result together with the list of
collaborator calls it made, in order. That list is what lets the model state
that a collaborator is never called, or that an upload is never looked at.

Files:
- `wrappers.dfy`: Option and Result.
- `interfaces.dfy`: turns, collaborators, the call trace and the three
  user-facing messages.
- `paths.dfy`: the extension test of the upload loop (`os.path.splitext`,
  then `lower`, then the two allow-lists).
- `requirement.dfy`: the requirement string and its split/join round trip.
- `contents.dfy`:
  - `Contents.Generate` specifies `generate_contents` as a function;
  - `Contents.GenerateContents` is the handler's loop, proved equal to it, and `Contents.ScanUpload` one pass of it;
  - `Contents.ReadDocument` is the document branch;
  - the lemmas that carry the loop invariant are also here.
- `contents_facts.dfy`: what the first handler promises.
- `history.dfy`: the image step, as a function and as a method of the
  `History` class that updates its turns in place.
- `render.dfy`: the render step and the output-path layout.

Two behaviours of the code worth noting:
- With no truthy text and no audio, the requirement is the bare prefix
  `"需求如下:\n"` (`BareRequirement`) and it is still sent to the chat bot. It
  is not an empty string.
- An image request on an empty history fails with the image message
  (`"【提示】未找到合适配图，请重试！"`), because the `IndexError` is caught by the
  same handler. It is not a distinct usage error.

## Model

| member | source | states |
|---|---|---|
| Paths.Extension | src/gradio_server.py:53 | no contract of its own; `ExtensionCharacterised` gives its meaning, the `os.path.splitext` rule |
| Paths.ExtensionCharacterised | src/gradio_server.py:53 | the extension is non-empty exactly when some dot starts one: no dot or separator after it, and a non-dot earlier in the last component; the extension is then the suffix from that dot |
| Paths.Lower | src/gradio_server.py:53 | same length as its argument; lowers ASCII letters only (see Left out); `ExtensionOfLower` and `ClassifyIgnoresCase` give its role |
| Paths.ExtensionOfLower | src/gradio_server.py:53 | taking the extension and lowering commute |
| Paths.ClassifyIgnoresCase | src/gradio_server.py:53-54 | paths equal after lowering take the same branch of the upload loop |
| Paths.ExtensionOfName | src/gradio_server.py:53 | for `dir + stem + ext`, with a stem not starting with a dot and a single-dot suffix, the extension is `ext` |
| Paths.Classify | src/gradio_server.py:53-72 | no contract of its own; `ClassifyName`, `ClassifyIgnoresCase` and `LeadingDotIsNoExtension` say which branch each name takes |
| Paths.ClassifyName | src/gradio_server.py:53-66 | such a name is transcribed iff its lowered suffix is `.wav`, `.flac` or `.mp3`, and read as a document iff it is `.docx` or `.doc` |
| Paths.LeadingDotIsNoExtension | src/gradio_server.py:53-72 | a name whose only dot is its first character (".mp3") has no extension and is skipped as unsupported |
| Requirements.Truthy | src/gradio_server.py:46 | no contract of its own; the text entry is present and non-empty, Python's truthiness of a string or None |
| Requirements.Fragments | src/gradio_server.py:42-47 | the typed text comes first exactly when it is truthy, followed by the transcriptions in order |
| Requirements.Join | src/gradio_server.py:75 | no contract of its own; `SplitJoin` shows it is undone by splitting at the separator |
| Requirements.SplitJoin | src/gradio_server.py:75 | joining newline-free parts with "\n" and splitting at "\n" gives back the parts |
| Requirements.Requirement | src/gradio_server.py:75 | the requirement starts with the prefix `"需求如下:\n"`; `RequirementLayout` gives the rest |
| Requirements.RequirementLayout | src/gradio_server.py:75 | the requirement starts with the prefix; with no fragment it is the prefix alone; with newline-free fragments the rest splits back into the fragments in order |
| Requirements.RequirementOfTextAndTranscript | src/gradio_server.py:44-57 | a typed text and one transcription give prefix, text, newline, transcription |
| Contents.FirstDocument | src/gradio_server.py:50-70 | the index at which the loop returns, at most the number of uploads; `FirstDocumentIsFirst` says it is the first document |
| Contents.AudioFiles | src/gradio_server.py:50-57 | no contract of its own; `AudioFilesMembers` says the transcribed files are exactly the audio uploads, no more of them than uploads |
| Contents.Transcribe | src/gradio_server.py:54-57 | at most one call per path; on success one transcription and one call per path; a failure made at least one call; `TranscribeSucceeds` and `TranscribeFails` give its meaning |
| Contents.FirstDocumentIsFirst | src/gradio_server.py:50-70 | the upload the loop returns on is a document, and no earlier upload is one |
| Contents.AudioFilesMembers | src/gradio_server.py:54-56 | the transcribed paths are exactly the audio uploads |
| Contents.TranscribeAll | src/gradio_server.py:56-57 | when every `asr` call succeeds, the transcriptions are collected in upload order, one call per audio file |
| Contents.TranscribeOkOnlyIfAll | src/gradio_server.py:56 | successful transcription means every `asr` call succeeded |
| Contents.TranscribeSucceeds | src/gradio_server.py:56-57 | transcription succeeds iff every call succeeds, and then yields each transcription in order |
| Contents.TranscribeFails | src/gradio_server.py:56 | a failed transcription stops at the first failing path: all earlier paths succeeded, the fault is that path's, and no later path is tried |
| Contents.TranscribeStopsAtFault | src/gradio_server.py:56 | after a fault, later audio files change neither the outcome nor the calls |
| Contents.DocumentPath | src/gradio_server.py:66-70 | the document branch calls extract first and never the chat bot or `asr`; it succeeds iff extract, format and adjust all succeed, yielding the adjusted content |
| Contents.ReadDocument | src/gradio_server.py:66-70 | the imperative document branch returns the result and calls of `DocumentPath` |
| Contents.Answer | src/gradio_server.py:82-85 | every failure of the handler is the network message |
| Contents.Generate | src/gradio_server.py:50-85 | a `files` entry holding None fails with the network message before any collaborator is called; every failure is the network message |
| Contents.ScanUpload | src/gradio_server.py:50-72 | one pass of the upload loop: either it ends the handler with exactly the outcome `Answer` gives, or the upload is before the first document and the transcription of the uploads so far, with its calls and fragments, is extended by this one |
| Contents.GenerateContents | src/gradio_server.py:39-85 | the imperative handler returns the reply and performs exactly the calls `Generate` specifies; its loop invariant is the transcription so far of the uploads before the first document |
| ContentsFacts.ChatOutcome | src/gradio_server.py:74-81 | with no document and every transcription successful, the calls are one `asr` per audio upload, then one chat call with the requirement built from the text and transcripts; the chat answer is the reply |
| ContentsFacts.BareRequirement | src/gradio_server.py:75-79 | with no truthy text and no audio, the chat bot receives the bare prefix |
| ContentsFacts.DocumentOutcome | src/gradio_server.py:66-70 | the first document decides the reply: audio before it is transcribed and dropped, the document branch's result is the reply, and the chat bot is never called |
| ContentsFacts.TranscriptionFaultOutcome | src/gradio_server.py:54-85 | a transcription fault before the first document ends the handler with the network message, after the `asr` calls up to the first failing one and nothing else |
| ContentsFacts.AnswerSucceeds | src/gradio_server.py:39-85 | the handler succeeds iff each transcription succeeds and then either the whole document branch or the chat call succeeds |
| ContentsFacts.SameAnswer | src/gradio_server.py:50-79 | upload lists with the same audio before their first document and the same first document get the same reply and calls |
| ContentsFacts.TrailingUploadsIgnored | src/gradio_server.py:66-70 | uploads after the first document make no difference |
| ContentsFacts.UnsupportedInert | src/gradio_server.py:71-72 | an unsupported upload anywhere changes neither the reply nor the calls |
| ContentsFacts.GenerateIgnoresFilesAfterDocument | src/gradio_server.py:50-70 | appending files after a document leaves the handler's outcome unchanged |
| ContentsFacts.GenerateSkipsUnsupported | src/gradio_server.py:50-72 | removing an unsupported file from the file list leaves the handler's outcome unchanged |
| ContentsFacts.TypedTextOnly | src/gradio_server.py:44-81 | typed text without uploads makes a single chat call with "需求如下:\n" + text, whose answer is the reply |
| ContentsFacts.SingleDocument | src/gradio_server.py:66-70 | a lone Word document: its branch's calls and result are the handler's, and the chat bot is never called |
| ContentsFacts.TextAndVoiceNote | src/gradio_server.py:44-79 | text plus one voice note: one `asr` call, then a chat call with prefix, text, newline, transcript |
| ContentsFacts.VoiceNoteThenDocument | src/gradio_server.py:50-70 | a voice note then a document: the note is transcribed, then the document branch runs, and nothing else happens |
| ContentsFacts.DocumentAfterVoiceNote | src/gradio_server.py:50-70 | the same, whatever further files follow the document |
| Session.ImageGenerate | src/gradio_server.py:88-109 | success iff the history is non-empty and the advisor succeeds on the last content; on success the returned list is the new history; on failure the message is the image one and the history is unchanged |
| Session.AppendsOneTurn | src/gradio_server.py:91-105 | on success exactly one assistant turn is appended, holding the advisor's content, earlier turns are kept, and the only call is the advisor on the last content |
| Session.UnchangedOnFailure | src/gradio_server.py:91-109 | on failure the history is untouched; an empty history never reaches the advisor, and a non-empty one asks it once |
| Session.ImageUsesLastTurnOnly | src/gradio_server.py:91-93 | histories ending in the same content make the same calls, succeed alike and get the same new turn |
| Session.History.HandleImageGenerate | src/gradio_server.py:88-109 | the in-place method returns, calls and leaves the history as `ImageGenerate` specifies |
| Interfaces.UserError.Text | src/gradio_server.py:85-127 | the three user-facing messages of lines 85, 109 and 127, none empty |
| Interfaces.MessagesDistinct | src/gradio_server.py:85-127 | distinct failures show distinct messages |
| Render.OutputPath | src/gradio_server.py:119 | the path is "outputs/", then the title, then ".pptx" |
| Render.TitleOfOutputPath | src/gradio_server.py:119 | the title can be read back from the output path |
| Render.OutputPathOfTitle | src/gradio_server.py:119 | every path of that layout is the output path of the title read back from it |
| Render.OutputPathInjective | src/gradio_server.py:119 | distinct titles give distinct output files |
| Render.HandleGenerate | src/gradio_server.py:112-127 | every failure is the "enter your topic first" message; an empty history calls nothing; a parser fault leaves the parser call on the last content as the only call; once the parser succeeds, the calls are parse, then write of its slide data with the configured template to the title's output path, whatever the writer returns; on success the reply is that path |
| Render.RenderSucceeds | src/gradio_server.py:112-127 | success iff the history is non-empty, the parser succeeds and the writer succeeds on the title's path |
| Render.RenderUsesLastTurnOnly | src/gradio_server.py:115 | histories ending in the same content render alike |

## Left out

- The Gradio interface, its event wiring and the server launch (lines 130 onward): user interface, not logic.
- Environment variables, configuration loading and the collaborator singletons (lines 21-35). They become the fields of `Env`, including `template` for `config.ppt_template`.
- The internals of every collaborator: speech recognition, Word extraction, the LLM calls, image search, input parsing and deck writing. Each is an arbitrary function that may fail. ChatPPT's other modules are not part of this model.
- The chat bot's conversation memory: `chat` is modelled as a function of the requirement alone.
- Logging: it has no effect on results.
- The commented-out image branch and the commented-out image-pair turns (lines 58-64, 95-99): they are not code.
- The actual writing of the file: the writer is a collaborator that succeeds or fails.
- Session.History.HandleImageGenerate: Gradio gets back the history list object itself, aliased. The model returns the new sequence of turns and does not model that aliasing.
- Contents.GenerateContents: the `history` argument is accepted and ignored, as in the source. Appending the reply to the chat window is Gradio's job, not the handler's.
- Contents.Message: files are paths, texts are strings and a turn's content is a string. Gradio's file objects, multimodal content and a history entry without a "content" key are not modelled.
- Paths.Lower: lowers ASCII letters only. Unicode lowering of other characters cannot produce any of the letters of the five allow-listed extensions, so the classification is the same.
- Paths.Extension: follows the POSIX `os.path.splitext`, with "/" as the only separator. The Windows flavour, with "\\" and drive letters, is not modelled.
- Contents.Upload: pairs each path with its branch, computed once by `Classified`. This is a device of the proofs; the handler classifies each file as it reaches it.
