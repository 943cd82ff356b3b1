/**
 * The requirement string of `generate_contents`: a fixed prefix followed by the
 * collected fragments joined with newlines.
 */
module Requirements {
  import opened Wrappers

  const RequirementPrefix: string := "需求如下:\n"

  /** Python truthiness of the "text" entry: present and non-empty. */
  predicate Truthy(text: Option<string>) {
    text.Some? && text.value != ""
  }

  /** The fragments in the order the handler collects them: the typed text if truthy, then the transcriptions. */
  function Fragments(text: Option<string>, transcripts: seq<string>): (r: seq<string>)
    ensures |r| == |transcripts| + (if Truthy(text) then 1 else 0)
    ensures Truthy(text) ==> r[0] == text.value && r[1..] == transcripts
    ensures !Truthy(text) ==> r == transcripts
  {
    (if Truthy(text) then [text.value] else []) + transcripts
  }

  /** `sep.join(parts)`. */
  function Join(sep: string, parts: seq<string>): string {
    if |parts| == 0 then ""
    else if |parts| == 1 then parts[0]
    else parts[0] + sep + Join(sep, parts[1..])
  }

  /** `"需求如下:\n" + "\n".join(fragments)`. */
  function Requirement(text: Option<string>, transcripts: seq<string>): (r: string)
    ensures |r| >= |RequirementPrefix| && r[..|RequirementPrefix|] == RequirementPrefix
  {
    RequirementPrefix + Join("\n", Fragments(text, transcripts))
  }

  /** Index of the first occurrence of `c` in `s`, or -1 (`str.find`). */
  function Find(s: string, c: char): (i: int)
    ensures -1 <= i < |s|
    ensures i >= 0 ==> s[i] == c
    ensures forall j :: 0 <= j < |s| && (i < 0 || j < i) ==> s[j] != c
  {
    if s == [] then -1
    else if s[0] == c then 0
    else var i := Find(s[1..], c); if i < 0 then -1 else i + 1
  }

  /** `s.split(c)`: the pieces between occurrences of `c`; the inverse of joining with `c`. */
  function Split(s: string, c: char): (r: seq<string>)
    ensures |r| >= 1
    decreases |s|
  {
    var i := Find(s, c);
    if i < 0 then [s] else [s[..i]] + Split(s[i + 1..], c)
  }

  /** The first `c` of `head + [c] + rest` is the one after `head`, when `head` holds none. */
  lemma {:induction false} FindAfter(head: string, c: char, rest: string)
    requires c !in head
    ensures Find(head + [c] + rest, c) == |head|
    decreases |head|
  {
    if head != [] {
      assert (head + [c] + rest)[1..] == head[1..] + [c] + rest;
      FindAfter(head[1..], c, rest);
    }
  }

  /** Splitting at the first separator peels off the piece before it. */
  lemma {:induction false} SplitFirst(head: string, c: char, rest: string)
    requires c !in head
    ensures Split(head + [c] + rest, c) == [head] + Split(rest, c)
  {
    var s := head + [c] + rest;
    FindAfter(head, c, rest);
    assert s[..|head|] == head;
    assert s[|head| + 1..] == rest;
  }

  /** A string without the separator splits into itself. */
  lemma {:induction false} SplitNone(s: string, c: char)
    requires c !in s
    ensures Split(s, c) == [s]
    decreases |s|
  {
    if s != [] {
      SplitNone(s[1..], c);
    }
  }

  /** Joining with a newline and splitting at newlines gives back the parts, when no part holds a newline. */
  lemma {:induction false} SplitJoin(parts: seq<string>)
    requires parts != []
    requires forall i :: 0 <= i < |parts| ==> '\n' !in parts[i]
    ensures Split(Join("\n", parts), '\n') == parts
    decreases |parts|
  {
    if |parts| == 1 {
      SplitNone(parts[0], '\n');
    } else {
      SplitFirst(parts[0], '\n', Join("\n", parts[1..]));
      SplitJoin(parts[1..]);
      assert [parts[0]] + parts[1..] == parts;
    }
  }

  /**
   * The requirement is the prefix followed by the fragments, newline-separated
   * and in order; with no fragment it is the prefix alone.
   */
  lemma {:induction false} RequirementLayout(text: Option<string>, transcripts: seq<string>)
    ensures |Requirement(text, transcripts)| >= |RequirementPrefix|
    ensures Requirement(text, transcripts)[..|RequirementPrefix|] == RequirementPrefix
    ensures Fragments(text, transcripts) == [] ==> Requirement(text, transcripts) == RequirementPrefix
    ensures Fragments(text, transcripts) != [] && (forall i :: 0 <= i < |Fragments(text, transcripts)| ==> '\n' !in Fragments(text, transcripts)[i]) ==>
      Split(Requirement(text, transcripts)[|RequirementPrefix|..], '\n') == Fragments(text, transcripts)
  {
    var fragments := Fragments(text, transcripts);
    var r := Requirement(text, transcripts);
    assert r[|RequirementPrefix|..] == Join("\n", fragments);
    if fragments != [] && (forall i :: 0 <= i < |fragments| ==> '\n' !in fragments[i]) {
      SplitJoin(fragments);
    }
  }

  /** A typed text and one transcription: the text, a newline, the transcription. */
  lemma {:induction false} RequirementOfTextAndTranscript(text: string, transcript: string)
    requires text != ""
    ensures Requirement(Some(text), [transcript]) == RequirementPrefix + text + "\n" + transcript
  {
    var parts := [text, transcript];
    assert Fragments(Some(text), [transcript]) == parts;
    assert parts[1..] == [transcript];
    assert Join("\n", parts) == text + "\n" + transcript;
  }
}
