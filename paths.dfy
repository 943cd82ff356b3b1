/**
 * File classification of the upload loop: the extension as `os.path.splitext`
 * (POSIX flavour) computes it, lowered, and matched against two allow-lists.
 */
module Paths {

  /** Index of the last occurrence of `c` in `s`, or -1 (`str.rfind`). */
  function RFind(s: string, c: char): (i: int)
    ensures -1 <= i < |s|
  {
    if s == [] then -1
    else if s[|s| - 1] == c then |s| - 1
    else RFind(s[..|s| - 1], c)
  }

  /** A found index holds `c`, and no later position does. */
  lemma {:induction false} RFindIsLast(s: string, c: char)
    ensures RFind(s, c) >= 0 ==> s[RFind(s, c)] == c
    ensures forall j :: RFind(s, c) < j < |s| ==> s[j] != c
    decreases |s|
  {
    if s != [] && s[|s| - 1] != c {
      var t := s[..|s| - 1];
      RFindIsLast(t, c);
      assert forall j :: 0 <= j < |t| ==> s[j] == t[j];
    }
  }

  /**
   * `d` is where the extension of `p` starts: a dot after which there is no
   * further dot and no separator, preceded inside the last path component by a
   * character that is not a dot (leading dots of a name do not start an extension).
   */
  ghost predicate ExtensionAt(p: string, d: int) {
    && 0 <= d < |p| && p[d] == '.'
    && (forall j :: d < j < |p| ==> p[j] != '.' && p[j] != '/')
    && (exists k :: 0 <= k < d && p[k] != '.' && p[k] != '/' && forall m :: k < m < d ==> p[m] != '/')
  }

  /** The second half of `os.path.splitext(p)`: the extension with its dot, or "". */
  function Extension(p: string): string {
    var sep := RFind(p, '/');
    var dot := RFind(p, '.');
    if dot > sep && (exists k | sep + 1 <= k < dot :: p[k] != '.') then p[dot..] else ""
  }

  /** The extension is non-empty exactly when some position starts one, and it is the suffix from there. */
  lemma {:induction false} ExtensionCharacterised(p: string)
    ensures Extension(p) != "" <==> exists d :: ExtensionAt(p, d)
    ensures forall d :: ExtensionAt(p, d) ==> Extension(p) == p[d..]
  {
    RFindIsLast(p, '/');
    RFindIsLast(p, '.');
    var sep := RFind(p, '/');
    var dot := RFind(p, '.');
    if dot > sep && (exists k | sep + 1 <= k < dot :: p[k] != '.') {
      assert ExtensionAt(p, dot);
    } else {
      forall d | ExtensionAt(p, d) ensures false {
        var k :| 0 <= k < d && p[k] != '.' && p[k] != '/' && forall m :: k < m < d ==> p[m] != '/';
      }
    }
  }

  function LowerChar(c: char): char {
    if 'A' <= c <= 'Z' then (c as int + 32) as char else c
  }

  /** `str.lower`, on ASCII letters. */
  function Lower(s: string): (r: string)
    ensures |r| == |s|
  {
    seq(|s|, i requires 0 <= i < |s| => LowerChar(s[i]))
  }

  datatype ExtClass = Audio | Document | Unsupported

  const AudioExtensions: seq<string> := [".wav", ".flac", ".mp3"]
  const DocumentExtensions: seq<string> := [".docx", ".doc"]

  /** Which branch of the upload loop a file takes. */
  function Classify(path: string): ExtClass {
    var ext := Lower(Extension(path));
    if ext in AudioExtensions then Audio
    else if ext in DocumentExtensions then Document
    else Unsupported
  }

  /** Lowering changes no dot and no separator, so the last one is where it was. */
  lemma {:induction false} RFindLower(s: string, c: char)
    requires c == '.' || c == '/'
    ensures RFind(Lower(s), c) == RFind(s, c)
    decreases |s|
  {
    if s != [] {
      var t := s[..|s| - 1];
      assert Lower(s)[..|s| - 1] == Lower(t);
      RFindLower(t, c);
    }
  }

  /** Lowering a path first does not move its extension: the two operations commute. */
  lemma {:induction false} ExtensionOfLower(p: string)
    ensures Extension(Lower(p)) == Lower(Extension(p))
  {
    var q := Lower(p);
    RFindLower(p, '/');
    RFindLower(p, '.');
    var sep, dot := RFind(p, '/'), RFind(p, '.');
    assert forall k :: 0 <= k < |p| ==> (q[k] == '.' <==> p[k] == '.');
    assert (exists k | sep + 1 <= k < dot :: q[k] != '.') <==> (exists k | sep + 1 <= k < dot :: p[k] != '.');
    if dot > sep && (exists k | sep + 1 <= k < dot :: p[k] != '.') {
      assert Extension(q) == q[dot..];
      assert Lower(p[dot..]) == q[dot..];
    } else {
      assert Extension(q) == "";
      assert Lower("") == "";
    }
  }

  /** Classification is case-insensitive: paths that agree once lowered land in the same branch. */
  lemma {:induction false} ClassifyIgnoresCase(p: string, q: string)
    requires Lower(p) == Lower(q)
    ensures Classify(p) == Classify(q)
  {
    ExtensionOfLower(p);
    ExtensionOfLower(q);
  }

  /**
   * A name made of a stem holding a character other than a dot, followed by a
   * dotted suffix with no further dot or separator, has that suffix as its
   * extension, whatever directory precedes it.
   */
  lemma {:induction false} ExtensionOfName(dir: string, stem: string, ext: string)
    requires '/' !in stem && stem != [] && stem[0] != '.'
    requires |ext| > 0 && ext[0] == '.' && '.' !in ext[1..] && '/' !in ext
    ensures Extension(dir + stem + ext) == ext
  {
    var p := dir + stem + ext;
    var d := |dir| + |stem|;
    assert p[d..] == ext;
    assert p[|dir|] == stem[0];
    forall j | d < j < |p| ensures p[j] != '.' && p[j] != '/' {
      assert p[j] == ext[j - d];
      assert ext[j - d] in ext[1..];
    }
    forall m | |dir| < m < d ensures p[m] != '/' {
      assert p[m] == stem[m - |dir|];
    }
    assert ExtensionAt(p, d);
    ExtensionCharacterised(p);
  }

  /**
   * The branch a well-formed file name takes is decided by its extension alone,
   * ignoring case: exactly the three audio extensions and the two document
   * extensions are recognised.
   */
  lemma {:induction false} ClassifyName(dir: string, stem: string, ext: string)
    requires '/' !in stem && stem != [] && stem[0] != '.'
    requires |ext| > 0 && ext[0] == '.' && '.' !in ext[1..] && '/' !in ext
    ensures Classify(dir + stem + ext) == Audio <==> Lower(ext) in AudioExtensions
    ensures Classify(dir + stem + ext) == Document <==> Lower(ext) in DocumentExtensions
  {
    ExtensionOfName(dir, stem, ext);
  }

  /** The last `c` of `s` is the one at `i` when none follows it. */
  lemma {:induction false} RFindAt(s: string, c: char, i: nat)
    requires i < |s| && s[i] == c
    requires forall j :: i < j < |s| ==> s[j] != c
    ensures RFind(s, c) == i
    decreases |s|
  {
    if i < |s| - 1 {
      RFindAt(s[..|s| - 1], c, i);
    }
  }

  /**
   * A name whose only dot is its first character (".mp3", ".docx") is a hidden
   * file without extension, so it is never transcribed nor read as a document.
   */
  lemma {:induction false} LeadingDotIsNoExtension(dir: string, rest: string)
    requires dir == [] || dir[|dir| - 1] == '/'
    requires '.' !in rest && '/' !in rest
    ensures Extension(dir + "." + rest) == ""
    ensures Classify(dir + "." + rest) == Unsupported
  {
    var p := dir + "." + rest;
    var d := |dir|;
    forall j | d < j < |p| ensures p[j] != '.' && p[j] != '/' {
      assert p[j] == rest[j - d - 1];
    }
    RFindAt(p, '.', d);
    if dir != [] {
      RFindAt(p, '/', d - 1);
    } else {
      RFindIsLast(p, '/');
    }
  }
}
