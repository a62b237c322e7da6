/** Paths as the offload cycle sees them: a relative filesystem path is the sequence
    of its components (the empty sequence is the empty path "", which Python treats
    as false), and the remote object name is a string built from those components. */
module Paths {

  type Path = seq<string>

  /** `os.path.dirname`: drop the last component ("" stays ""). */
  function Dirname(p: Path): (d: Path)
    ensures IsPrefix(d, p)
    ensures p != [] ==> |d| == |p| - 1
  {
    if p == [] then [] else p[..|p| - 1]
  }

  predicate IsPrefix(a: Path, b: Path) {
    |a| <= |b| && b[..|a|] == a
  }

  /** `p` names an entry inside the directory `root` (at any depth), never `root` itself. */
  predicate StrictlyUnder(root: Path, p: Path) {
    IsPrefix(root, p) && |p| > |root|
  }

  /** `os.path.relpath(p, start=root)` for an entry below `root`: its components after `root`. */
  function RelPath(root: Path, p: Path): (r: Path)
    requires StrictlyUnder(root, p)
    ensures |r| >= 1 && root + r == p
  {
    p[|root|..]
  }

  /** The components joined by the separator character, as `os.path.join` spells a relative path. */
  function JoinWith(cs: seq<string>, sep: char): string
  {
    if |cs| == 0 then ""
    else if |cs| == 1 then cs[0]
    else cs[0] + [sep] + JoinWith(cs[1..], sep)
  }

  /** `str.split(sep)`: the maximal pieces between occurrences of `sep` (never empty). */
  function Split(s: string, sep: char): (r: seq<string>)
    ensures |r| >= 1
  {
    if s == [] then [""]
    else
      var rest := Split(s[1..], sep);
      if s[0] == sep then [""] + rest
      else [[s[0]] + rest[0]] + rest[1..]
  }

  /** `str.replace(a, b)` for single characters. */
  function Replace(s: string, a: char, b: char): (r: string)
    ensures |r| == |s|
    ensures forall i :: 0 <= i < |s| ==> r[i] == (if s[i] == a then b else s[i])
  {
    if s == [] then [] else [if s[0] == a then b else s[0]] + Replace(s[1..], a, b)
  }

  /** A component as the filesystem hands it out: non-empty, with no path separator in it. */
  predicate ValidComponents(cs: seq<string>, sep: char) {
    forall x <- cs :: x != "" && sep !in x && '/' !in x
  }

  lemma {:induction false} SplitWithoutSeparator(w: string, sep: char)
    requires sep !in w
    ensures Split(w, sep) == [w]
  {
    if w != [] {
      SplitWithoutSeparator(w[1..], sep);
      assert [w[0]] + w[1..] == w;
    }
  }

  lemma {:induction false} SplitAtSeparator(w: string, t: string, sep: char)
    requires sep !in w
    ensures Split(w + [sep] + t, sep) == [w] + Split(t, sep)
  {
    var s := w + [sep] + t;
    if w == [] {
      assert s[0] == sep && s[1..] == t;
    } else {
      assert s[1..] == w[1..] + [sep] + t;
      SplitAtSeparator(w[1..], t, sep);
      assert [w[0]] + w[1..] == w;
    }
  }

  /** Splitting a joined path at its separator gives the components back. */
  lemma {:induction false} SplitJoin(cs: seq<string>, sep: char)
    requires |cs| >= 1
    requires forall x <- cs :: sep !in x
    ensures Split(JoinWith(cs, sep), sep) == cs
  {
    if |cs| == 1 {
      SplitWithoutSeparator(cs[0], sep);
    } else {
      SplitAtSeparator(cs[0], JoinWith(cs[1..], sep), sep);
      SplitJoin(cs[1..], sep);
      assert [cs[0]] + cs[1..] == cs;
    }
  }

  /** Replacing the separator in a joined path is the same as joining with the new one. */
  lemma {:induction false} ReplaceJoin(cs: seq<string>, sep: char, to: char)
    requires forall x <- cs :: sep !in x
    ensures Replace(JoinWith(cs, sep), sep, to) == JoinWith(cs, to)
  {
    if |cs| == 1 {
      ReplaceIdentity(cs[0], sep, to);
    } else if |cs| > 1 {
      ReplaceJoin(cs[1..], sep, to);
      ReplaceAfterComponent(cs[0], JoinWith(cs[1..], sep), sep, to);
    }
  }

  lemma ReplaceAfterComponent(head: string, tail: string, sep: char, to: char)
    requires sep !in head
    ensures Replace(head + [sep] + tail, sep, to) == head + [to] + Replace(tail, sep, to)
  {
    ReplaceConcat(head, [sep] + tail, sep, to);
    ReplaceConcat([sep], tail, sep, to);
    ReplaceIdentity(head, sep, to);
    assert head + [sep] + tail == head + ([sep] + tail);
    assert head + [to] + Replace(tail, sep, to) == head + ([to] + Replace(tail, sep, to));
  }

  lemma ReplaceIdentity(s: string, a: char, b: char)
    requires a !in s
    ensures Replace(s, a, b) == s
  {
  }

  lemma ReplaceConcat(s: string, t: string, a: char, b: char)
    ensures Replace(s + t, a, b) == Replace(s, a, b) + Replace(t, a, b)
  {
  }

  /** A joined path contains the separator exactly when it has more than one component. */
  lemma {:induction false} JoinHasSeparator(cs: seq<string>, sep: char)
    requires forall x <- cs :: sep !in x
    ensures sep in JoinWith(cs, sep) <==> |cs| > 1
  {
    if |cs| > 1 {
      assert JoinWith(cs, sep)[|cs[0]|] == sep;
    } else if |cs| == 1 {
      assert JoinWith(cs, sep) == cs[0];
    }
  }
}
