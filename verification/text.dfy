/** The string operations the forms rely on: ECMAScript `String.prototype.trim`,
    `String.prototype.split` with a one-character separator, and the
    "trimmed, or omitted when empty" rule used for every optional text key. */
module Text {
  import opened Wrappers

  /** The code points `trim` removes: ECMAScript's WhiteSpace (TAB, VT, FF, SP,
      NBSP, ZWNBSP and the Unicode space separators) and LineTerminator (LF, CR,
      LS, PS). */
  predicate IsWhitespace(c: char) {
    || c == '\t' || c == '\n' || c == '\U{B}' || c == '\U{C}' || c == '\r'
    || c == ' ' || c == '\U{A0}' || c == '\U{1680}'
    || ('\U{2000}' <= c <= '\U{200A}')
    || c == '\U{2028}' || c == '\U{2029}' || c == '\U{202F}' || c == '\U{205F}'
    || c == '\U{3000}' || c == '\U{FEFF}'
  }

  predicate AllWhitespace(s: string) {
    forall i :: 0 <= i < |s| ==> IsWhitespace(s[i])
  }

  /** A string `trim` leaves alone: empty, or starting and ending with a
      non-whitespace character. */
  predicate IsTrimmed(s: string) {
    s == [] || (!IsWhitespace(s[0]) && !IsWhitespace(s[|s| - 1]))
  }

  /** How many whitespace characters `s` starts with. */
  function LeadingWhitespace(s: string): (k: nat)
    ensures k <= |s|
    ensures forall i :: 0 <= i < k ==> IsWhitespace(s[i])
    ensures k < |s| ==> !IsWhitespace(s[k])
    decreases |s|
  {
    if |s| > 0 && IsWhitespace(s[0]) then
      var k := LeadingWhitespace(s[1..]);
      assert forall i :: 1 <= i < k + 1 ==> s[i] == s[1..][i - 1];
      k + 1
    else
      0
  }

  /** How many whitespace characters `s` ends with. */
  function TrailingWhitespace(s: string): (k: nat)
    ensures k <= |s|
    ensures forall i :: |s| - k <= i < |s| ==> IsWhitespace(s[i])
    ensures k < |s| ==> !IsWhitespace(s[|s| - k - 1])
    decreases |s|
  {
    if |s| > 0 && IsWhitespace(s[|s| - 1]) then
      var init := s[..|s| - 1];
      var k := TrailingWhitespace(init);
      assert forall i :: |init| - k <= i < |init| ==> s[i] == init[i];
      k + 1
    else
      0
  }

  /** `trimStart`: drops the leading whitespace and nothing else. */
  function TrimStart(s: string): (r: string)
    ensures |r| <= |s|
    ensures s == s[..|s| - |r|] + r
    ensures AllWhitespace(s[..|s| - |r|])
    ensures r == [] || !IsWhitespace(r[0])
  {
    var k := LeadingWhitespace(s);
    assert s == s[..k] + s[k..];
    s[k..]
  }

  /** `trimEnd`: drops the trailing whitespace and nothing else. */
  function TrimEnd(s: string): (r: string)
    ensures |r| <= |s|
    ensures s == r + s[|r|..]
    ensures AllWhitespace(s[|r|..])
    ensures r == [] || !IsWhitespace(r[|r| - 1])
  {
    var k := TrailingWhitespace(s);
    var n := |s| - k;
    assert s == s[..n] + s[n..];
    assert forall i :: 0 <= i < k ==> s[n..][i] == s[n + i];
    s[..n]
  }

  /** `trim`: the string without its leading and trailing whitespace. */
  function Trim(s: string): (r: string)
    ensures |r| <= |s|
    ensures IsTrimmed(r)
    ensures r == [] <==> AllWhitespace(s)
  {
    var t := TrimStart(s);
    var r := TrimEnd(t);
    if r == [] then
      assert AllWhitespace(t);
      assert s == s[..|s| - |t|] + t;
      r
    else
      r
  }

  /** The check `!name.trim()`: a name that is empty after trimming, that is,
      one made of whitespace only (see BlankIffTrimEmpty). */
  predicate IsBlank(s: string) {
    AllWhitespace(s)
  }

  lemma BlankIffTrimEmpty(s: string)
    ensures IsBlank(s) <==> Trim(s) == []
  {
  }

  /** `text.trim() || undefined`: the trimmed text, or nothing when it is blank. */
  function TrimOrOmit(s: string): (r: Option<string>)
    ensures r.None? <==> AllWhitespace(s)
    ensures r.Some? ==> r.value == Trim(s) && r.value != [] && IsTrimmed(r.value)
  {
    var t := Trim(s);
    if t == [] then None else Some(t)
  }

  /** Trimming splits a string into whitespace, the trimmed text, whitespace. */
  lemma TrimDecomposes(s: string) returns (pre: string, post: string)
    ensures s == pre + Trim(s) + post
    ensures AllWhitespace(pre) && AllWhitespace(post)
  {
    var t := TrimStart(s);
    pre := s[..|s| - |t|];
    var r := TrimEnd(t);
    post := t[|r|..];
    assert r == Trim(s);
    assert s == pre + t && t == r + post;
    assert s == pre + r + post;
  }

  /** Only the whitespace before a text that starts with a non-whitespace
      character is leading whitespace. */
  lemma TrimStartOfPadded(pre: string, core: string)
    requires AllWhitespace(pre)
    requires core == [] || !IsWhitespace(core[0])
    ensures TrimStart(pre + core) == core
  {
    var s := pre + core;
    var k := LeadingWhitespace(s);
    assert forall i :: 0 <= i < |pre| ==> s[i] == pre[i];
    assert |core| > 0 ==> s[|pre|] == core[0];
    assert k == |pre|;
    assert s[k..] == core;
  }

  lemma TrimEndOfPadded(core: string, post: string)
    requires AllWhitespace(post)
    requires core == [] || !IsWhitespace(core[|core| - 1])
    ensures TrimEnd(core + post) == core
  {
    var s := core + post;
    var k := TrailingWhitespace(s);
    assert forall i :: 0 <= i < |post| ==> s[|core| + i] == post[i];
    assert |core| > 0 ==> s[|core| - 1] == core[|core| - 1];
    assert k == |post|;
    assert s[..|s| - k] == core;
  }

  /** The converse of TrimDecomposes: whatever whitespace surrounds a trimmed
      text, `trim` returns exactly that text. */
  lemma {:induction false} TrimOfPadded(pre: string, core: string, post: string)
    requires AllWhitespace(pre) && AllWhitespace(post)
    requires IsTrimmed(core)
    ensures Trim(pre + core + post) == core
  {
    if core == [] {
      assert AllWhitespace(pre + core + post);
    } else {
      assert pre + core + post == pre + (core + post);
      TrimStartOfPadded(pre, core + post);
      TrimEndOfPadded(core, post);
    }
  }

  /** Trimming adds no character. */
  lemma TrimKeeps(s: string, c: char)
    ensures c in Trim(s) ==> c in s
  {
    var pre, post := TrimDecomposes(s);
  }

  /** A trimmed string is its own trim. */
  lemma TrimOfTrimmed(s: string)
    requires IsTrimmed(s)
    ensures Trim(s) == s
  {
    if s != [] {
      assert LeadingWhitespace(s) == 0;
      assert TrimStart(s) == s;
      assert TrailingWhitespace(s) == 0;
    }
  }

  /** Trimming twice is trimming once. */
  lemma TrimIdempotent(s: string)
    ensures Trim(Trim(s)) == Trim(s)
  {
    TrimOfTrimmed(Trim(s));
  }

  /** `s.split(sep)` for a one-character separator: the maximal separator-free
      pieces, in order; an empty string gives one empty piece. */
  function Split(s: string, sep: char): (r: seq<string>)
    ensures |r| >= 1
    ensures forall i :: 0 <= i < |r| ==> sep !in r[i]
    ensures Join(r, sep) == s
    decreases |s|
  {
    if |s| == 0 then
      [[]]
    else if s[0] == sep then
      var rest := Split(s[1..], sep);
      assert s == [sep] + s[1..];
      [[]] + rest
    else
      var rest := Split(s[1..], sep);
      var r := [[s[0]] + rest[0]] + rest[1..];
      assert r[1..] == rest[1..];
      r
  }

  /** `xs.join(sep)` for a one-character separator. */
  function Join(xs: seq<string>, sep: char): string
    decreases |xs|
  {
    if |xs| == 0 then []
    else if |xs| == 1 then xs[0]
    else xs[0] + [sep] + Join(xs[1..], sep)
  }

  /** Splitting undoes joining, whenever no piece contains the separator. */
  lemma {:induction false} SplitJoin(xs: seq<string>, sep: char)
    requires |xs| >= 1
    requires forall i :: 0 <= i < |xs| ==> sep !in xs[i]
    ensures Split(Join(xs, sep), sep) == xs
    decreases |xs|, |xs[0]|
  {
    if |xs| == 1 {
      SplitPiece(xs[0], sep);
    } else {
      var tail := Join(xs[1..], sep);
      SplitJoin(xs[1..], sep);
      SplitPrefix(xs[0], tail, sep);
    }
  }

  /** A separator-free string splits into itself. */
  lemma {:induction false} SplitPiece(p: string, sep: char)
    requires sep !in p
    ensures Split(p, sep) == [p]
    decreases |p|
  {
    if p != [] {
      SplitPiece(p[1..], sep);
    }
  }

  /** A separator-free prefix followed by the separator becomes the first piece. */
  lemma {:induction false} SplitPrefix(p: string, tail: string, sep: char)
    requires sep !in p
    ensures Split(p + [sep] + tail, sep) == [p] + Split(tail, sep)
    decreases |p|
  {
    var s := p + [sep] + tail;
    if p == [] {
      assert s[0] == sep && s[1..] == tail;
    } else {
      assert s[0] == p[0] && s[1..] == p[1..] + [sep] + tail;
      assert p[0] != sep by {
        assert p[0] in p;
      }
      SplitPrefix(p[1..], tail, sep);
      var rest := Split(s[1..], sep);
      assert rest == [p[1..]] + Split(tail, sep);
      assert [p[0]] + p[1..] == p;
    }
  }
}
