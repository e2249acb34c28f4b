/** The parts of Go's `strings` and `fmt` packages that the relay uses,
    stated over strings of Unicode scalar values (Go runes). */
module Text {

  /** Go's unicode.IsSpace: the Latin-1 spaces plus the Unicode White_Space
      property above Latin-1. */
  predicate IsSpace(c: char) {
    || c == '\t' || c == '\n' || c == '\U{0B}' || c == '\U{0C}' || c == '\r' || c == ' '
    || c == '\U{85}' || c == '\U{A0}' || c == '\U{1680}'
    || ('\U{2000}' <= c <= '\U{200A}')
    || c == '\U{2028}' || c == '\U{2029}' || c == '\U{202F}' || c == '\U{205F}' || c == '\U{3000}'
  }

  predicate AllSpace(s: string) {
    forall i :: 0 <= i < |s| ==> IsSpace(s[i])
  }

  predicate NoSpace(s: string) {
    forall i :: 0 <= i < |s| ==> !IsSpace(s[i])
  }

  /** Only ' ' characters. */
  predicate Blank(s: string) {
    forall i :: 0 <= i < |s| ==> s[i] == ' '
  }

  /** A string that fits on one line: no '\n' in it. */
  predicate SingleLine(s: string) {
    forall i :: 0 <= i < |s| ==> s[i] != '\n'
  }

  /** strings.HasPrefix */
  predicate HasPrefix(s: string, prefix: string) {
    prefix <= s
  }

  /** strings.Contains: `sub` occurs somewhere in `s`. */
  predicate Contains(s: string, sub: string)
    decreases |s|
  {
    sub <= s || (s != [] && Contains(s[1..], sub))
  }

  /** Number of bytes of the UTF-8 encoding of one rune. */
  function RuneLength(c: char): (n: nat)
    ensures 1 <= n <= 4
  {
    if c as int < 0x80 then 1
    else if c as int < 0x800 then 2
    else if c as int < 0x1_0000 then 3
    else 4
  }

  /** Go's `len` on a string: its length in UTF-8 bytes. */
  function Utf8Length(s: string): (n: nat)
    ensures |s| <= n <= 4 * |s|
  {
    if s == [] then 0 else RuneLength(s[0]) + Utf8Length(s[1..])
  }

  /** strings.TrimLeftFunc(s, unicode.IsSpace) */
  function TrimLeft(s: string): string {
    if s != [] && IsSpace(s[0]) then TrimLeft(s[1..]) else s
  }

  /** TrimLeft removes a run of white space from the front and nothing else,
      and what it keeps does not start with white space. */
  lemma {:induction false} TrimLeftDrops(s: string)
    ensures |TrimLeft(s)| <= |s| && TrimLeft(s) == s[|s| - |TrimLeft(s)|..]
    ensures AllSpace(s[..|s| - |TrimLeft(s)|])
    ensures TrimLeft(s) == [] || !IsSpace(TrimLeft(s)[0])
  {
    if s != [] && IsSpace(s[0]) {
      TrimLeftDrops(s[1..]);
      var k := |s| - |TrimLeft(s)|;
      assert s[..k] == [s[0]] + s[1..][..k - 1];
    }
  }

  /** strings.TrimRightFunc(s, unicode.IsSpace) */
  function TrimRight(s: string): string {
    if s != [] && IsSpace(s[|s| - 1]) then TrimRight(s[..|s| - 1]) else s
  }

  /** TrimRight removes a run of white space from the end and nothing else,
      and what it keeps does not end with white space. */
  lemma {:induction false} TrimRightDrops(s: string)
    ensures |TrimRight(s)| <= |s| && TrimRight(s) == s[..|TrimRight(s)|]
    ensures AllSpace(s[|TrimRight(s)|..])
    ensures TrimRight(s) == [] || !IsSpace(TrimRight(s)[|TrimRight(s)| - 1])
  {
    if s != [] && IsSpace(s[|s| - 1]) {
      var init := s[..|s| - 1];
      TrimRightDrops(init);
      var k := |TrimRight(s)|;
      assert s[k..] == init[k..] + [s[|s| - 1]];
    }
  }

  /** strings.TrimSpace: `s` without its leading and trailing white space. */
  function TrimSpace(s: string): string {
    TrimRight(TrimLeft(s))
  }

  /** TrimSpace keeps a contiguous piece of `s`, removes only white space,
      and leaves no white space at either end. */
  lemma TrimSpaceSlice(s: string) returns (i: nat)
    ensures i + |TrimSpace(s)| <= |s| && TrimSpace(s) == s[i..i + |TrimSpace(s)|]
    ensures AllSpace(s[..i]) && AllSpace(s[i + |TrimSpace(s)|..])
    ensures TrimSpace(s) == [] || (!IsSpace(TrimSpace(s)[0]) && !IsSpace(TrimSpace(s)[|TrimSpace(s)| - 1]))
  {
    var l := TrimLeft(s);
    var r := TrimRight(l);
    TrimLeftDrops(s);
    TrimRightDrops(l);
    i := |s| - |l|;
    assert s[i..] == l;
    assert s[i..i + |r|] == l[..|r|];
    assert s[i + |r|..] == l[|r|..];
    if r != [] {
      assert r[0] == l[0];
    }
  }

  /** A line without '\n' trims to a line without '\n'. */
  lemma TrimSpaceSingleLine(s: string)
    requires SingleLine(s)
    ensures SingleLine(TrimSpace(s))
  {
    var i := TrimSpaceSlice(s);
    var t := TrimSpace(s);
    forall k | 0 <= k < |t| ensures t[k] != '\n' {
      assert t[k] == s[i + k];
    }
  }

  /** The longest leading run of non-space runes of `s`. */
  function Word(s: string): (w: string)
    ensures |w| <= |s|
  {
    if s == [] || IsSpace(s[0]) then [] else [s[0]] + Word(s[1..])
  }

  /** Word(s) is a prefix of `s` free of white space, and it stops only at the
      end of `s` or at white space. */
  lemma {:induction false} WordIsRun(s: string)
    ensures Word(s) <= s && NoSpace(Word(s))
    ensures |Word(s)| == |s| || IsSpace(s[|Word(s)|])
    ensures s != [] && !IsSpace(s[0]) ==> Word(s) != []
  {
    if s != [] && !IsSpace(s[0]) {
      WordIsRun(s[1..]);
    }
  }

  /** strings.Fields: the maximal runs of non-space runes of `s`, in order. */
  function Fields(s: string): seq<string>
    decreases |s|
  {
    var t := TrimLeft(s);
    if t == [] then []
    else
      TrimLeftDrops(s);
      WordIsRun(t);
      var w := Word(t);
      [w] + Fields(t[|w|..])
  }

  /** Every field is a non-empty run of non-space runes. */
  lemma {:induction false} FieldsAreWords(s: string)
    ensures forall f :: f in Fields(s) ==> f != [] && NoSpace(f)
    decreases |s|
  {
    var t := TrimLeft(s);
    if t != [] {
      TrimLeftDrops(s);
      WordIsRun(t);
      var w := Word(t);
      FieldsAreWords(t[|w|..]);
      assert Fields(s) == [w] + Fields(t[|w|..]);
    }
  }

  /** White space in front of a string does not change its fields. */
  lemma {:induction false} FieldsSkipsSpace(gap: string, rest: string)
    requires AllSpace(gap)
    ensures Fields(gap + rest) == Fields(rest)
  {
    TrimLeftSkipsSpace(gap, rest);
  }

  lemma {:induction false} TrimLeftSkipsSpace(gap: string, rest: string)
    requires AllSpace(gap)
    ensures TrimLeft(gap + rest) == TrimLeft(rest)
    decreases |gap|
  {
    if gap == [] {
      assert gap + rest == rest;
    } else {
      assert (gap + rest)[1..] == gap[1..] + rest;
      TrimLeftSkipsSpace(gap[1..], rest);
    }
  }

  lemma {:induction false} WordOfPrefix(w: string, t: string)
    requires NoSpace(w)
    requires t == [] || IsSpace(t[0])
    ensures Word(w + t) == w
    decreases |w|
  {
    if w == [] {
      assert w + t == t;
    } else {
      assert (w + t)[1..] == w[1..] + t;
      WordOfPrefix(w[1..], t);
    }
  }

  /** A word followed by white space is the first field: this is what lets a
      padded, space-separated row be split back into its cells. */
  lemma {:induction false} FieldsOfWord(w: string, gap: string, rest: string)
    requires w != [] && NoSpace(w)
    requires AllSpace(gap) && (gap != [] || rest == [])
    ensures Fields(w + gap + rest) == [w] + Fields(rest)
  {
    var s := w + gap + rest;
    assert s == w + (gap + rest);
    assert s[0] == w[0];
    assert TrimLeft(s) == s;
    WordOfPrefix(w, gap + rest);
    assert s[|w|..] == gap + rest;
    FieldsSkipsSpace(gap, rest);
  }

  /** `n` space characters. */
  function Spaces(n: nat): string {
    if n == 0 then [] else [' '] + Spaces(n - 1)
  }

  /** Spaces(n) is `n` runes long and holds only ' '. */
  lemma {:induction false} SpacesShape(n: nat)
    ensures |Spaces(n)| == n && Blank(Spaces(n))
  {
    if n > 0 {
      SpacesShape(n - 1);
      assert forall i :: 1 <= i < n ==> Spaces(n)[i] == Spaces(n - 1)[i - 1];
    }
  }

  /** fmt's `%-Ns` verb: pad on the right with spaces to at least `width`
      runes; a longer string is kept whole. */
  function PadRight(s: string, width: nat): string {
    if |s| < width then s + Spaces(width - |s|) else s
  }

  /** PadRight keeps `s` whole at the front, fills up to `width` runes with
      ' ', and adds nothing when `s` is already that wide. */
  lemma PadRightShape(s: string, width: nat)
    ensures |PadRight(s, width)| == if |s| < width then width else |s|
    ensures s <= PadRight(s, width)
    ensures Blank(PadRight(s, width)[|s|..])
  {
    if |s| < width {
      SpacesShape(width - |s|);
      assert PadRight(s, width)[|s|..] == Spaces(width - |s|);
    }
  }

  /** Blanks are spaces on one line. */
  lemma BlankIsSpace(s: string)
    requires Blank(s)
    ensures AllSpace(s) && SingleLine(s)
  {
  }

  /** A word holds no '\n', which is a space. */
  lemma NoSpaceIsSingleLine(s: string)
    requires NoSpace(s)
    ensures SingleLine(s)
  {
  }

  lemma SingleLineConcat(a: string, b: string)
    ensures SingleLine(a + b) <==> SingleLine(a) && SingleLine(b)
  {
    if SingleLine(a + b) {
      assert forall i :: 0 <= i < |a| ==> a[i] == (a + b)[i];
      assert forall i :: 0 <= i < |b| ==> b[i] == (a + b)[|a| + i];
    }
  }

  /** strings.Split(s, "\n") */
  function Split(s: string): (r: seq<string>)
    ensures |r| >= 1
  {
    if s == [] then [[]]
    else
      var rest := Split(s[1..]);
      if s[0] == '\n' then [[]] + rest
      else [[s[0]] + rest[0]] + rest[1..]
  }

  /** No piece of a split holds a '\n'. */
  lemma {:induction false} SplitSingleLines(s: string)
    ensures forall l :: l in Split(s) ==> SingleLine(l)
  {
    if s != [] {
      var rest := Split(s[1..]);
      SplitSingleLines(s[1..]);
      if s[0] != '\n' {
        assert rest[0] in rest;
        assert forall l :: l in rest[1..] ==> l in rest;
      }
    }
  }

  /** strings.Join(lines, "\n") */
  function Join(lines: seq<string>): string {
    if |lines| == 0 then []
    else if |lines| == 1 then lines[0]
    else lines[0] + "\n" + Join(lines[1..])
  }

  /** Joining the pieces of a split gives the string back. */
  lemma {:induction false} JoinSplit(s: string)
    ensures Join(Split(s)) == s
  {
    if s != [] {
      var rest := Split(s[1..]);
      JoinSplit(s[1..]);
      if s[0] == '\n' {
        assert Join([[]] + rest) == [] + "\n" + Join(rest);
      } else if |rest| == 1 {
        assert Join(Split(s)) == [s[0]] + rest[0];
      } else {
        var r := Split(s);
        assert r[1..] == rest[1..];
        assert Join(r) == [s[0]] + rest[0] + "\n" + Join(rest[1..]);
      }
    }
  }

  lemma {:induction false} SplitSingleLine(w: string)
    requires SingleLine(w)
    ensures Split(w) == [w]
  {
    if w != [] {
      SplitSingleLine(w[1..]);
      assert [w[0]] + w[1..] == w;
    }
  }

  lemma {:induction false} SplitFirstLine(w: string, t: string)
    requires SingleLine(w)
    ensures Split(w + "\n" + t) == [w] + Split(t)
    decreases |w|
  {
    var s := w + "\n" + t;
    if w == [] {
      assert s[1..] == t;
    } else {
      assert s[1..] == w[1..] + "\n" + t;
      SplitFirstLine(w[1..], t);
      var rest := Split(s[1..]);
      assert rest == [w[1..]] + Split(t);
      assert [w[0]] + w[1..] == w;
      assert Split(s) == [[w[0]] + rest[0]] + rest[1..];
    }
  }

  /** Splitting a join of single lines gives the lines back. */
  lemma {:induction false} SplitJoin(lines: seq<string>)
    requires |lines| >= 1
    requires forall l :: l in lines ==> SingleLine(l)
    ensures Split(Join(lines)) == lines
  {
    if |lines| == 1 {
      SplitSingleLine(lines[0]);
    } else {
      assert lines[0] in lines;
      assert forall l :: l in lines[1..] ==> l in lines;
      SplitJoin(lines[1..]);
      SplitFirstLine(lines[0], Join(lines[1..]));
      assert lines == [lines[0]] + lines[1..];
    }
  }
}
