/** Python 2's `StringIO.StringIO` as the G-code generator uses it: a text
    with a cursor. A write overwrites from the cursor (padding with NUL
    characters when the cursor lies past the end) and moves the cursor to
    the end of what it wrote; reading starts at the cursor. */
module StringIO {
  import opened Strings

  datatype Buffer = Buffer(text: string, pos: nat)

  /** `StringIO.StringIO(initial)`: the cursor starts at 0. */
  function New(initial: string): Buffer
  {
    Buffer(initial, 0)
  }

  /** A buffer whose cursor sits at its end, as every buffer that has only been written to. */
  predicate AtEnd(b: Buffer)
  {
    b.pos == |b.text|
  }

  /** `b.write(s)` */
  function Write(b: Buffer, s: string): (r: Buffer)
    ensures s == "" ==> r == b
    ensures s != "" ==> r.pos == b.pos + |s| <= |r.text| && r.text[b.pos..r.pos] == s
    ensures AtEnd(b) ==> r == Buffer(b.text + s, |b.text| + |s|)
  {
    if s == "" then b
    else if b.pos >= |b.text| then
      Buffer(b.text + Repeat('\0', b.pos - |b.text|) + s, b.pos + |s|)
    else
      var tail := if b.pos + |s| < |b.text| then b.text[b.pos + |s|..] else "";
      Buffer(b.text[..b.pos] + s + tail, b.pos + |s|)
  }

  /** What a write leaves of the old text: everything before the cursor, NUL
      padding between the old end and the cursor, and everything the written
      text does not reach. */
  lemma WriteKeeps(b: Buffer, s: string)
    requires s != ""
    ensures |Write(b, s).text| == if b.pos + |s| < |b.text| then |b.text| else b.pos + |s|
    ensures forall i :: 0 <= i < b.pos && i < |b.text| ==> Write(b, s).text[i] == b.text[i]
    ensures forall i :: |b.text| <= i < b.pos ==> Write(b, s).text[i] == '\0'
    ensures forall i :: b.pos + |s| <= i < |b.text| ==> Write(b, s).text[i] == b.text[i]
  {
  }

  /** `b.seek(p)` */
  function Seek(b: Buffer, p: nat): Buffer
  {
    b.(pos := p)
  }

  /** `b.tell()` */
  function Tell(b: Buffer): nat
  {
    b.pos
  }

  /** `b.truncate(size)`: the text keeps its first `size` characters and the
      cursor moves back to `size` if it was beyond it. */
  function Truncate(b: Buffer, size: nat): (r: Buffer)
    ensures |r.text| == if size < |b.text| then size else |b.text|
    ensures r.text == b.text[..|r.text|]
    ensures r.pos == if size < b.pos then size else b.pos
  {
    Buffer(if size < |b.text| then b.text[..size] else b.text, if size < b.pos then size else b.pos)
  }

  /** What is left to read from the cursor on. */
  function Rest(b: Buffer): string
  {
    if b.pos < |b.text| then b.text[b.pos..] else ""
  }

  /** `b.read(n)` for `n >= 0`: at most `n` characters of what is left, which
      are then consumed. A cursor past the end moves back to the end. */
  function Read(b: Buffer, n: nat): (r: (string, Buffer))
    ensures r.0 == Rest(b)[..if n < |Rest(b)| then n else |Rest(b)|]
    ensures r.0 + Rest(r.1) == Rest(b)
    ensures r.1.text == b.text && r.1.pos <= |b.text|
  {
    var stop := if b.pos + n < |b.text| then b.pos + n else |b.text|;
    if b.pos >= |b.text| then ("", b.(pos := stop))
    else (b.text[b.pos..stop], b.(pos := stop))
  }

  /** Reading `n` characters that are all there gives exactly those characters. */
  lemma ReadSlice(b: Buffer, n: nat)
    requires b.pos + n <= |b.text|
    ensures Read(b, n).0 == b.text[b.pos..b.pos + n]
  {
  }

  /** After `seek(0)` everything is left to read. */
  lemma RestFromStart(b: Buffer)
    requires b.pos == 0
    ensures Rest(b) == b.text
  {
    assert b.text[0..] == b.text;
  }

  /** `b.readlines()`: the lines from the cursor to the end, each keeping its
      `"\n"`; the cursor moves to the end, also from beyond it. */
  function ReadLines(b: Buffer): (r: (seq<string>, Buffer))
    ensures Concat(r.0) == Rest(b)
    ensures r.1.text == b.text && AtEnd(r.1)
    ensures AtEnd(b) ==> r.0 == [] && r.1 == b
  {
    (SplitLines(Rest(b)), b.(pos := |b.text|))
  }

  /** A line as `readline` returns it: non-empty, and a newline can only be its last character. */
  predicate IsLine(l: string)
  {
    l != "" && forall j :: 0 <= j < |l| - 1 ==> l[j] != '\n'
  }

  /** A line that ends with its newline. */
  predicate IsFullLine(l: string)
  {
    IsLine(l) && l[|l| - 1] == '\n'
  }

  /** The length of the first line of `s`: up to and including the first newline,
      or all of `s` when it has none. */
  function FirstLineLength(s: string): (k: nat)
    requires s != ""
    ensures 0 < k <= |s|
    ensures IsLine(s[..k])
    ensures k < |s| ==> s[k - 1] == '\n'
    decreases |s|
  {
    if s[0] == '\n' || |s| == 1 then 1
    else
      var k' := FirstLineLength(s[1..]);
      assert s[..k' + 1] == [s[0]] + s[1..][..k'];
      k' + 1
  }

  /** `readlines` on a whole text: splits after every newline. */
  function SplitLines(s: string): (lines: seq<string>)
    ensures Concat(lines) == s
    ensures forall i :: 0 <= i < |lines| ==> IsLine(lines[i])
    ensures forall i :: 0 <= i < |lines| - 1 ==> IsFullLine(lines[i])
    decreases |s|
  {
    if s == "" then []
    else
      var k := FirstLineLength(s);
      assert s == s[..k] + s[k..];
      [s[..k]] + SplitLines(s[k..])
  }

  /** Splitting the concatenation of whole lines gives back those lines. */
  lemma {:induction false} SplitConcat(lines: seq<string>)
    requires forall i :: 0 <= i < |lines| ==> IsFullLine(lines[i])
    ensures SplitLines(Concat(lines)) == lines
  {
    if lines != [] {
      var s := Concat(lines);
      var l := lines[0];
      assert s == l + Concat(lines[1..]);
      assert s[..|l|] == l;
      var k := FirstLineLength(s);
      assert k == |l|;
      assert s[k..] == Concat(lines[1..]);
      SplitConcat(lines[1..]);
    }
  }

  /** The buffer left after writing `w` from position 0 over the initial text
      `base`: what `w` did not reach of `base` survives behind it. */
  function Overlay(base: string, w: string): Buffer
  {
    Buffer(w + (if |w| < |base| then base[|w|..] else ""), |w|)
  }

  /** Writing continues the overlay. */
  lemma OverlayWrite(base: string, w: string, s: string)
    ensures Write(Overlay(base, w), s) == Overlay(base, w + s)
  {
    if s == "" {
      assert w + s == w;
    } else if |w| < |base| {
      var b := Overlay(base, w);
      assert b.text[..b.pos] == w;
      if |w| + |s| < |base| {
        assert b.text[|w| + |s|..] == base[|w + s|..];
      }
    }
  }

  lemma {:induction false} NewIsOverlay(base: string)
    ensures New(base) == Overlay(base, "")
  {
    assert base[0..] == base;
  }

  /** Once what was written is at least as long as the initial text, nothing of the initial text is left. */
  lemma {:induction false} OverlayCovers(base: string, w: string)
    requires |base| <= |w|
    ensures Overlay(base, w) == Buffer(w, |w|)
  {
  }
}
