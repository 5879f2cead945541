/** The text that `PcbDrillGCode.generate` produces, described line by line.
    A generated document is a sequence of lines, each either numbered (a
    G-code command, which gets an `N%03d ` label when line numbers are on)
    or not (a standalone comment or a `%` marker). This module defines that
    sequence for every region of the document and proves how the labels
    are assigned and how the regions are laid out in the text. */
module GCodeText {
  import opened Strings
  import opened StringIO

  /** A drill or seek position, each axis carried as the text Python's
      `str.format` renders for it (`"30.0"`, `"180"`). */
  datatype Coord = Coord(x: string, y: string)

  datatype Line = Line(numbered: bool, text: string)

  /** The three regions of a generated document. */
  datatype Document = Document(prefix: seq<Line>, body: seq<Line>, postfix: seq<Line>)

  /** `"N{0:03} ".format(n)` */
  function Label(n: nat): string
  {
    "N" + ZeroPadded3(n) + " "
  }

  /** The label a numbered line gets: none when numbering is off. */
  function Tag(n: nat, on: bool): string
  {
    if on then Label(n) else ""
  }

  function NumberedCount(lines: seq<Line>): nat
  {
    if lines == [] then 0 else (if lines[0].numbered then 1 else 0) + NumberedCount(lines[1..])
  }

  /** How far the line counter moves over `lines`: it only counts when numbering is on. */
  function Advance(lines: seq<Line>, on: bool): nat
  {
    if on then NumberedCount(lines) else 0
  }

  /** The text of `lines`, numbering from `next` when `on`. */
  function Text(lines: seq<Line>, next: nat, on: bool): string
  {
    if lines == [] then ""
    else if on && lines[0].numbered then Label(next) + lines[0].text + Text(lines[1..], next + 1, on)
    else lines[0].text + Text(lines[1..], next, on)
  }

  function Texts(lines: seq<Line>): seq<string>
  {
    seq(|lines|, i requires 0 <= i < |lines| => lines[i].text)
  }

  /** The whole output of `generate()`: the counter starts at 1. */
  function Output(d: Document, on: bool): string
  {
    Text(d.prefix + d.body + d.postfix, 1, on)
  }

  /** The cached `body`: the body lines, numbered from where the prefix left the counter. */
  function BodyText(d: Document, on: bool): string
  {
    Text(d.body, 1 + Advance(d.prefix, on), on)
  }

  lemma {:induction false} NumberedCountAppend(a: seq<Line>, b: seq<Line>)
    ensures NumberedCount(a + b) == NumberedCount(a) + NumberedCount(b)
  {
    if a == [] {
      assert a + b == b;
    } else {
      assert (a + b)[1..] == a[1..] + b;
      NumberedCountAppend(a[1..], b);
    }
  }

  /** Emitting two runs of lines one after the other is emitting their concatenation. */
  lemma {:induction false} TextAppend(a: seq<Line>, b: seq<Line>, next: nat, on: bool)
    ensures Text(a + b, next, on) == Text(a, next, on) + Text(b, next + Advance(a, on), on)
  {
    if a == [] {
      assert a + b == b;
    } else {
      assert (a + b)[1..] == a[1..] + b;
      if on && a[0].numbered {
        TextAppend(a[1..], b, next + 1, on);
      } else {
        TextAppend(a[1..], b, next, on);
      }
    }
  }

  lemma AdvanceAppend(a: seq<Line>, b: seq<Line>, on: bool)
    ensures Advance(a + b, on) == Advance(a, on) + Advance(b, on)
  {
    NumberedCountAppend(a, b);
  }

  /** Emitting one more line adds its label, if it gets one, and its text. */
  lemma TextSnoc(lines: seq<Line>, l: Line, next: nat, on: bool)
    ensures Text(lines + [l], next, on)
         == Text(lines, next, on) + (if on && l.numbered then Label(next + Advance(lines, on)) else "") + l.text
    ensures Advance(lines + [l], on) == Advance(lines, on) + (if on && l.numbered then 1 else 0)
  {
    TextAppend(lines, [l], next, on);
    AdvanceAppend(lines, [l], on);
    assert [l][1..] == [];
    assert NumberedCount([l]) == (if l.numbered then 1 else 0) + NumberedCount([]);
  }

  /** With numbering off, the text is the lines' texts and nothing else. */
  lemma {:induction false} TextUnnumbered(lines: seq<Line>, next: nat)
    ensures Text(lines, next, false) == Concat(Texts(lines))
  {
    if lines != [] {
      assert Texts(lines)[1..] == Texts(lines[1..]);
      TextUnnumbered(lines[1..], next);
    }
  }

  /** The label the `i`-th line receives: numbered lines get consecutive
      numbers from `first` on, in order; other lines get none. */
  function LabelAt(lines: seq<Line>, i: nat, first: nat, on: bool): string
    requires i < |lines|
  {
    if on && lines[i].numbered then Label(first + NumberedCount(lines[..i])) else ""
  }

  /** Each line with its label in front, as an independent description of the text. */
  function LabelledLines(lines: seq<Line>, first: nat, on: bool): seq<string>
  {
    seq(|lines|, i requires 0 <= i < |lines| => LabelAt(lines, i, first, on) + lines[i].text)
  }

  /** The line numbering rule: the `k`-th numbered line (counting from 0) is
      labelled `first + k`, every other line is unlabelled, and no line is
      labelled when numbering is off. */
  lemma {:induction false} TextIsLabelledLines(lines: seq<Line>, first: nat, on: bool)
    ensures Text(lines, first, on) == Concat(LabelledLines(lines, first, on))
  {
    if lines != [] {
      var step := if on && lines[0].numbered then 1 else 0;
      var ll := LabelledLines(lines, first, on);
      LabelledLinesTail(lines, first, on);
      TextIsLabelledLines(lines[1..], first + step, on);
      LabelledHead(lines, first, on);
      assert Concat(ll) == ll[0] + Concat(ll[1..]);
    }
  }

  /** The first line's label and text, then the rest with the counter moved on. */
  lemma LabelledHead(lines: seq<Line>, first: nat, on: bool)
    requires lines != []
    ensures Text(lines, first, on)
         == LabelledLines(lines, first, on)[0] + Text(lines[1..], first + (if on && lines[0].numbered then 1 else 0), on)
  {
    assert lines[..0] == [];
  }

  lemma LabelledLinesTail(lines: seq<Line>, first: nat, on: bool)
    requires lines != []
    ensures LabelledLines(lines, first, on)[1..]
         == LabelledLines(lines[1..], first + (if on && lines[0].numbered then 1 else 0), on)
  {
    var step := if on && lines[0].numbered then 1 else 0;
    var whole := LabelledLines(lines, first, on);
    var tail := LabelledLines(lines[1..], first + step, on);
    forall k | 0 <= k < |tail|
      ensures whole[1..][k] == tail[k]
    {
      assert whole[1..][k] == whole[k + 1] == LabelAt(lines, k + 1, first, on) + lines[k + 1].text;
      LabelShift(lines, k + 1, first, on);
      assert tail[k] == LabelAt(lines[1..], k, first + step, on) + lines[1..][k].text;
    }
  }

  lemma LabelShift(lines: seq<Line>, i: nat, first: nat, on: bool)
    requires 1 <= i < |lines|
    ensures LabelAt(lines, i, first, on)
         == LabelAt(lines[1..], i - 1, first + (if on && lines[0].numbered then 1 else 0), on)
  {
    CountAfterFirst(lines, i);
  }

  lemma CountAfterFirst(lines: seq<Line>, i: nat)
    requires 1 <= i <= |lines|
    ensures NumberedCount(lines[..i]) == (if lines[0].numbered then 1 else 0) + NumberedCount(lines[1..][..i - 1])
  {
    assert lines[..i] == [lines[0]] + lines[1..][..i - 1];
    NumberedCountAppend([lines[0]], lines[1..][..i - 1]);
    assert [lines[0]][1..] == [];
  }

  /** Two numbered lines with no numbered line between them carry consecutive labels. */
  lemma ConsecutiveLabels(lines: seq<Line>, i: nat, j: nat, first: nat)
    requires i < j < |lines|
    requires lines[i].numbered && lines[j].numbered
    requires forall k :: i < k < j ==> !lines[k].numbered
    ensures NumberedCount(lines[..j]) == NumberedCount(lines[..i]) + 1
  {
    assert lines[..j] == lines[..i] + [lines[i]] + lines[i + 1..j];
    NumberedCountAppend(lines[..i] + [lines[i]], lines[i + 1..j]);
    NumberedCountAppend(lines[..i], [lines[i]]);
    NoneNumbered(lines[i + 1..j]);
  }

  lemma {:induction false} NoneNumbered(lines: seq<Line>)
    requires forall k :: 0 <= k < |lines| ==> !lines[k].numbered
    ensures NumberedCount(lines) == 0
  {
    if lines != [] {
      NoneNumbered(lines[1..]);
    }
  }

  /** The document's text is its prefix text, then exactly the cached body,
      then its postfix text. */
  lemma BodyBetween(d: Document, on: bool)
    ensures Output(d, on)
         == Text(d.prefix, 1, on) + BodyText(d, on)
            + Text(d.postfix, 1 + Advance(d.prefix, on) + Advance(d.body, on), on)
  {
    ThreeRuns(d.prefix, d.body, d.postfix, 1, on);
  }

  lemma ThreeRuns(p: seq<Line>, b: seq<Line>, q: seq<Line>, next: nat, on: bool)
    ensures Text(p + b + q, next, on)
         == Text(p, next, on) + Text(b, next + Advance(p, on), on) + Text(q, next + Advance(p, on) + Advance(b, on), on)
  {
    TextAppend(p + b, q, next, on);
    TextAppend(p, b, next, on);
    AdvanceAppend(p, b, on);
  }

  /** A run of lines written after `front`, starting with the counter at `m`. */
  lemma RunStep(front: seq<Line>, run: seq<Line>, next: nat, m: nat, on: bool)
    requires m == next + Advance(front, on)
    ensures Text(front + run, next, on) == Text(front, next, on) + Text(run, m, on)
    ensures next + Advance(front + run, on) == m + Advance(run, on)
  {
    TextAppend(front, run, next, on);
    AdvanceAppend(front, run, on);
  }

  /** Five runs of lines one after the other, the counter standing at `nk` when run `k` starts. */
  lemma BodyRuns(c1: seq<Line>, s1: seq<Line>, h: seq<Line>, s2: seq<Line>, c2: seq<Line>, on: bool,
                 n2: nat, n3: nat, n4: nat, n5: nat, n6: nat, n7: nat)
    requires n3 == n2 + Advance(c1, on) && n4 == n3 + Advance(s1, on)
    requires n5 == n4 + Advance(h, on) && n6 == n5 + Advance(s2, on) && n7 == n6 + Advance(c2, on)
    ensures Text(c1 + s1 + h + s2 + c2, n2, on)
         == Text(c1, n2, on) + Text(s1, n3, on) + Text(h, n4, on) + Text(s2, n5, on) + Text(c2, n6, on)
    ensures n7 == n2 + Advance(c1 + s1 + h + s2 + c2, on)
  {
    RunStep(c1, s1, n2, n3, on);
    RunStep(c1 + s1, h, n2, n4, on);
    RunStep(c1 + s1 + h, s2, n2, n5, on);
    RunStep(c1 + s1 + h + s2, c2, n2, n6, on);
  }
  /** The output is the prefix text, the cached body and the postfix text, the counter at `n2` after the prefix and at `n7` after the body. */
  lemma Regions(d: Document, on: bool, n2: nat, n7: nat)
    requires n2 == 1 + Advance(d.prefix, on)
    requires n7 == n2 + Advance(d.body, on)
    ensures BodyText(d, on) == Text(d.body, n2, on)
    ensures Output(d, on) == Text(d.prefix, 1, on) + BodyText(d, on) + Text(d.postfix, n7, on)
    ensures n7 + Advance(d.postfix, on) == 1 + Advance(d.prefix + d.body + d.postfix, on)
  {
    RunStep(d.prefix, d.body, 1, n2, on);
    RunStep(d.prefix + d.body, d.postfix, 1, n7, on);
  }
  /** The output written region by region: the prefix text from counter 1, the
      body from `n2` and the postfix from `n7`; the body text sits between them. */
  lemma Compose(d: Document, on: bool, n2: nat, n7: nat)
    requires n2 == 1 + Advance(d.prefix, on)
    requires n7 == n2 + Advance(d.body, on)
    ensures Output(d, on) == "" + Text(d.prefix, 1, on) + Text(d.body, n2, on) + Text(d.postfix, n7, on)
    ensures ("" + Text(d.prefix, 1, on) + Text(d.body, n2, on) + Text(d.postfix, n7, on))
              [|"" + Text(d.prefix, 1, on)|..|"" + Text(d.prefix, 1, on) + Text(d.body, n2, on)|]
         == BodyText(d, on)
    ensures n7 + Advance(d.postfix, on) == 1 + Advance(d.prefix + d.body + d.postfix, on)
  {
    Regions(d, on, n2, n7);
    Sandwich(Text(d.prefix, 1, on), Text(d.body, n2, on), Text(d.postfix, n7, on));
  }

  /** The whole text is the three regions in order, and the body is the middle one. */
  lemma Sandwich(t1: string, t2: string, t3: string)
    ensures "" + t1 + t2 + t3 == t1 + t2 + t3
    ensures ("" + t1 + t2 + t3)[|"" + t1|..|"" + t1 + t2|] == t2
  {
    assert "" + t1 == t1;
  }

  // ----- lines of the prefix, postfix and comment regions -----

  /** `write_area` numbers every line except `"%\n"` and lines starting with `;`. */
  predicate NumberedAreaLine(l: string)
  {
    l != "%\n" && !StartsWith(l, ";")
  }

  function Classify(ls: seq<string>): seq<Line>
  {
    seq(|ls|, i requires 0 <= i < |ls| => Line(NumberedAreaLine(ls[i]), ls[i]))
  }

  /** The lines `write_area` copies from a region whose unread text is `s`. */
  function AreaLines(s: string): seq<Line>
  {
    Classify(SplitLines(s))
  }

  /** A region is copied unchanged apart from the labels. */
  lemma AreaLinesText(s: string)
    ensures Concat(Texts(AreaLines(s))) == s
  {
    assert Texts(AreaLines(s)) == SplitLines(s);
  }

  /** An area given as whole lines is read back as those lines. */
  lemma AreaOfLines(ls: seq<string>)
    requires forall i :: 0 <= i < |ls| ==> IsFullLine(ls[i])
    ensures AreaLines(Concat(ls)) == Classify(ls)
  {
    SplitConcat(ls);
  }

  // ----- commands and comments -----

  /** `_comment(..., inline_comment=False)`: a standalone comment line. */
  function CommentLine(comment: string): string
  {
    "; " + comment + "\n"
  }

  /** `_comment(..., inline_comment=True)`: dropped when empty or when verbose comments are off. */
  function InlineComment(comment: string, verbose: bool): string
  {
    if verbose && comment != "" then " ; " + comment else ""
  }

  /** `_command(buffer, command, comment)`: the command, its inline comment and a newline. */
  function CommandText(command: string, comment: string, verbose: bool): string
  {
    command + InlineComment(comment, verbose) + "\n"
  }

  /** With verbose comments off a command line is the bare command. */
  lemma QuietCommand(command: string, comment: string)
    ensures CommandText(command, comment, false) == command + "\n"
  {
  }

  // ----- the drill hole format -----

  const DefaultFormat: string := "G1 X{0} Y{1}"

  /** `template.format(x, y)` for templates whose only replacement fields are `{0}` and `{1}`. */
  function Format(template: string, c: Coord): string
    decreases |template|
  {
    if template == "" then ""
    else if |template| >= 3 && template[..3] == "{0}" then c.x + Format(template[3..], c)
    else if |template| >= 3 && template[..3] == "{1}" then c.y + Format(template[3..], c)
    else [template[0]] + Format(template[1..], c)
  }

  /** A template without braces is copied as it is. */
  lemma {:induction false} FormatLiteral(template: string, c: Coord)
    requires forall i :: 0 <= i < |template| ==> template[i] != '{'
    ensures Format(template, c) == template
  {
    if template != "" {
      assert |template| >= 3 ==> template[..3][0] == template[0];
      FormatLiteral(template[1..], c);
    }
  }

  /** Formatting a brace-free head and then the rest is formatting the whole. */
  lemma {:induction false} FormatPrefix(head: string, tail: string, c: Coord)
    requires forall i :: 0 <= i < |head| ==> head[i] != '{'
    ensures Format(head + tail, c) == head + Format(tail, c)
  {
    if head == "" {
      assert head + tail == tail;
    } else {
      var t := head + tail;
      assert t[0] == head[0] && t[1..] == head[1..] + tail;
      FormatPlain(t, c);
      FormatPrefix(head[1..], tail, c);
      ConsAppend(head, Format(tail, c));
    }
  }

  lemma ConsAppend<T>(a: seq<T>, b: seq<T>)
    requires a != []
    ensures [a[0]] + (a[1..] + b) == a + b
  {
    assert a == [a[0]] + a[1..];
  }

  /** A character other than `{` is copied. */
  lemma FormatPlain(t: string, c: Coord)
    requires t != [] && t[0] != '{'
    ensures Format(t, c) == [t[0]] + Format(t[1..], c)
  {
    assert |t| >= 3 ==> t[..3][0] == t[0];
  }

  lemma FormatFields(tail: string, c: Coord)
    ensures Format("{0}" + tail, c) == c.x + Format(tail, c)
    ensures Format("{1}" + tail, c) == c.y + Format(tail, c)
  {
    assert ("{0}" + tail)[..3] == "{0}" && ("{0}" + tail)[3..] == tail;
    assert ("{1}" + tail)[..3] == "{1}" && ("{1}" + tail)[3..] == tail;
  }

  /** The default format renders `G1 X<x> Y<y>`. */
  lemma DefaultFormatRendering(c: Coord)
    ensures Format(DefaultFormat, c) == "G1 X" + c.x + " Y" + c.y
  {
    DefaultFormatParts();
    FormatFields("", c);
    FormatPrefix(" Y", "{1}" + "", c);
    FormatFields(" Y" + ("{1}" + ""), c);
    FormatPrefix("G1 X", "{0}" + (" Y" + ("{1}" + "")), c);
    Rebracket("G1 X", c.x, " Y", c.y);
  }

  lemma DefaultFormatParts()
    ensures DefaultFormat == "G1 X" + ("{0}" + (" Y" + ("{1}" + "")))
  {
  }

  lemma Rebracket(a: string, b: string, c: string, d: string)
    ensures a + (b + (c + (d + ""))) == a + b + c + d
  {
  }

  // ----- seek locations and holes -----

  const PreDrillComment: string := "Seek pre drill XY location"
  const PostDrillComment: string := "Seek post drill XY location"

  /** One numbered command line per seek location, in order. */
  function SeekLines(locations: seq<Coord>, format: string, comment: string, verbose: bool): seq<Line>
  {
    seq(|locations|, i requires 0 <= i < |locations| =>
      Line(true, CommandText(Format(format, locations[i]), comment, verbose)))
  }

  function BeginHoleComment(n: nat, h: Coord): string
  {
    "--- Begin Hole # " + Decimal(n) + " at position X " + h.x + " and Y " + h.y
  }

  function EndHoleComment(n: nat): string
  {
    "--- End Hole # " + Decimal(n)
  }

  const Plunge: string := "G1 Z-.5 F100"
  const Retract: string := "G1 Z3.0 F3000"

  /** A comment line, three numbered command lines and a comment line: the shape of every hole's block. */
  function Five(a: string, b: string, c: string, d: string, e: string): seq<Line>
  {
    [Line(false, a), Line(true, b), Line(true, c), Line(true, d), Line(false, e)]
  }

  /** The text of such a block when the counter stands at `m`: its commands take `m`, `m + 1` and `m + 2`. */
  function FiveText(a: string, b: string, c: string, d: string, e: string, m: nat, on: bool): string
  {
    a + (Tag(m, on) + b + (Tag(m + 1, on) + c + (Tag(m + 2, on) + d + e)))
  }

  /** The five lines of hole number `n` (1-based). */
  function HoleBlock(n: nat, h: Coord, format: string, verbose: bool): seq<Line>
  {
    Five(CommentLine(BeginHoleComment(n, h)),
         CommandText(Format(format, h), "Drill hole location", verbose),
         CommandText(Plunge, "Drill hole", verbose),
         CommandText(Retract, "Retract drill to safe position", verbose),
         CommentLine(EndHoleComment(n)))
  }

  /** The blocks of all holes, hole 1 first. */
  function HoleBlocks(holes: seq<Coord>, format: string, verbose: bool): seq<Line>
    decreases |holes|
  {
    if holes == [] then []
    else HoleBlocks(holes[..|holes| - 1], format, verbose)
         + HoleBlock(|holes|, holes[|holes| - 1], format, verbose)
  }

  /** The text of hole block `n` when the counter stands at `next`. */
  function HoleText(n: nat, h: Coord, format: string, verbose: bool, next: nat, on: bool): string
  {
    Text(HoleBlock(n, h, format, verbose), next, on)
  }

  /** How far the counter moves over `k` hole blocks. */
  function HoleSteps(k: nat, on: bool): nat
  {
    if on then 3 * k else 0
  }

  /** The text of the blocks of the first `k` holes, hole 1 first, numbering from `next`. */
  function HolesText(holes: seq<Coord>, k: nat, format: string, verbose: bool, next: nat, on: bool): string
    requires k <= |holes|
  {
    if k == 0 then ""
    else HolesText(holes, k - 1, format, verbose, next, on)
         + HoleText(k, holes[k - 1], format, verbose, next + HoleSteps(k - 1, on), on)
  }

  /** The text of a block: the commands take three consecutive labels. */
  lemma FiveLines(a: string, b: string, c: string, d: string, e: string, next: nat, on: bool)
    ensures Text(Five(a, b, c, d, e), next, on) == FiveText(a, b, c, d, e, next, on)
    ensures NumberedCount(Five(a, b, c, d, e)) == 3
  {
    var ls := Five(a, b, c, d, e);
    var s := if on then 1 else 0;
    assert Text(ls[4..], next + 3 * s, on) == e;
    assert Text(ls[3..], next + 2 * s, on) == Tag(next + 2, on) + d + e;
    assert Text(ls[2..], next + s, on) == Tag(next + 1, on) + c + (Tag(next + 2, on) + d + e);
    assert Text(ls[1..], next, on) == Tag(next, on) + b + (Tag(next + 1, on) + c + (Tag(next + 2, on) + d + e));
    assert NumberedCount(ls[4..]) == 0;
    assert NumberedCount(ls[3..]) == 1;
    assert NumberedCount(ls[2..]) == 2;
    assert NumberedCount(ls[1..]) == 3;
  }

  /** The hole blocks as lines and as text agree: `HolesText` is what `Text` makes of `HoleBlocks`. */
  lemma {:induction false} HolesTextIsText(holes: seq<Coord>, k: nat, format: string, verbose: bool, next: nat, on: bool)
    requires k <= |holes|
    ensures Text(HoleBlocks(holes[..k], format, verbose), next, on) == HolesText(holes, k, format, verbose, next, on)
    ensures Advance(HoleBlocks(holes[..k], format, verbose), on) == HoleSteps(k, on)
  {
    if k == 0 {
      assert holes[..k] == [];
    } else {
      HolesTextIsText(holes, k - 1, format, verbose, next, on);
      HoleStep(holes, k, format, verbose, next, on);
    }
  }

  /** Hole `k`'s block, given that the text of the first `k - 1` is `HolesText` of them. */
  lemma HoleStep(holes: seq<Coord>, k: nat, format: string, verbose: bool, next: nat, on: bool)
    requires 0 < k <= |holes|
    requires Text(HoleBlocks(holes[..k - 1], format, verbose), next, on)
          == HolesText(holes, k - 1, format, verbose, next, on)
    requires Advance(HoleBlocks(holes[..k - 1], format, verbose), on) == HoleSteps(k - 1, on)
    ensures Text(HoleBlocks(holes[..k], format, verbose), next, on) == HolesText(holes, k, format, verbose, next, on)
    ensures Advance(HoleBlocks(holes[..k], format, verbose), on) == HoleSteps(k, on)
  {
    HoleBlocksSnoc(holes, k, format, verbose);
    HolesTextSnoc(holes, k, format, verbose, next, on);
    HoleBlockText(HoleBlocks(holes[..k - 1], format, verbose), k, holes[k - 1], format, verbose,
                  next, next + HoleSteps(k - 1, on), on);
  }

  lemma HoleBlocksSnoc(holes: seq<Coord>, k: nat, format: string, verbose: bool)
    requires 0 < k <= |holes|
    ensures HoleBlocks(holes[..k], format, verbose)
         == HoleBlocks(holes[..k - 1], format, verbose) + HoleBlock(k, holes[k - 1], format, verbose)
  {
    var p := holes[..k];
    assert p[..k - 1] == holes[..k - 1];
  }

  lemma HolesTextSnoc(holes: seq<Coord>, k: nat, format: string, verbose: bool, next: nat, on: bool)
    requires 0 < k <= |holes|
    ensures HolesText(holes, k, format, verbose, next, on)
         == HolesText(holes, k - 1, format, verbose, next, on)
            + HoleText(k, holes[k - 1], format, verbose, next + HoleSteps(k - 1, on), on)
  {
  }

  /** The text of the first `index + 1` holes, with the counter at `m` when hole `index + 1` starts. */
  lemma HolesTextNext(holes: seq<Coord>, index: nat, format: string, verbose: bool, next: nat, on: bool, m: nat)
    requires index < |holes|
    requires m == next + HoleSteps(index, on)
    ensures HolesText(holes, index + 1, format, verbose, next, on)
         == HolesText(holes, index, format, verbose, next, on) + HoleText(index + 1, holes[index], format, verbose, m, on)
  {
    var k := index + 1;
    assert k - 1 == index;
    HolesTextSnoc(holes, k, format, verbose, next, on);
  }

  /** Emitting hole `n`'s block after `front`, with the counter at `m` when the block starts. */
  lemma HoleBlockText(front: seq<Line>, n: nat, h: Coord, format: string, verbose: bool, next: nat, m: nat, on: bool)
    requires m == next + Advance(front, on)
    ensures Text(front + HoleBlock(n, h, format, verbose), next, on)
         == Text(front, next, on) + HoleText(n, h, format, verbose, m, on)
    ensures Advance(front + HoleBlock(n, h, format, verbose), on) == Advance(front, on) + (if on then 3 else 0)
  {
    var block := HoleBlock(n, h, format, verbose);
    TextAppend(front, block, next, on);
    AdvanceAppend(front, block, on);
    FiveLines(CommentLine(BeginHoleComment(n, h)),
              CommandText(Format(format, h), "Drill hole location", verbose),
              CommandText(Plunge, "Drill hole", verbose),
              CommandText(Retract, "Retract drill to safe position", verbose),
              CommentLine(EndHoleComment(n)),
              m, on);
  }

  const NoHolesLine: Line := Line(false, CommentLine("No Drill holes defined"))

  /** The hole part of the body: every hole's block, or a single "no holes" comment. */
  function HoleRegion(holes: seq<Coord>, format: string, verbose: bool): seq<Line>
  {
    HoleBlocks(holes, format, verbose) + (if |holes| == 0 then [NoHolesLine] else [])
  }

  /** Hole `i` (0-based) occupies lines `5*i` to `5*i+4` of the hole blocks, and
      three of each block's five lines are numbered; so exactly one
      coordinate line per hole, in hole order. */
  lemma HoleBlocksShape(holes: seq<Coord>, format: string, verbose: bool)
    ensures |HoleBlocks(holes, format, verbose)| == 5 * |holes|
    ensures forall i :: 0 <= i < |holes| ==>
      HoleBlocks(holes, format, verbose)[5 * i..5 * i + 5] == HoleBlock(i + 1, holes[i], format, verbose)
    ensures NumberedCount(HoleBlocks(holes, format, verbose)) == 3 * |holes|
  {
    HoleBlocksLength(holes, format, verbose);
    forall i | 0 <= i < |holes|
      ensures HoleBlocks(holes, format, verbose)[5 * i..5 * i + 5] == HoleBlock(i + 1, holes[i], format, verbose)
    {
      HoleBlockAt(holes, format, verbose, i);
    }
    HoleBlocksCount(holes, format, verbose);
  }

  lemma {:induction false} HoleBlocksLength(holes: seq<Coord>, format: string, verbose: bool)
    ensures |HoleBlocks(holes, format, verbose)| == 5 * |holes|
  {
    if holes != [] {
      HoleBlocksLength(holes[..|holes| - 1], format, verbose);
    }
  }

  lemma {:induction false} HoleBlockAt(holes: seq<Coord>, format: string, verbose: bool, i: nat)
    requires i < |holes|
    ensures |HoleBlocks(holes, format, verbose)| == 5 * |holes|
    ensures HoleBlocks(holes, format, verbose)[5 * i..5 * i + 5] == HoleBlock(i + 1, holes[i], format, verbose)
  {
    HoleBlocksLength(holes, format, verbose);
    if i < |holes| - 1 {
      HoleBlockAt(holes[..|holes| - 1], format, verbose, i);
      HoleBlocksLength(holes[..|holes| - 1], format, verbose);
      EarlierHoleBlock(holes, format, verbose, i);
    } else {
      LastHoleBlock(holes, format, verbose);
    }
  }

  /** Appending a hole leaves the blocks of the earlier holes where they were. */
  lemma EarlierHoleBlock(holes: seq<Coord>, format: string, verbose: bool, i: nat)
    requires i < |holes| - 1
    requires |HoleBlocks(holes, format, verbose)| == 5 * |holes|
    requires |HoleBlocks(holes[..|holes| - 1], format, verbose)| == 5 * (|holes| - 1)
    requires HoleBlocks(holes[..|holes| - 1], format, verbose)[5 * i..5 * i + 5]
          == HoleBlock(i + 1, holes[..|holes| - 1][i], format, verbose)
    ensures HoleBlocks(holes, format, verbose)[5 * i..5 * i + 5] == HoleBlock(i + 1, holes[i], format, verbose)
  {
    var init := holes[..|holes| - 1];
    var front := HoleBlocks(init, format, verbose);
    var last := HoleBlock(|holes|, holes[|holes| - 1], format, verbose);
    HoleBlocksLength(init, format, verbose);
    BlockInFront(front, last, i, |init|);
  }

  /** The last hole's block closes the hole blocks. */
  lemma LastHoleBlock(holes: seq<Coord>, format: string, verbose: bool)
    requires holes != []
    requires |HoleBlocks(holes, format, verbose)| == 5 * |holes|
    ensures HoleBlocks(holes, format, verbose)[5 * (|holes| - 1)..5 * (|holes| - 1) + 5]
         == HoleBlock(|holes|, holes[|holes| - 1], format, verbose)
  {
    var init := holes[..|holes| - 1];
    HoleBlocksLength(init, format, verbose);
    BlockIsLast(HoleBlocks(init, format, verbose), HoleBlock(|holes|, holes[|holes| - 1], format, verbose), |init|);
  }

  /** Block `i` of five elements in `front + last`, where `front` holds `k` blocks, lies in `front`. */
  lemma BlockInFront<T>(front: seq<T>, last: seq<T>, i: nat, k: nat)
    requires |front| == 5 * k && |last| == 5 && i < k
    ensures (front + last)[5 * i..5 * i + 5] == front[5 * i..5 * i + 5]
  {
  }

  /** The block after the `k` blocks of `front` is `last`. */
  lemma BlockIsLast<T>(front: seq<T>, last: seq<T>, k: nat)
    requires |front| == 5 * k && |last| == 5
    ensures (front + last)[5 * k..5 * k + 5] == last
  {
  }

  lemma {:induction false} HoleBlocksCount(holes: seq<Coord>, format: string, verbose: bool)
    ensures NumberedCount(HoleBlocks(holes, format, verbose)) == 3 * |holes|
  {
    if holes != [] {
      var init := holes[..|holes| - 1];
      var last := HoleBlock(|holes|, holes[|holes| - 1], format, verbose);
      HoleBlocksCount(init, format, verbose);
      NumberedCountAppend(HoleBlocks(init, format, verbose), last);
      var n, h := |holes|, holes[|holes| - 1];
      FiveLines(CommentLine(BeginHoleComment(n, h)),
                CommandText(Format(format, h), "Drill hole location", verbose),
                CommandText(Plunge, "Drill hole", verbose),
                CommandText(Retract, "Retract drill to safe position", verbose),
                CommentLine(EndHoleComment(n)), 0, false);
    }
  }

  /** The hole region of an empty hole list is the single "no holes" comment. */
  lemma NoHoles(format: string, verbose: bool)
    ensures HoleRegion([], format, verbose) == [NoHolesLine]
    ensures NumberedCount(HoleRegion([], format, verbose)) == 0
  {
    assert HoleRegion([], format, verbose) == [] + [NoHolesLine];
  }

  // ----- the whole document -----

  /** The document `generate()` writes, given the prefix and postfix texts, the
      unread parts of the two comment buffers, the seek and hole lists, the
      drill hole format and the verbose-comments flag. */
  function Layout(prefix: string, prefixComments: string, predrill: seq<Coord>, holes: seq<Coord>,
                  postdrill: seq<Coord>, postfixComments: string, postfix: string,
                  format: string, verbose: bool): Document
  {
    Document(AreaLines(prefix),
             BodyLines(prefixComments, predrill, holes, postdrill, postfixComments, format, verbose),
             AreaLines(postfix))
  }

  /** The body: the prefix comments, the pre-drill seeks, the holes, the post-drill seeks and the postfix comments. */
  function BodyLines(prefixComments: string, predrill: seq<Coord>, holes: seq<Coord>, postdrill: seq<Coord>,
                     postfixComments: string, format: string, verbose: bool): seq<Line>
  {
    AreaLines(prefixComments)
      + SeekLines(predrill, format, PreDrillComment, verbose)
      + HoleRegion(holes, format, verbose)
      + SeekLines(postdrill, format, PostDrillComment, verbose)
      + AreaLines(postfixComments)
  }

  /** With line numbers off, the output is the prefix text, the body and the postfix text, verbatim. */
  lemma UnnumberedOutput(prefix: string, prefixComments: string, predrill: seq<Coord>, holes: seq<Coord>,
                         postdrill: seq<Coord>, postfixComments: string, postfix: string,
                         format: string, verbose: bool)
    ensures var d := Layout(prefix, prefixComments, predrill, holes, postdrill, postfixComments, postfix, format, verbose);
            Output(d, false) == prefix + BodyText(d, false) + postfix
  {
    var d := Layout(prefix, prefixComments, predrill, holes, postdrill, postfixComments, postfix, format, verbose);
    assert d.prefix == AreaLines(prefix) && d.postfix == AreaLines(postfix);
    BodyBetween(d, false);
    TextUnnumbered(d.prefix, 1);
    TextUnnumbered(d.postfix, 1 + Advance(d.prefix, false) + Advance(d.body, false));
    AreaLinesText(prefix);
    AreaLinesText(postfix);
  }

  /** The body lists the pre-drill seeks first, then the holes, then the post-drill seeks. */
  lemma BodyOrder(prefix: string, predrill: seq<Coord>, holes: seq<Coord>, postdrill: seq<Coord>,
                  postfix: string, format: string, verbose: bool)
    ensures var d := Layout(prefix, "", predrill, holes, postdrill, "", postfix, format, verbose);
            && |d.body| == |predrill| + 5 * |holes| + (if holes == [] then 1 else 0) + |postdrill|
            && d.body[..|predrill|] == SeekLines(predrill, format, PreDrillComment, verbose)
            && d.body[|predrill|..|d.body| - |postdrill|] == HoleRegion(holes, format, verbose)
            && d.body[|d.body| - |postdrill|..] == SeekLines(postdrill, format, PostDrillComment, verbose)
  {
    HoleBlocksLength(holes, format, verbose);
    EmptyArea();
    var pre := SeekLines(predrill, format, PreDrillComment, verbose);
    var mid := HoleRegion(holes, format, verbose);
    var post := SeekLines(postdrill, format, PostDrillComment, verbose);
    DropEmpty(AreaLines(""), pre, mid, post);
    ThreeParts(AreaLines("") + pre + mid + post + AreaLines(""), pre, mid, post);
  }

  /** With both comment regions empty the body is the seeks and the holes alone. */
  lemma QuietBody(predrill: seq<Coord>, holes: seq<Coord>, postdrill: seq<Coord>, format: string, verbose: bool)
    ensures BodyLines("", predrill, holes, postdrill, "", format, verbose)
         == SeekLines(predrill, format, PreDrillComment, verbose) + HoleRegion(holes, format, verbose)
            + SeekLines(postdrill, format, PostDrillComment, verbose)
  {
    EmptyArea();
    DropEmpty(AreaLines(""), SeekLines(predrill, format, PreDrillComment, verbose), HoleRegion(holes, format, verbose),
              SeekLines(postdrill, format, PostDrillComment, verbose));
  }

  /** With holes and nothing else between the areas, the body is the hole blocks alone. */
  lemma HolesOnly(prefix: string, holes: seq<Coord>, postfix: string, format: string, verbose: bool)
    requires holes != []
    ensures Layout(prefix, "", [], holes, [], "", postfix, format, verbose).body == HoleBlocks(holes, format, verbose)
  {
    QuietBody([], holes, [], format, verbose);
    assert SeekLines([], format, PreDrillComment, verbose) == [];
    assert SeekLines([], format, PostDrillComment, verbose) == [];
    assert HoleRegion(holes, format, verbose) == HoleBlocks(holes, format, verbose) + [];
  }

  /** Under the default format the second line of hole `i`'s block is `G1 X<x> Y<y>`. */
  lemma HoleCoordinateLine(holes: seq<Coord>, i: nat, verbose: bool)
    requires i < |holes|
    ensures |HoleBlocks(holes, DefaultFormat, verbose)| == 5 * |holes|
    ensures HoleBlocks(holes, DefaultFormat, verbose)[5 * i + 1]
         == Line(true, CommandText("G1 X" + holes[i].x + " Y" + holes[i].y, "Drill hole location", verbose))
  {
    var blocks := HoleBlocks(holes, DefaultFormat, verbose);
    HoleBlockAt(holes, DefaultFormat, verbose, i);
    assert blocks[5 * i + 1] == blocks[5 * i..5 * i + 5][1];
    DefaultFormatRendering(holes[i]);
  }

  lemma EmptyArea()
    ensures AreaLines("") == []
  {
    assert SplitLines("") == [];
  }

  lemma DropEmpty<T>(e: seq<T>, a: seq<T>, b: seq<T>, c: seq<T>)
    requires e == []
    ensures e + a + b + c + e == a + b + c
  {
  }

  lemma ThreeParts<T>(x: seq<T>, a: seq<T>, b: seq<T>, c: seq<T>)
    requires x == a + b + c
    ensures |x| == |a| + |b| + |c|
    ensures x[..|a|] == a && x[|a|..|x| - |c|] == b && x[|x| - |c|..] == c
  {
  }
}
