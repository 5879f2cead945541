/** The G-code generator `PcbDrillGCode` and the three presets that use it.

    The generator keeps its prefix, postfix and the two comment regions in
    StringIO buffers, an ordered hole list, two ordered seek lists, a drill
    hole format and two flags. `Generate` writes the document region by
    region into a fresh buffer, numbering command lines, and caches the
    text between the prefix and the postfix as `body`.

    As written, `Generate` reads each comment buffer from its cursor, and
    `Comment` always leaves that cursor at the end of what it wrote: the
    comment regions are therefore always empty in the output. The class
    invariant `Valid` records the cursor position and `CommentsNotEmitted`
    states the consequence. */
module DrillGCode {
  import opened Strings
  import opened StringIO
  import opened PyRuntime
  import opened GCodeText

  /** The three calibration holes. */
  const CalibrateHoles: seq<Coord> := [Coord("0.0", "0.0"), Coord("30.0", "0.0"), Coord("0.0", "20.0")]

  /** Default prefix commands with their inline comments. */
  const DefaultPrefix: seq<(string, string)> :=
    [("G21", "metric mode"), ("G90", "absolute position"), ("G28 X0 Y0", "go home"),
     ("M42 P23 S255", "turns the spindle on"), ("G1 F3000", "Starting feed rate")]

  /** Default postfix commands with their inline comments. */
  const DefaultPostfix: seq<(string, string)> :=
    [("M42 P23 S0", "turns the spindle off"), ("G28 X0 Y0", "Go Home"), ("G90", "absolute position")]

  function CommandLines(commands: seq<(string, string)>, verbose: bool): seq<string>
  {
    seq(|commands|, i requires 0 <= i < |commands| => CommandText(commands[i].0, commands[i].1, verbose))
  }

  /** The text of a list of default commands. */
  function CommandsText(commands: seq<(string, string)>, verbose: bool): string
  {
    Concat(CommandLines(commands, verbose))
  }

  /** What a standalone comment adds to a buffer: nothing for `None` or `""`. */
  function StandaloneText(comment: Option<string>): string
  {
    if comment == None || comment == Some("") then "" else CommentLine(comment.value)
  }

  /** `_comment(buffer, comment, inline_comment)` */
  function WriteComment(b: Buffer, comment: Option<string>, inline: bool, verbose: bool): (r: Buffer)
    ensures AtEnd(b) && !inline ==> r == Buffer(b.text + StandaloneText(comment), |b.text| + |StandaloneText(comment)|)
    ensures (comment == None || comment == Some("")) ==> r == b
    ensures inline && !verbose ==> r == b
  {
    if comment == None || comment == Some("") then b
    else if inline then (if verbose then Write(b, " ; " + comment.value) else b)
    else Write(b, CommentLine(comment.value))
  }

  /** `_command(buffer, command, comment)` */
  function WriteCommand(b: Buffer, command: string, comment: string, verbose: bool): (r: Buffer)
    ensures AtEnd(b) ==> r == Buffer(b.text + CommandText(command, comment, verbose),
                                     |b.text| + |CommandText(command, comment, verbose)|)
  {
    AppendCommandSteps(b, command, comment, verbose);
    Write(WriteComment(Write(b, command), Some(comment), true, verbose), "\n")
  }

  /** The three writes of `_command` at the end of a buffer append the command line. */
  lemma AppendCommandSteps(b: Buffer, command: string, comment: string, verbose: bool)
    ensures AtEnd(b) ==>
              (Write(WriteComment(Write(b, command), Some(comment), true, verbose), "\n")
               == Buffer(b.text + CommandText(command, comment, verbose),
                         |b.text| + |CommandText(command, comment, verbose)|))
  {
    if AtEnd(b) {
      var c := InlineComment(comment, verbose);
      var b1 := Write(b, command);
      assert b1 == Buffer(b.text + command, |b.text| + |command|);
      var b2 := WriteComment(b1, Some(comment), true, verbose);
      if verbose && comment != "" {
        assert b2 == Write(b1, " ; " + comment);
      }
      assert b2 == Buffer(b.text + command + c, |b.text + command + c|);
      Regroup(b.text, command, c, "\n");
    }
  }

  /** A write into a buffer whose cursor is at its end: the text grows by `s`. */
  method Append(b: Buffer, s: string) returns (r: Buffer)
    requires AtEnd(b)
    ensures r == Buffer(b.text + s, |b.text| + |s|)
  {
    r := Write(b, s);
  }

  /** `_comment` into a buffer whose cursor is at its end. */
  method AppendComment(b: Buffer, comment: Option<string>, inline: bool, verbose: bool) returns (r: Buffer)
    requires AtEnd(b)
    ensures !inline ==> r == Buffer(b.text + StandaloneText(comment), |r.text|)
    ensures inline ==> r == Buffer(b.text + (if comment == None then "" else InlineComment(comment.value, verbose)), |r.text|)
  {
    r := WriteComment(b, comment, inline, verbose);
  }

  /** `_command` into a buffer whose cursor is at its end. */
  method AppendCommand(b: Buffer, command: string, comment: string, verbose: bool) returns (r: Buffer)
    requires AtEnd(b)
    ensures r == Buffer(b.text + CommandText(command, comment, verbose), |r.text|)
  {
    r := WriteCommand(b, command, comment, verbose);
  }

  /** Writing a command over the initial text of a fresh StringIO continues the overlay. */
  lemma CommandOverlay(base: string, w: string, command: string, comment: string, verbose: bool)
    ensures WriteCommand(Overlay(base, w), command, comment, verbose)
         == Overlay(base, w + CommandText(command, comment, verbose))
  {
    var c := InlineComment(comment, verbose);
    var w1 := w + command;
    var w2 := w1 + c;
    OverlayWrite(base, w, command);
    var b1 := Write(Overlay(base, w), command);
    var b2 := WriteComment(b1, Some(comment), true, verbose);
    if comment != "" && verbose {
      OverlayWrite(base, w1, " ; " + comment);
    } else {
      assert w2 == w1;
    }
    assert b2 == Overlay(base, w2);
    OverlayWrite(base, w2, "\n");
    Regroup(w, command, c, "\n");
  }

  /** The buffer the constructor leaves for a prefix or postfix argument `arg`
      (`None` or a string): the default commands when `arg` is `None` or empty,
      the argument with a newline written over its first character when it has
      no newline, otherwise the argument with the cursor at 0. */
  function InitialBuffer(arg: Option<string>, defaults: seq<(string, string)>, verbose: bool): Buffer
  {
    if arg == None || arg == Some("") then
      var t := CommandsText(defaults, verbose);
      Buffer(t, |t|)
    else if '\n' !in arg.value then Buffer("\n" + arg.value[1..], 1)
    else Buffer(arg.value, 0)
  }

  /** The default prefix is five numbered lines, in order: G21, G90, G28 X0 Y0, M42 P23 S255, G1 F3000. */
  lemma DefaultPrefixLines(verbose: bool)
    ensures AreaLines(CommandsText(DefaultPrefix, verbose))
         == [Line(true, CommandText("G21", "metric mode", verbose)),
             Line(true, CommandText("G90", "absolute position", verbose)),
             Line(true, CommandText("G28 X0 Y0", "go home", verbose)),
             Line(true, CommandText("M42 P23 S255", "turns the spindle on", verbose)),
             Line(true, CommandText("G1 F3000", "Starting feed rate", verbose))]
  {
    PrefixPlain();
    DefaultLines(DefaultPrefix, verbose);
  }

  /** The default postfix is three numbered lines, in order: M42 P23 S0, G28 X0 Y0, G90. */
  lemma DefaultPostfixLines(verbose: bool)
    ensures AreaLines(CommandsText(DefaultPostfix, verbose))
         == [Line(true, CommandText("M42 P23 S0", "turns the spindle off", verbose)),
             Line(true, CommandText("G28 X0 Y0", "Go Home", verbose)),
             Line(true, CommandText("G90", "absolute position", verbose))]
  {
    PostfixPlain();
    DefaultLines(DefaultPostfix, verbose);
  }

  /** Commands free of newlines whose command neither is empty nor starts with `;` or `%`. */
  predicate PlainCommands(commands: seq<(string, string)>)
  {
    && (forall i :: 0 <= i < |commands| ==> '\n' !in commands[i].0 && '\n' !in commands[i].1)
    && (forall i :: 0 <= i < |commands| ==> commands[i].0 != "" && commands[i].0[0] != ';' && commands[i].0[0] != '%')
  }

  lemma PrefixPlain()
    ensures PlainCommands(DefaultPrefix)
  {
  }

  lemma PostfixPlain()
    ensures PlainCommands(DefaultPostfix)
  {
  }

  /** Commands free of newlines, not starting with `;` and not `%`, are read back as one numbered line each. */
  lemma DefaultLines(commands: seq<(string, string)>, verbose: bool)
    requires PlainCommands(commands)
    ensures AreaLines(CommandsText(commands, verbose))
         == seq(|commands|, i requires 0 <= i < |commands| =>
                Line(true, CommandText(commands[i].0, commands[i].1, verbose)))
  {
    var ls := CommandLines(commands, verbose);
    forall i | 0 <= i < |ls|
      ensures IsFullLine(ls[i]) && NumberedAreaLine(ls[i])
    {
      var t := ls[i];
      assert t[0] == commands[i].0[0];
      assert t != "%\n";
      assert t[..1] != ";";
      forall j | 0 <= j < |t| - 1
        ensures t[j] != '\n'
      {
        if j < |commands[i].0| {
          assert t[j] == commands[i].0[j];
        } else if verbose && commands[i].1 != "" {
          var c := " ; " + commands[i].1;
          assert t == commands[i].0 + c + "\n";
          assert t[j] == c[j - |commands[i].0|];
          if j - |commands[i].0| >= 3 {
            assert c[j - |commands[i].0|] == commands[i].1[j - |commands[i].0| - 3];
          }
        }
      }
    }
    AreaOfLines(ls);
  }

  /** Generator state. Field names follow the Python attributes. */
  class PcbDrillGCode {
    var prefixBuf: Buffer
    var postfixBuf: Buffer
    var body: Option<string>
    var format: string
    var verboseComments: bool
    var lineNumbers: bool
    var holes: seq<Coord>
    var predrillLocations: seq<Coord>
    var postdrillLocations: seq<Coord>
    var prefixComments: Buffer
    var postfixComments: Buffer
    /** Set to 1 by every `Generate`; Python creates the attribute there. */
    var currentLineNumber: nat

    /** Both comment buffers have only ever been written to, so their cursors sit at their ends. */
    ghost predicate Valid()
      reads this
    {
      AtEnd(prefixComments) && AtEnd(postfixComments)
    }

    /** The document `Generate` writes from the current state. */
    function Current(): Document
      reads this
    {
      Layout(prefixBuf.text, Rest(prefixComments), predrillLocations, holes, postdrillLocations,
             Rest(postfixComments), postfixBuf.text, format, verboseComments)
    }

    constructor (prefix: Option<string>, postfix: Option<string>, lineNumbers: bool, verboseComments: bool)
      ensures Valid()
      ensures prefixBuf == InitialBuffer(prefix, DefaultPrefix, verboseComments)
      ensures postfixBuf == InitialBuffer(postfix, DefaultPostfix, verboseComments)
      ensures body == None && format == DefaultFormat
      ensures this.lineNumbers == lineNumbers && this.verboseComments == verboseComments
      ensures holes == [] && predrillLocations == [] && postdrillLocations == []
      ensures prefixComments == New("") && postfixComments == New("")
    {
      this.format := DefaultFormat;
      this.verboseComments := verboseComments;
      this.lineNumbers := lineNumbers;
      this.holes := [];
      this.predrillLocations := [];
      this.postdrillLocations := [];
      this.prefixComments := New("");
      this.postfixComments := New("");
      this.body := None;
      this.currentLineNumber := 1;
      var pre := New(StrOrNone(prefix));
      if prefix == None || prefix == Some("") {
        pre := WriteDefaults(pre, DefaultPrefix, verboseComments);
      } else if '\n' !in prefix.value {
        pre := Write(pre, "\n");
      }
      var post := New(StrOrNone(postfix));
      if postfix == None || postfix == Some("") {
        post := WriteDefaults(post, DefaultPostfix, verboseComments);
      } else if '\n' !in postfix.value {
        post := Write(post, "\n");
      }
      this.prefixBuf := pre;
      this.postfixBuf := post;
    }

    /** `prefix` (getter) */
    function Prefix(): string
      reads this
    {
      prefixBuf.text
    }

    /** `prefix = value`: the buffer is truncated to nothing and `value` written into it. */
    method SetPrefix(value: string)
      modifies this`prefixBuf
      ensures prefixBuf == Buffer(value, |value|)
    {
      prefixBuf := Truncate(prefixBuf, 0);
      prefixBuf := Write(prefixBuf, value);
    }

    /** `postfix` (getter) */
    function Postfix(): string
      reads this
    {
      postfixBuf.text
    }

    /** `postfix = value` */
    method SetPostfix(value: string)
      modifies this`postfixBuf
      ensures postfixBuf == Buffer(value, |value|)
    {
      postfixBuf := Truncate(postfixBuf, 0);
      postfixBuf := Write(postfixBuf, value);
    }

    /** `body`: a `ValueError` until `Generate` has run, then the cached body text. */
    function Body(): (r: Result<string>)
      reads this
      ensures r.Err? <==> body == None
      ensures r.Err? ==> r.error == Error(ValueError, "You must call generate before the body property becomes available")
      ensures r.Ok? ==> r.value == body.value
    {
      match body
      case None => Err(Error(ValueError, "You must call generate before the body property becomes available"))
      case Some(b) => Ok(b)
    }

    /** `drill_hole_format = value` */
    method SetDrillHoleFormat(value: string)
      modifies this`format
      ensures format == value
    {
      format := value;
    }

    /** `comment(text)`: into the prefix comments while no holes are set, otherwise into the postfix comments. */
    method Comment(comment: Option<string>)
      requires Valid()
      modifies this`prefixComments, this`postfixComments
      ensures Valid()
      ensures |holes| == 0 ==>
                (prefixComments.text == old(prefixComments.text) + StandaloneText(comment)
                 && postfixComments == old(postfixComments))
      ensures |holes| != 0 ==>
                (postfixComments.text == old(postfixComments.text) + StandaloneText(comment)
                 && prefixComments == old(prefixComments))
    {
      if |holes| == 0 {
        prefixComments := AppendComment(prefixComments, comment, false, verboseComments);
      } else {
        postfixComments := AppendComment(postfixComments, comment, false, verboseComments);
      }
    }

    /** `drill_holes(holes)`: replaces the hole list. */
    method DrillHoles(newHoles: seq<Coord>)
      modifies this`holes
      ensures holes == newHoles
    {
      holes := newHoles;
    }

    /** `seek_predrill_location(location)`: appends. */
    method SeekPredrillLocation(location: Coord)
      modifies this`predrillLocations
      ensures predrillLocations == old(predrillLocations) + [location]
    {
      predrillLocations := predrillLocations + [location];
    }

    /** `seek_postdrill_location(location)`: appends. */
    method SeekPostdrillLocation(location: Coord)
      modifies this`postdrillLocations
      ensures postdrillLocations == old(postdrillLocations) + [location]
    {
      postdrillLocations := postdrillLocations + [location];
    }

    /** Under the class invariant nothing of the comment buffers reaches the
        document: it is the prefix, the seeks, the holes and the postfix alone. */
    lemma CommentsNotEmitted(prefix: string, predrill: seq<Coord>, holes: seq<Coord>, postdrill: seq<Coord>,
                             postfix: string, format: string, verbose: bool)
      requires Valid()
      requires prefixBuf.text == prefix && postfixBuf.text == postfix
      requires predrillLocations == predrill && this.holes == holes && postdrillLocations == postdrill
      requires this.format == format && verboseComments == verbose
      ensures Current() == Layout(prefix, "", predrill, holes, postdrill, "", postfix, format, verbose)
    {
      assert Rest(prefixComments) == "" && Rest(postfixComments) == "";
    }

    /** `generate()`: writes the document, caches the body and returns the text.
        The counter `current_line_number` starts at 1; the nested helpers take
        its value and return it advanced, and the last value is stored back. */
    method Generate() returns (gcodeText: string)
      requires Valid()
      modifies this`prefixBuf, this`postfixBuf, this`prefixComments, this`postfixComments
      modifies this`body, this`currentLineNumber
      ensures Valid()
      ensures prefixBuf == old(prefixBuf) && postfixBuf == old(postfixBuf)
      ensures prefixComments == old(prefixComments) && postfixComments == old(postfixComments)
      ensures gcodeText == Output(old(Current()), lineNumbers)
      ensures body == Some(BodyText(old(Current()), lineNumbers))
      ensures currentLineNumber
           == 1 + Advance(old(Current()).prefix + old(Current()).body + old(Current()).postfix, lineNumbers)
    {
      var text, bodyText, n;
      text, bodyText, prefixBuf, prefixComments, postfixComments, postfixBuf, n :=
        GenerateText(prefixBuf, prefixComments, predrillLocations, holes, postdrillLocations, postfixComments,
                     postfixBuf, format, verboseComments, lineNumbers);
      currentLineNumber := n;
      body := Some(bodyText);
      gcodeText := text;
    }
  }

  /** Calling `generate()` twice with nothing changed in between returns the
      same text both times and leaves the same body: the prefix and postfix
      cursors are restored and the counter restarts at 1 on each call. */
  method GenerateTwice(generator: PcbDrillGCode) returns (first: string, second: string)
    requires generator.Valid()
    modifies generator
    ensures first == second
    ensures generator.Current() == old(generator.Current())
    ensures generator.body == Some(BodyText(old(generator.Current()), generator.lineNumbers))
  {
    ghost var d := generator.Current();
    first := generator.Generate();
    assert generator.Current() == d;
    second := generator.Generate();
  }

  // ----- the nested helpers of `generate` -----

  /** `write_line_number()`: the label of line `n` when numbering is on, and the counter moves past it. */
  method WriteLineNumber(gcode: Buffer, n: nat, on: bool) returns (r: Buffer, n': nat)
    requires AtEnd(gcode)
    ensures r == Buffer(gcode.text + Tag(n, on), |r.text|)
    ensures n' == n + (if on then 1 else 0)
  {
    r, n' := gcode, n;
    if on {
      r := Append(r, Label(n));
      n' := n + 1;
    }
  }

  /** `write_area(area)`: copies the unread lines of `area`, numbering all but `%` and comment lines. */
  method WriteArea(gcode: Buffer, area: Buffer, n: nat, on: bool) returns (r: Buffer, area': Buffer, n': nat)
    requires AtEnd(gcode)
    ensures area' == ReadLines(area).1
    ensures r == Buffer(gcode.text + Text(AreaLines(Rest(area)), n, on), |r.text|)
    ensures n' == n + Advance(AreaLines(Rest(area)), on)
  {
    var lines := ReadLines(area).0;
    area' := ReadLines(area).1;
    r, n' := gcode, n;
    for i := 0 to |lines|
      invariant r == Buffer(gcode.text + Text(Classify(lines[..i]), n, on), |r.text|)
      invariant n' == n + Advance(Classify(lines[..i]), on)
    {
      var line := lines[i];
      ghost var l := Line(NumberedAreaLine(line), line);
      EmitLine(gcode.text, Classify(lines[..i]), l, n, on, if on && l.numbered then Label(n') else "");
      ClassifySnoc(lines, i);
      if line != "%\n" && !StartsWith(line, ";") {
        r, n' := WriteLineNumber(r, n', on);
        r := Append(r, line);
      } else {
        r := Append(r, line);
      }
    }
    assert lines[..|lines|] == lines;
  }

  /** One seek loop of `generate`: a numbered command per location. */
  method WriteSeeks(gcode: Buffer, locations: seq<Coord>, comment: string, format: string, verbose: bool,
                    n: nat, on: bool) returns (r: Buffer, n': nat)
    requires AtEnd(gcode)
    ensures r == Buffer(gcode.text + Text(SeekLines(locations, format, comment, verbose), n, on), |r.text|)
    ensures n' == n + Advance(SeekLines(locations, format, comment, verbose), on)
  {
    r, n' := gcode, n;
    for k := 0 to |locations|
      invariant r == Buffer(gcode.text + Text(SeekLines(locations[..k], format, comment, verbose), n, on), |r.text|)
      invariant n' == n + Advance(SeekLines(locations[..k], format, comment, verbose), on)
    {
      ghost var l := Line(true, CommandText(Format(format, locations[k]), comment, verbose));
      EmitLine(gcode.text, SeekLines(locations[..k], format, comment, verbose), l, n, on, if on then Label(n') else "");
      SeekLinesSnoc(locations, k, format, comment, verbose);
      r, n' := WriteLineNumber(r, n', on);
      r := AppendCommand(r, Format(format, locations[k]), comment, verbose);
    }
    assert locations[..|locations|] == locations;
  }

  /** One iteration of the hole loop: the begin comment, the three numbered commands, the end comment. */
  method WriteHole(gcode: Buffer, holeNumber: nat, hole: Coord, format: string, verbose: bool, n: nat, on: bool)
    returns (r: Buffer, n': nat)
    requires AtEnd(gcode)
    ensures r == Buffer(gcode.text + HoleText(holeNumber, hole, format, verbose, n, on), |r.text|)
    ensures n' == n + HoleSteps(1, on)
  {
    ghost var a := CommentLine(BeginHoleComment(holeNumber, hole));
    ghost var b := CommandText(Format(format, hole), "Drill hole location", verbose);
    ghost var c := CommandText(Plunge, "Drill hole", verbose);
    ghost var d := CommandText(Retract, "Retract drill to safe position", verbose);
    ghost var e := CommentLine(EndHoleComment(holeNumber));
    ghost var t1, t2, t3 := Tag(n, on), Tag(n + 1, on), Tag(n + 2, on);
    r := AppendComment(gcode, Some(BeginHoleComment(holeNumber, hole)), false, verbose);
    assert r.text == gcode.text + a;
    r, n' := WriteLineNumber(r, n, on);
    assert r.text == gcode.text + a + t1;
    r := AppendCommand(r, Format(format, hole), "Drill hole location", verbose);
    r, n' := WriteLineNumber(r, n', on);
    assert r.text == gcode.text + a + t1 + b + t2;
    r := AppendCommand(r, Plunge, "Drill hole", verbose);
    r, n' := WriteLineNumber(r, n', on);
    assert r.text == gcode.text + a + t1 + b + t2 + c + t3;
    r := AppendCommand(r, Retract, "Retract drill to safe position", verbose);
    r := AppendComment(r, Some(EndHoleComment(holeNumber)), false, verbose);
    assert r.text == gcode.text + a + t1 + b + t2 + c + t3 + d + e;
    Nest(gcode.text, a, t1, b, t2, c, t3, d, e);
    FiveLines(a, b, c, d, e, n, on);
  }

  /** The hole loop of `generate`: one `WriteHole` per hole, numbered from 1. */
  method WriteHoleLoop(gcode: Buffer, holes: seq<Coord>, format: string, verbose: bool, n: nat, on: bool)
    returns (r: Buffer, n': nat)
    requires AtEnd(gcode)
    ensures r == Buffer(gcode.text + HolesText(holes, |holes|, format, verbose, n, on), |r.text|)
    ensures n' == n + HoleSteps(|holes|, on)
  {
    r, n' := gcode, n;
    for index := 0 to |holes|
      invariant r == Buffer(gcode.text + HolesText(holes, index, format, verbose, n, on), |r.text|)
      invariant n' == n + HoleSteps(index, on)
    {
      ghost var m := n';
      r, n' := WriteHole(r, index + 1, holes[index], format, verbose, n', on);
      HolesStep(gcode.text, holes, index, format, verbose, n, on, m);
    }
  }

  /** The hole loop of `generate`, with the "no holes" comment after it. */
  method WriteHoles(gcode: Buffer, holes: seq<Coord>, format: string, verbose: bool, n: nat, on: bool)
    returns (r: Buffer, n': nat)
    requires AtEnd(gcode)
    ensures r == Buffer(gcode.text + Text(HoleRegion(holes, format, verbose), n, on), |r.text|)
    ensures n' == n + Advance(HoleRegion(holes, format, verbose), on)
  {
    r, n' := WriteHoleLoop(gcode, holes, format, verbose, n, on);
    assert holes[..|holes|] == holes;
    HolesTextIsText(holes, |holes|, format, verbose, n, on);
    ghost var blocks := HoleBlocks(holes, format, verbose);
    if |holes| == 0 {
      EmitLine(gcode.text, blocks, NoHolesLine, n, on, "");
      r := AppendComment(r, Some("No Drill holes defined"), false, verbose);
    } else {
      AppendNil(blocks);
    }
  }

  /** The body part of `generate`: the prefix comments, the pre-drill seeks, the
      holes, the post-drill seeks and the postfix comments. */
  method WriteBody(gcode: Buffer, prefixComments: Buffer, predrill: seq<Coord>, holes: seq<Coord>,
                   postdrill: seq<Coord>, postfixComments: Buffer, format: string, verbose: bool, n: nat, on: bool)
    returns (r: Buffer, prefixComments': Buffer, postfixComments': Buffer, n': nat)
    requires AtEnd(gcode)
    ensures prefixComments' == ReadLines(prefixComments).1 && postfixComments' == ReadLines(postfixComments).1
    ensures r == Buffer(gcode.text + Text(BodyLines(Rest(prefixComments), predrill, holes, postdrill,
                                                    Rest(postfixComments), format, verbose), n, on), |r.text|)
    ensures n' == n + Advance(BodyLines(Rest(prefixComments), predrill, holes, postdrill,
                                        Rest(postfixComments), format, verbose), on)
  {
    ghost var c1, c2 := AreaLines(Rest(prefixComments)), AreaLines(Rest(postfixComments));
    ghost var s1 := SeekLines(predrill, format, PreDrillComment, verbose);
    ghost var h := HoleRegion(holes, format, verbose);
    ghost var s2 := SeekLines(postdrill, format, PostDrillComment, verbose);
    r, prefixComments', n' := WriteArea(gcode, prefixComments, n, on);
    ghost var n3 := n';
    r, n' := WriteSeeks(r, predrill, PreDrillComment, format, verbose, n', on);
    ghost var n4 := n';
    r, n' := WriteHoles(r, holes, format, verbose, n', on);
    ghost var n5 := n';
    r, n' := WriteSeeks(r, postdrill, PostDrillComment, format, verbose, n', on);
    ghost var n6 := n';
    r, postfixComments', n' := WriteArea(r, postfixComments, n', on);
    BodyRuns(c1, s1, h, s2, c2, on, n, n3, n4, n5, n6, n');
    Regroup5(gcode.text, Text(c1, n, on), Text(s1, n3, on), Text(h, n4, on), Text(s2, n5, on), Text(c2, n6, on));
  }

  /** The body of `generate()` on the generator's state: the prefix and postfix
      buffers are read from their start and seeked back to where they were, the
      document is written, and the body is read back out of it. */
  method GenerateText(prefix: Buffer, prefixComments: Buffer, predrill: seq<Coord>, holes: seq<Coord>,
                      postdrill: seq<Coord>, postfixComments: Buffer, postfix: Buffer,
                      format: string, verbose: bool, on: bool)
    returns (text: string, bodyText: string, prefix': Buffer, prefixComments': Buffer,
             postfixComments': Buffer, postfix': Buffer, n: nat)
    ensures prefix' == prefix && postfix' == postfix
    ensures prefixComments' == ReadLines(prefixComments).1 && postfixComments' == ReadLines(postfixComments).1
    ensures var d := Layout(prefix.text, Rest(prefixComments), predrill, holes, postdrill,
                            Rest(postfixComments), postfix.text, format, verbose);
            && text == Output(d, on)
            && bodyText == BodyText(d, on)
            && n == 1 + Advance(d.prefix + d.body + d.postfix, on)
  {
    var prefixLocation := Tell(prefix);
    var postfixLocation := Tell(postfix);
    var p := Seek(prefix, 0);
    var q := Seek(postfix, 0);
    RestFromStart(p);
    RestFromStart(q);
    ghost var d := Layout(prefix.text, Rest(prefixComments), predrill, holes, postdrill,
                          Rest(postfixComments), postfix.text, format, verbose);
    assert d == Layout(Rest(p), Rest(prefixComments), predrill, holes, postdrill,
                       Rest(postfixComments), Rest(q), format, verbose);
    var gcode, beginBody, endBody;
    gcode, beginBody, endBody, p, prefixComments', postfixComments', q, n :=
      WriteDocument(p, prefixComments, predrill, holes, postdrill, postfixComments, q, format, verbose, on);
    prefix' := Seek(p, prefixLocation);
    postfix' := Seek(q, postfixLocation);
    ReadBack(gcode, beginBody, endBody);
    gcode := Seek(gcode, beginBody);
    bodyText, gcode := Read(gcode, endBody - beginBody).0, Read(gcode, endBody - beginBody).1;
    text := gcode.text;
  }

  /** Seeking to `begin` and reading `end - begin` characters gives the slice between them. */
  lemma ReadBack(b: Buffer, begin: nat, end: nat)
    requires begin <= end <= |b.text|
    ensures Read(Seek(b, begin), end - begin).0 == b.text[begin..end]
    ensures Read(Seek(b, begin), end - begin).1.text == b.text
  {
    ReadSlice(Seek(b, begin), end - begin);
  }

  /** The writing part of `generate`, given the prefix and postfix buffers seeked to
      their start: the prefix area, the body and the postfix area, numbered from 1,
      with the positions where the body begins and ends. */
  method WriteDocument(prefix: Buffer, prefixComments: Buffer, predrill: seq<Coord>, holes: seq<Coord>,
                       postdrill: seq<Coord>, postfixComments: Buffer, postfix: Buffer,
                       format: string, verbose: bool, on: bool)
    returns (gcode: Buffer, beginBody: nat, endBody: nat, prefix': Buffer, prefixComments': Buffer,
             postfixComments': Buffer, postfix': Buffer, n: nat)
    ensures prefix' == ReadLines(prefix).1 && postfix' == ReadLines(postfix).1
    ensures prefixComments' == ReadLines(prefixComments).1 && postfixComments' == ReadLines(postfixComments).1
    ensures var d := Layout(Rest(prefix), Rest(prefixComments), predrill, holes, postdrill,
                            Rest(postfixComments), Rest(postfix), format, verbose);
            && gcode.text == Output(d, on)
            && beginBody <= endBody <= |gcode.text|
            && gcode.text[beginBody..endBody] == BodyText(d, on)
            && n == 1 + Advance(d.prefix + d.body + d.postfix, on)
  {
    gcode := New("");
    n := 1;
    gcode, prefix', n := WriteArea(gcode, prefix, n, on);
    ghost var n2 := n;
    beginBody := Tell(gcode);
    gcode, prefixComments', postfixComments', n :=
      WriteBody(gcode, prefixComments, predrill, holes, postdrill, postfixComments, format, verbose, n, on);
    ghost var n7 := n;
    endBody := Tell(gcode);
    gcode, postfix', n := WriteArea(gcode, postfix, n, on);
    ghost var d := Layout(Rest(prefix), Rest(prefixComments), predrill, holes, postdrill,
                          Rest(postfixComments), Rest(postfix), format, verbose);
    Compose(d, on, n2, n7);
  }

  lemma Regroup5(g: string, t1: string, t2: string, t3: string, t4: string, t5: string)
    ensures g + t1 + t2 + t3 + t4 + t5 == g + (t1 + t2 + t3 + t4 + t5)
  {
  }

  /** One more hole's text written after the first `index` holes' text. */
  lemma HolesStep(g: string, holes: seq<Coord>, index: nat, format: string, verbose: bool, next: nat, on: bool, m: nat)
    requires index < |holes|
    requires m == next + HoleSteps(index, on)
    ensures g + HolesText(holes, index + 1, format, verbose, next, on)
         == g + HolesText(holes, index, format, verbose, next, on) + HoleText(index + 1, holes[index], format, verbose, m, on)
  {
    HolesTextNext(holes, index, format, verbose, next, on, m);
    AppendStep(g, HolesText(holes, index + 1, format, verbose, next, on), HolesText(holes, index, format, verbose, next, on),
               HoleText(index + 1, holes[index], format, verbose, m, on));
  }

  lemma AppendStep(g: string, whole: string, front: string, last: string)
    requires whole == front + last
    ensures g + whole == g + front + last
  {
  }

  /** Writing nine pieces one after the other, grouped as a hole's text is. */
  lemma Nest(g: string, a: string, t1: string, b: string, t2: string, c: string, t3: string, d: string, e: string)
    ensures g + a + t1 + b + t2 + c + t3 + d + e == g + (a + (t1 + b + (t2 + c + (t3 + d + e))))
  {
  }

  lemma AppendNil<T>(s: seq<T>)
    ensures s + [] == s
  {
  }

  lemma Regroup(a: string, b: string, c: string, d: string)
    ensures a + b + c + d == a + (b + c + d)
  {
  }

  /** Writing one line's label, if it gets one, and its text after `head` and the text of `done`. */
  lemma EmitLine(head: string, done: seq<Line>, l: Line, next: nat, on: bool, tag: string)
    requires tag == if on && l.numbered then Label(next + Advance(done, on)) else ""
    ensures head + Text(done, next, on) + tag + l.text == head + Text(done + [l], next, on)
    ensures tag == "" ==> head + Text(done, next, on) + l.text == head + Text(done + [l], next, on)
    ensures Advance(done + [l], on) == Advance(done, on) + (if on && l.numbered then 1 else 0)
  {
    TextSnoc(done, l, next, on);
    Regroup(head, Text(done, next, on), tag, l.text);
    if tag == "" {
      assert head + Text(done, next, on) + tag == head + Text(done, next, on);
    }
  }

  lemma ClassifySnoc(lines: seq<string>, i: nat)
    requires i < |lines|
    ensures Classify(lines[..i + 1]) == Classify(lines[..i]) + [Line(NumberedAreaLine(lines[i]), lines[i])]
  {
  }

  lemma SeekLinesSnoc(locations: seq<Coord>, k: nat, format: string, comment: string, verbose: bool)
    requires k < |locations|
    ensures SeekLines(locations[..k + 1], format, comment, verbose)
         == SeekLines(locations[..k], format, comment, verbose)
            + [Line(true, CommandText(Format(format, locations[k]), comment, verbose))]
  {
  }

  /** One more default command adds its line to the text. */
  lemma CommandsTextSnoc(commands: seq<(string, string)>, i: nat, verbose: bool)
    requires i < |commands|
    ensures CommandsText(commands[..i + 1], verbose)
         == CommandsText(commands[..i], verbose) + CommandText(commands[i].0, commands[i].1, verbose)
  {
    var line := CommandText(commands[i].0, commands[i].1, verbose);
    assert CommandLines(commands[..i + 1], verbose) == CommandLines(commands[..i], verbose) + [line];
    ConcatAppend(CommandLines(commands[..i], verbose), [line]);
  }

  /** Writes the default commands of the constructor, one `_command` each. */
  method WriteDefaults(b: Buffer, commands: seq<(string, string)>, verbose: bool) returns (r: Buffer)
    requires b.pos == 0 && commands != [] && |b.text| <= |commands[0].0| + 1
    ensures r == Buffer(CommandsText(commands, verbose), |CommandsText(commands, verbose)|)
  {
    NewIsOverlay(b.text);
    r := b;
    for i := 0 to |commands|
      invariant r == Overlay(b.text, CommandsText(commands[..i], verbose))
    {
      CommandOverlay(b.text, CommandsText(commands[..i], verbose), commands[i].0, commands[i].1, verbose);
      r := WriteCommand(r, commands[i].0, commands[i].1, verbose);
      CommandsTextSnoc(commands, i, verbose);
    }
    assert commands[..|commands|] == commands;
    var t := CommandsText(commands, verbose);
    assert t == CommandLines(commands, verbose)[0] + Concat(CommandLines(commands, verbose)[1..]);
    OverlayCovers(b.text, t);
  }

  // ----- the presets -----

  /** The document a preset's generator writes: the constructor's prefix and
      postfix, the given seeks and holes, the default drill hole format, and
      (as `generate` reads them) empty comment regions. */
  function PresetDocument(prefix: Option<string>, postfix: Option<string>, predrill: seq<Coord>,
                          holes: seq<Coord>, verbose: bool): Document
  {
    Layout(InitialBuffer(prefix, DefaultPrefix, verbose).text, "", predrill, holes, [], "",
           InitialBuffer(postfix, DefaultPostfix, verbose).text, DefaultFormat, verbose)
  }

  /** `calibrate_printer(**kwargs)`: a generator built from the arguments, two
      comments around the three calibration holes, then `generate`. */
  method CalibratePrinter(prefix: Option<string>, postfix: Option<string>, lineNumbers: bool, verbose: bool)
    returns (gcode: string)
    ensures gcode == Output(PresetDocument(prefix, postfix, [], CalibrateHoles, verbose), lineNumbers)
  {
    var generator := new PcbDrillGCode(prefix, postfix, lineNumbers, verbose);
    gcode := CalibrateSteps(generator);
  }

  /** `eject_bed(*args, **kwargs)`: a comment and a pre-drill seek to (0, 180). */
  method EjectBed(prefix: Option<string>, postfix: Option<string>, lineNumbers: bool, verbose: bool)
    returns (gcode: string)
    ensures gcode == Output(PresetDocument(prefix, postfix, [Coord("0", "180")], [], verbose), lineNumbers)
  {
    var generator := new PcbDrillGCode(prefix, postfix, lineNumbers, verbose);
    gcode := SeekSteps(generator, "This will eject the bed", Coord("0", "180"));
  }

  /** `retract_bed(*args, **kwargs)`: a comment and a pre-drill seek to (0, 20). */
  method RetractBed(prefix: Option<string>, postfix: Option<string>, lineNumbers: bool, verbose: bool)
    returns (gcode: string)
    ensures gcode == Output(PresetDocument(prefix, postfix, [Coord("0", "20")], [], verbose), lineNumbers)
  {
    var generator := new PcbDrillGCode(prefix, postfix, lineNumbers, verbose);
    gcode := SeekSteps(generator, "This will retract the bed", Coord("0", "20"));
  }

  /** The calls `calibrate_printer` makes on its new generator. The comments do
      not reach the text. */
  method CalibrateSteps(generator: PcbDrillGCode) returns (gcode: string)
    requires generator.Valid()
    requires generator.holes == [] && generator.predrillLocations == [] && generator.postdrillLocations == []
    modifies generator
    ensures gcode == Output(Layout(old(generator.prefixBuf).text, "", [], CalibrateHoles, [], "",
                                   old(generator.postfixBuf).text, old(generator.format),
                                   old(generator.verboseComments)),
                            old(generator.lineNumbers))
  {
    ghost var p, q := generator.prefixBuf.text, generator.postfixBuf.text;
    ghost var f, v, on := generator.format, generator.verboseComments, generator.lineNumbers;
    generator.Comment(Some("I hope this works"));
    generator.DrillHoles(CalibrateHoles);
    generator.Comment(Some("That should do it"));
    assert generator.prefixBuf.text == p && generator.postfixBuf.text == q;
    assert generator.format == f && generator.verboseComments == v && generator.lineNumbers == on;
    gcode := GenerateQuiet(generator);
  }

  /** The calls `eject_bed` and `retract_bed` make on their new generator: a
      comment, one pre-drill seek, `generate`. The comment does not reach the text. */
  method SeekSteps(generator: PcbDrillGCode, comment: string, location: Coord) returns (gcode: string)
    requires generator.Valid()
    requires generator.holes == [] && generator.predrillLocations == [] && generator.postdrillLocations == []
    modifies generator
    ensures gcode == Output(Layout(old(generator.prefixBuf).text, "", [location], [], [], "",
                                   old(generator.postfixBuf).text, old(generator.format),
                                   old(generator.verboseComments)),
                            old(generator.lineNumbers))
  {
    ghost var p, q := generator.prefixBuf.text, generator.postfixBuf.text;
    ghost var f, v, on := generator.format, generator.verboseComments, generator.lineNumbers;
    generator.Comment(Some(comment));
    generator.SeekPredrillLocation(location);
    assert generator.predrillLocations == [location];
    assert generator.prefixBuf.text == p && generator.postfixBuf.text == q;
    assert generator.format == f && generator.verboseComments == v && generator.lineNumbers == on;
    gcode := GenerateQuiet(generator);
  }

  /** `generate()` on a generator under its invariant: its text is the layout of
      the prefix, seeks, holes and postfix, with no comment region. */
  method GenerateQuiet(generator: PcbDrillGCode) returns (gcode: string)
    requires generator.Valid()
    modifies generator
    ensures gcode == Output(Layout(old(generator.prefixBuf).text, "", old(generator.predrillLocations),
                                   old(generator.holes), old(generator.postdrillLocations), "",
                                   old(generator.postfixBuf).text, old(generator.format),
                                   old(generator.verboseComments)),
                            old(generator.lineNumbers))
  {
    generator.CommentsNotEmitted(generator.prefixBuf.text, generator.predrillLocations, generator.holes,
                                 generator.postdrillLocations, generator.postfixBuf.text, generator.format,
                                 generator.verboseComments);
    gcode := generator.Generate();
  }

  /** The calibration body is three hole blocks, fifteen lines, whose coordinate
      lines are `G1 X0.0 Y0.0`, `G1 X30.0 Y0.0` and `G1 X0.0 Y20.0` in that order. */
  lemma CalibrateBody(prefix: string, postfix: string, verbose: bool)
    ensures var body := Layout(prefix, "", [], CalibrateHoles, [], "", postfix, DefaultFormat, verbose).body;
            && body == HoleBlocks(CalibrateHoles, DefaultFormat, verbose)
            && |body| == 15
            && body[1] == Line(true, CommandText("G1 X0.0 Y0.0", "Drill hole location", verbose))
            && body[6] == Line(true, CommandText("G1 X30.0 Y0.0", "Drill hole location", verbose))
            && body[11] == Line(true, CommandText("G1 X0.0 Y20.0", "Drill hole location", verbose))
  {
    HolesOnly(prefix, CalibrateHoles, postfix, DefaultFormat, verbose);
    HoleCoordinateLine(CalibrateHoles, 0, verbose);
    HoleCoordinateLine(CalibrateHoles, 1, verbose);
    HoleCoordinateLine(CalibrateHoles, 2, verbose);
    CalibrateCommands();
  }

  lemma CalibrateCommands()
    ensures "G1 X" + CalibrateHoles[0].x + " Y" + CalibrateHoles[0].y == "G1 X0.0 Y0.0"
    ensures "G1 X" + CalibrateHoles[1].x + " Y" + CalibrateHoles[1].y == "G1 X30.0 Y0.0"
    ensures "G1 X" + CalibrateHoles[2].x + " Y" + CalibrateHoles[2].y == "G1 X0.0 Y20.0"
  {
  }

  /** A bed preset's body is its one seek line, `G1 X0 Y<y>`, then the "no holes" comment. */
  lemma BedBody(prefix: string, postfix: string, y: string, verbose: bool)
    ensures Layout(prefix, "", [Coord("0", y)], [], [], "", postfix, DefaultFormat, verbose).body
         == [Line(true, CommandText("G1 X0 Y" + y, PreDrillComment, verbose)), NoHolesLine]
  {
    QuietBody([Coord("0", y)], [], [], DefaultFormat, verbose);
    NoHoles(DefaultFormat, verbose);
    var seek := SeekLines([Coord("0", y)], DefaultFormat, PreDrillComment, verbose);
    var line := Line(true, CommandText("G1 X0 Y" + y, PreDrillComment, verbose));
    assert seek[0] == Line(true, CommandText(Format(DefaultFormat, Coord("0", y)), PreDrillComment, verbose));
    DefaultFormatRendering(Coord("0", y));
    BedCommand(y);
    assert seek == [line];
    assert SeekLines([], DefaultFormat, PostDrillComment, verbose) == [];
  }

  lemma BedCommand(y: string)
    ensures "G1 X" + Coord("0", y).x + " Y" + Coord("0", y).y == "G1 X0 Y" + y
  {
    assert "G1 X" + "0" + " Y" == "G1 X0 Y";
  }
}
