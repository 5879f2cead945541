# pcb_drill core, modelled in Dafny

This project models three parts of the pcb_drill system. The system drives
a PCB drilling machine: a web front end asks a privileged daemon to
capture and analyse board images, and the daemon turns the drill holes it
found into G-code.

- **The G-code generator** `PcbDrillGCode` (module `DrillGCode`, text
  layout in `GCodeText`). It is modelled as a class whose fields are the
  generator's attributes.
  - The prefix, postfix and two comment regions are StringIO buffers
    (module `StringIO`). Each is a text and a cursor, with Python 2's
    write-at-cursor semantics.
  - `generate()` is a method built from the same nested steps as the
    source: `write_line_number`, `write_area`, the seek loops, the hole
    loop, and the cursor save, restore and `read`.
  - It is proved to write `Output(Current(), lineNumbers)`. That is an
    independent line-by-line description of the document: which lines are
    numbered, what each line's text is, and in which order the regions
    come.
  - The presets `calibrate_printer`, `eject_bed` and `retract_bed` are
    modelled as well.
- **The daemon's request side** (module `Daemon`). It covers:
  - `_build_filename` and its regular expression;
  - `generate_gcode`;
  - `_get_rpc_methods`;
  - `_execute`;
  - the per-request behaviour of `run`: the placeholder response, the
    `except Exception` report, and the `finally` send.

  Requests are already-decoded JSON mappings. RPC methods are functions
  from keyword arguments to a value or a raised error.
- **The web navigation menu** (module `Navigation`). `NavigationMenuItem`
  and `NavigationMenu` are classes. A menu's children are items or nested
  menus (`Child`). `set_active` assigns the children's `active` flags in
  place.

Python's `None`, raised exceptions, `repr` of strings and `KeyError`
messages are in `PyRuntime`. `str(n)`, `"{0:03}"`, `lower()` and `join`
are in `Strings`.

### Behaviour of the code as written that the model keeps

- **Comments never reach the output.** `comment()` writes at the end of a
  comment buffer, so the buffer's cursor always sits at its end.
  `generate()` then reads each comment buffer with `readlines()` from
  that cursor, so the read yields nothing.
  - The design intent is that buffered comments appear before and after
    the holes. The model follows the code instead.
  - `Valid()` records where the cursor sits, and
    `PcbDrillGCode.CommentsNotEmitted` states the consequence. Every
    property of `generate_gcode` and of the presets is proved with empty
    comment regions.
- **A prefix or postfix without a newline loses its first character.**
  When the text contains no `"\n"`, the constructor writes `"\n"` at
  cursor 0 of a fresh StringIO. That overwrites the first character
  instead of appending a line end. `InitialBuffer` models this as
  written.
- **The file-name pattern admits a trailing newline.**
  `^[0-9A-Za-z\._-]+$` is matched with `re.match`, and its `$` also
  matches before a final `"\n"`. So `"board\n"` is accepted and stored as
  `board\n.png` (`Daemon.NewlineAdmitted`). No `/` can ever pass the
  check.
- **Only `Exception`s are reported.** An error that `except Exception`
  does not catch, such as `KeyboardInterrupt`, leaves `run`. The
  `finally` clause still sends the `{'error': 'premature exit'}`
  placeholder first.

## Model

| member | source | states |
|---|---|---|
| Strings.DecimalRoundTrip | pcb_drilld/pcb_drilld.py:236 | `str(n)` of a hole count is all decimal digits and reads back as `n` |
| Strings.ZeroPadded3Digits | pcb_drill_common/pcb_drill_gcode.py:143 | the `{0:03}` label number is at least three digits, all digits, and reads back as the counter |
| StringIO.Write | pcb_drill_common/pcb_drill_gcode.py:98-105 | a write puts `s` at the cursor and moves the cursor past it; at the end of the buffer it appends |
| StringIO.WriteKeeps | pcb_drill_common/pcb_drill_gcode.py:42-43 | a write keeps the text before the cursor and after the written span, and pads a gap with NULs |
| StringIO.Truncate | pcb_drill_common/pcb_drill_gcode.py:57 | truncation keeps the first `size` characters and pulls the cursor back to at most `size` |
| StringIO.Read | pcb_drill_common/pcb_drill_gcode.py:190 | `read(n)` returns the first `n` characters of what is left to read (all of it when fewer remain), consumes exactly them, leaves the text unchanged and never leaves the cursor past the end |
| StringIO.ReadSlice | pcb_drill_common/pcb_drill_gcode.py:189-190 | reading `n` characters that are all there gives exactly the slice |
| StringIO.RestFromStart | pcb_drill_common/pcb_drill_gcode.py:137-138 | after `seek(0)` the whole text is left to read |
| StringIO.ReadLines | pcb_drill_common/pcb_drill_gcode.py:147 | the lines `readlines()` returns join to the unread rest and the cursor ends at the end of the text; a buffer read to its end gives no lines and stays as it was |
| StringIO.SplitLines | pcb_drill_common/pcb_drill_gcode.py:147 | splitting joins back to the text, each piece is a line, and every piece but the last ends in a newline |
| StringIO.SplitConcat | pcb_drill_common/pcb_drill_gcode.py:147 | splitting a text made of whole lines gives those lines back |
| StringIO.OverlayWrite | pcb_drill_common/pcb_drill_gcode.py:23-24 | successive writes from position 0 of a fresh StringIO overlay the initial text |
| StringIO.OverlayCovers | pcb_drill_common/pcb_drill_gcode.py:37-41 | once the writes are as long as the initial text, nothing of it is left |
| GCodeText.TextAppend | pcb_drill_common/pcb_drill_gcode.py:152-183 | writing two runs of lines in turn is writing their concatenation, with the counter carried over |
| GCodeText.TextSnoc | pcb_drill_common/pcb_drill_gcode.py:140-150 | one more line adds its label only when numbering is on and the line is numbered, and the counter moves by one exactly then |
| GCodeText.TextUnnumbered | pcb_drill_common/pcb_drill_gcode.py:140-144 | with line numbers off no label appears: the text is the lines' texts |
| GCodeText.TextIsLabelledLines | pcb_drill_common/pcb_drill_gcode.py:130-150 | the text is each line with its label; the k-th numbered line gets `N` of first plus k |
| GCodeText.ConsecutiveLabels | pcb_drill_common/pcb_drill_gcode.py:140-144 | two numbered lines with no numbered line between them carry consecutive numbers |
| GCodeText.BodyBetween | pcb_drill_common/pcb_drill_gcode.py:154-190 | the output is the prefix text, then exactly the cached body, then the postfix text |
| GCodeText.Regions | pcb_drill_common/pcb_drill_gcode.py:152-183 | the counter stands after the prefix's numbered lines when the body starts, and after the body's when the postfix starts |
| GCodeText.AreaLinesText | pcb_drill_common/pcb_drill_gcode.py:145-150 | an area is copied unchanged apart from the labels |
| GCodeText.AreaOfLines | pcb_drill_common/pcb_drill_gcode.py:147-149 | an area of whole lines is read back as those lines; `%` lines and `;` lines are unnumbered |
| GCodeText.QuietCommand | pcb_drill_common/pcb_drill_gcode.py:95-105 | with verbose comments off a command line is the bare command and its newline |
| GCodeText.FormatLiteral | pcb_drill_common/pcb_drill_gcode.py:160 | a format without braces is copied as it is |
| GCodeText.FormatPrefix | pcb_drill_common/pcb_drill_gcode.py:160 | a brace-free head of the format is copied in front of the rest's rendering |
| GCodeText.FormatFields | pcb_drill_common/pcb_drill_gcode.py:167 | `{0}` renders x and `{1}` renders y |
| GCodeText.DefaultFormatRendering | pcb_drill_common/pcb_drill_gcode.py:26 | the default format renders `G1 X<x> Y<y>` |
| GCodeText.FiveLines | pcb_drill_common/pcb_drill_gcode.py:162-172 | a hole block's three commands take three consecutive labels and its two comments none |
| GCodeText.HolesTextIsText | pcb_drill_common/pcb_drill_gcode.py:162-172 | the loop's text for the first k holes is the text of their blocks, and the counter moves by three per hole |
| GCodeText.HoleBlocksShape | pcb_drill_common/pcb_drill_gcode.py:162-172 | hole i occupies lines 5i to 5i+4 in hole order, and there are exactly three numbered lines per hole |
| GCodeText.HoleBlockAt | pcb_drill_common/pcb_drill_gcode.py:162-172 | the block at 5i is hole i+1's begin comment, coordinate, plunge, retract and end comment |
| GCodeText.HoleBlocksCount | pcb_drill_common/pcb_drill_gcode.py:166-171 | the hole blocks hold exactly 3 numbered lines per hole |
| GCodeText.HoleCoordinateLine | pcb_drill_common/pcb_drill_gcode.py:167 | under the default format the second line of hole i's block is `G1 X<x> Y<y>` with the drill comment |
| GCodeText.NoHoles | pcb_drill_common/pcb_drill_gcode.py:173-174 | an empty hole list gives exactly the single unnumbered "No Drill holes defined" comment |
| GCodeText.UnnumberedOutput | pcb_drill_common/pcb_drill_gcode.py:145-183 | with line numbers off the output is the prefix text, the body and the postfix text, verbatim |
| GCodeText.BodyOrder | pcb_drill_common/pcb_drill_gcode.py:158-178 | the body holds the pre-drill seeks first, then the hole blocks, then the post-drill seeks |
| GCodeText.QuietBody | pcb_drill_common/pcb_drill_gcode.py:156-180 | with empty comment regions the body is the seeks and the hole region alone |
| GCodeText.HolesOnly | pcb_drill_common/pcb_drill_gcode.py:162-172 | with holes and no seeks the body is the hole blocks alone |
| DrillGCode.WriteComment | pcb_drill_common/pcb_drill_gcode.py:89-100 | an empty or `None` comment writes nothing, a quiet inline comment writes nothing, and a standalone one appends `; text\n` |
| DrillGCode.WriteCommand | pcb_drill_common/pcb_drill_gcode.py:102-105 | at the end of a buffer `_command` appends the command, its inline comment and a newline |
| DrillGCode.AppendComment | pcb_drill_common/pcb_drill_gcode.py:89-100 | the buffer grows by the standalone or the inline comment text |
| DrillGCode.AppendCommand | pcb_drill_common/pcb_drill_gcode.py:102-105 | the buffer grows by the command line |
| DrillGCode.CommandOverlay | pcb_drill_common/pcb_drill_gcode.py:37-41 | a command written over a fresh StringIO's initial text continues the overlay |
| DrillGCode.WriteDefaults | pcb_drill_common/pcb_drill_gcode.py:35-48 | the default commands written from position 0 over a fresh buffer's initial text (`""`, or `"None"` for `None`), no longer than the first command line, leave exactly their text with the cursor at its end |
| DrillGCode.DefaultPrefixLines | pcb_drill_common/pcb_drill_gcode.py:35-41 | an empty prefix reads back as five numbered lines: G21, G90, G28 X0 Y0, M42 P23 S255, G1 F3000 |
| DrillGCode.DefaultPostfixLines | pcb_drill_common/pcb_drill_gcode.py:44-48 | an empty postfix reads back as three numbered lines: M42 P23 S0, G28 X0 Y0, G90 |
| DrillGCode.DefaultLines | pcb_drill_common/pcb_drill_gcode.py:35-48 | plain commands are read back as one numbered line each, in order |
| DrillGCode.PcbDrillGCode.constructor | pcb_drill_common/pcb_drill_gcode.py:15-50 | no body yet, default format, empty lists and comment buffers; prefix and postfix become the defaults, the text with `\n` written over its first character, or the text |
| DrillGCode.PcbDrillGCode.SetPrefix | pcb_drill_common/pcb_drill_gcode.py:55-58 | the prefix becomes exactly `value` with the cursor at its end |
| DrillGCode.PcbDrillGCode.SetPostfix | pcb_drill_common/pcb_drill_gcode.py:66-69 | the postfix becomes exactly `value` with the cursor at its end |
| DrillGCode.PcbDrillGCode.Body | pcb_drill_common/pcb_drill_gcode.py:74-79 | `ValueError` with the source's message exactly when `generate` has not run; otherwise the cached body |
| DrillGCode.PcbDrillGCode.SetDrillHoleFormat | pcb_drill_common/pcb_drill_gcode.py:110-113 | the format becomes `value` |
| DrillGCode.PcbDrillGCode.Comment | pcb_drill_common/pcb_drill_gcode.py:81-87 | the comment goes to the prefix comments while no holes are set, otherwise to the postfix comments; the other buffer is unchanged |
| DrillGCode.PcbDrillGCode.DrillHoles | pcb_drill_common/pcb_drill_gcode.py:118-120 | the hole list is replaced wholesale |
| DrillGCode.PcbDrillGCode.SeekPredrillLocation | pcb_drill_common/pcb_drill_gcode.py:122-123 | the location is appended after the earlier ones |
| DrillGCode.PcbDrillGCode.SeekPostdrillLocation | pcb_drill_common/pcb_drill_gcode.py:125-126 | the location is appended after the earlier ones |
| DrillGCode.PcbDrillGCode.CommentsNotEmitted | pcb_drill_common/pcb_drill_gcode.py:81-100 | under the class invariant the comment regions of the document are empty |
| DrillGCode.PcbDrillGCode.Generate | pcb_drill_common/pcb_drill_gcode.py:128-192 | returns the document's text numbered from 1, caches its body, and restores the prefix and postfix buffers and cursors |
| DrillGCode.GenerateTwice | pcb_drill_common/pcb_drill_gcode.py:128-192 | two `generate()` calls with nothing in between return the same text and leave the same body |
| DrillGCode.WriteLineNumber | pcb_drill_common/pcb_drill_gcode.py:140-144 | appends the label `N%03d ` of the counter when numbering is on and advances it; otherwise nothing |
| DrillGCode.WriteArea | pcb_drill_common/pcb_drill_gcode.py:145-150 | appends the area's unread lines, labelling all but `%` and `;` lines, and leaves the area read to its end |
| DrillGCode.WriteSeeks | pcb_drill_common/pcb_drill_gcode.py:158-160 | appends one numbered command per location, in order |
| DrillGCode.WriteHole | pcb_drill_common/pcb_drill_gcode.py:163-172 | appends one hole's five lines and moves the counter by three when numbering is on |
| DrillGCode.WriteHoleLoop | pcb_drill_common/pcb_drill_gcode.py:162-172 | appends every hole's block in order, holes numbered from 1 |
| DrillGCode.WriteHoles | pcb_drill_common/pcb_drill_gcode.py:162-174 | appends the hole region: the blocks, or the "no holes" comment |
| DrillGCode.WriteBody | pcb_drill_common/pcb_drill_gcode.py:156-180 | appends the body lines in order: comments, pre-drill seeks, holes, post-drill seeks, comments |
| DrillGCode.WriteDocument | pcb_drill_common/pcb_drill_gcode.py:152-183 | writes the document of the areas' unread text, and the text between the recorded body start and end is exactly the body |
| DrillGCode.GenerateText | pcb_drill_common/pcb_drill_gcode.py:129-192 | the text is the document's output, the body is the slice between the recorded positions, and the prefix and postfix buffers come back unchanged |
| DrillGCode.ReadBack | pcb_drill_common/pcb_drill_gcode.py:189-190 | seeking to the body's start and reading its length returns exactly the body slice |
| DrillGCode.CalibratePrinter | pcb_drill_common/pcb_drill_gcode.py:195-201 | the output is that of the three calibration holes between the constructor's prefix and postfix |
| DrillGCode.EjectBed | pcb_drill_common/pcb_drill_gcode.py:203-208 | the output is one pre-drill seek to (0, 180) and no holes |
| DrillGCode.RetractBed | pcb_drill_common/pcb_drill_gcode.py:210-215 | the output is one pre-drill seek to (0, 20) and no holes |
| DrillGCode.CalibrateSteps | pcb_drill_common/pcb_drill_gcode.py:198-201 | the preset's calls on its generator produce the calibration layout with empty comment regions |
| DrillGCode.SeekSteps | pcb_drill_common/pcb_drill_gcode.py:206-208 | the bed presets' calls produce one seek line and empty comment regions |
| DrillGCode.GenerateQuiet | pcb_drill_common/pcb_drill_gcode.py:128-192 | under the class invariant `generate()` writes the layout without comments |
| DrillGCode.CalibrateBody | pcb_drill_common/pcb_drill_gcode.py:8 | the calibration body is fifteen lines whose coordinate lines are `G1 X0.0 Y0.0`, `G1 X30.0 Y0.0` and `G1 X0.0 Y20.0`, in that order |
| DrillGCode.BedBody | pcb_drill_common/pcb_drill_gcode.py:207 | a bed preset's body is the seek line `G1 X0 Y<y>` followed by the "no holes" comment |
| Daemon.NameRunStops | pcb_drilld/pcb_drilld.py:245 | the greedy run of `[0-9A-Za-z\._-]+` covers only name characters and stops at the first other one |
| Daemon.MatchNameIsPattern | pcb_drilld/pcb_drilld.py:245 | the matcher (greedy run, then `$`) accepts exactly the names made of name characters with an optional final newline |
| Daemon.BuildFilename | pcb_drilld/pcb_drilld.py:243-252 | `ValueError` exactly when the name fails the pattern; otherwise storage, separator and the name with `.png` added unless it ends in `.png` or `.jpg` |
| Daemon.BuiltPathSafe | pcb_drilld/pcb_drilld.py:245-251 | an accepted path ends in `.png` or `.jpg` in any case, and its file part holds only name characters and a newline only as the last character of the given name, so no `/` |
| Daemon.SuffixKept | pcb_drilld/pcb_drilld.py:248-251 | the suffix survives the directory put in front |
| Daemon.SuffixIdempotent | pcb_drilld/pcb_drilld.py:248-250 | normalising a normalised name changes nothing |
| Daemon.RebuildSame | pcb_drilld/pcb_drilld.py:245-251 | a normalised name that does not end in the newline `$` admits passes the check again and builds the same path (`"board\n"` normalises to `board\n.png`, which fails the check) |
| Daemon.NewlineAdmitted | pcb_drilld/pcb_drilld.py:245 | `"board\n"` is accepted and becomes `board\n.png`, and `board\n.png` itself is refused |
| Daemon.ReplyJoins | pcb_drilld/pcb_drilld.py:237-241 | the reply's `gcode` is its `prefix`, `body` and `postfix` put together |
| Daemon.ReplyBody | pcb_drilld/pcb_drilld.py:235-240 | the reply's body is the hole blocks, or the "no holes" comment, without labels |
| Daemon.GenerateGCode | pcb_drilld/pcb_drilld.py:231-241 | `KeyError` with the file name's repr exactly when no holes are recorded for it; otherwise the reply of the generator with line numbers off |
| Daemon.LookupAndReply | pcb_drilld/pcb_drilld.py:233-241 | after the generator is built: the same error condition and reply |
| Daemon.ReplySteps | pcb_drilld/pcb_drilld.py:235-241 | setting the holes, the second comment and reading the four values give the reply of the holes |
| Daemon.GetRpcMethods | pcb_drilld/pcb_drilld.py:303-309 | the loop's table is the table of the visited attributes |
| Daemon.RegisteredNames | pcb_drilld/pcb_drilld.py:306-309 | a name is registered exactly when some attribute with that name is public and callable |
| Daemon.RegisteredHandler | pcb_drilld/pcb_drilld.py:306-309 | each public callable attribute is registered under its own name with its own handler |
| Daemon.EnvelopeArguments | pcb_drilld/pcb_drilld.py:291-297 | a client envelope `{'command': c}` plus kwargs reaches handler `c` with exactly kwargs; an unknown `c` is a `KeyError` with its repr |
| Daemon.Reported | pcb_drilld/pcb_drilld.py:318-331 | a missing `command`, an unknown command and a handler's `Exception` are each reported as a failure with `str(error)` and the joined trace; a handler's value is a success; the placeholder is sent exactly when the error escapes |
| Daemon.PcbDrillServer.constructor | pcb_drilld/pcb_drilld.py:271-273 | the command table is the registered table of the RPC object |
| Daemon.PcbDrillServer.Execute | pcb_drilld/pcb_drilld.py:291-301 | success with the handler's value and the elapsed time, or the dispatch error |
| Daemon.PcbDrillServer.Serve | pcb_drilld/pcb_drilld.py:319-331 | one pass sends exactly the specified response and goes on exactly when no error escapes |
| Daemon.PcbDrillServer.Run | pcb_drilld/pcb_drilld.py:318-331 | one response per request in order; every pass but the last goes on; the run stops only at the end of the requests or after an escaping error |
| Navigation.Resolve | pcb_drill_web/navigation_menu.py:13-23 | an empty name gets `#` for both name and href; any other name keeps its name and gets the looked-up URL; `ValueError("Unable to locate URL for <name>.")` exactly when that lookup fails |
| Navigation.EmptyNameNeedsNoLookup | pcb_drill_web/navigation_menu.py:14-22 | an empty name's outcome does not depend on the URL lookup |
| Navigation.NavigationMenuItem.Init | pcb_drill_web/navigation_menu.py:23-25 | a new item has the given title and link, is inactive and is a menu item |
| Navigation.NavigationMenuItem.Create | pcb_drill_web/navigation_menu.py:7-25 | the `ValueError` exactly when the lookup fails; otherwise a fresh inactive menu item with the resolved name and href |
| Navigation.NavigationMenu.Init | pcb_drill_web/navigation_menu.py:30-33 | a new menu has the given title and link, no children, is inactive and is not a menu item |
| Navigation.NavigationMenu.Create | pcb_drill_web/navigation_menu.py:30-33 | the same error condition as an item; otherwise a fresh inactive empty menu that is not a menu item |
| Navigation.NavigationMenu.Add | pcb_drill_web/navigation_menu.py:34-37 | iteration then yields the earlier children followed by the new one |
| Navigation.SetChildActive | pcb_drill_web/navigation_menu.py:45-49 | one child's flag becomes whether its title is `t`; the other children's flags and every other field are unchanged |
| Navigation.NavigationMenu.SetActive | pcb_drill_web/navigation_menu.py:38-49 | an own-title match makes the menu active and leaves the children untouched; otherwise the menu is inactive and each direct child is active exactly when its title is `t`; only the flags of the menu and its direct children change |

## Left out

- Python 2 `StringIO` is modelled from its documented behaviour, because it is not part of this repository. The model covers `write` at the cursor with NUL padding, `seek`, `tell`, `read`, `readlines`, `truncate` and `getvalue`.
- StringIO.Truncate: a `size` larger than the text is not modelled as Python 2 does it. Python 2 sets its length counter to `size` while the text stays shorter. The model keeps the text's length. The generator only ever calls `truncate(size=0)`.
- StringIO.Buffer: the text and its length are one value. Python 2's separate `len` counter and its `buflist` of pending writes are not modelled.
- GCodeText.Coord: coordinates are carried as the text `str.format` gives them, because float rendering is library behaviour.
- GCodeText.Format: only the replacement fields `{0}` and `{1}` are rendered. Other fields, `{{` escapes and format specs are copied literally, and a template with too few arguments does not raise.
- The deleters of `prefix`, `postfix` and `drill_hole_format` (pcb_drill_common/pcb_drill_gcode.py:59-61, 70-72, 114-116) only raise `AttributeError`. Dafny objects have no attribute deletion, so there is nothing to model.
- The getters `prefix`, `postfix` and `drill_hole_format` are read-only accessors (`PcbDrillGCode.Prefix`, `PcbDrillGCode.Postfix`, the field `format`) with nothing to state.
- DrillGCode.PcbDrillGCode.DrillHoles stores a copy of the hole list. Python keeps a reference, so a caller who mutates the list afterwards is not modelled.
- DrillGCode.PcbDrillGCode.Generate does not check the hole entries' types. Holes are pairs. A hole with fewer than two entries would raise `IndexError` in Python. A hole with more than two entries would pass, because `hole[0]`, `hole[1]` and `str.format` ignore the extra ones. Neither case is representable here.
- DrillGCode.CalibratePrinter, DrillGCode.EjectBed and DrillGCode.RetractBed take the constructor's keyword arguments as four explicit parameters. Unknown keyword arguments, which would raise `TypeError`, are not modelled.
- Daemon.GenerateGCode takes `self._drill_holes` as a map parameter and `time.ctime()` as the string `now`. The clock is I/O, and that comment never reaches the output anyway.
- Daemon.PcbDrillServer.Execute takes the duration `time.time()` measures as an opaque value `elapsed`, because it is wall-clock time.
- Daemon.PcbDrillServer.Execute removes `command` from a copy of the request. Python deletes it from the caller's dict, which `run` never reads again.
- Daemon.PcbDrillServer.Run models `while True` over a finite sequence of received requests, with one elapsed value per pass, because a method cannot loop forever here.
- Daemon.Handler: RPC methods are modelled as pure functions of their keyword arguments. The state they keep between calls (`_drill_holes`, `_solder_mask`, the camera) is not modelled.
- Daemon.Outcome: failures of `_request()` (receiving and JSON decoding) are an input `Err`. The socket, JSON text, the UTF-8 re-encoding and `_response` are I/O.
- Daemon.ResponseTo takes `traceback.format_exception` as the parameter `trace`, and logging is not modelled.
- PyRuntime.StrRepr renders `repr` of a string as the text in single quotes, without escaping quotes, backslashes or control characters.
- `str()` of a `KeyError` for a float key is modelled by the float's given text.
- The image and camera operations of `PcbDrillRPC` are not modelled. These are `process_solder_mask`, `capture_image`, the calibrations, the preview, `_load_image`, `_crop_image` and `_rotate_image`, and they are foreign library calls and float geometry.
- Daemon set-up (`main`, daemon and pidfile handling, `set_file_permissions`, configuration and argument parsing) and `bind` are OS work and are not modelled.
- Daemon.Sep is `os.path.sep` fixed to `/`, the POSIX value.
- Navigation.UrlFor: `url_for` is a parameter that returns a URL or `None` for a `BuildError`. Any other exception it might raise is not modelled.
- Navigation.Resolve: names are strings. The `or name is None` test at pcb_drill_web/navigation_menu.py:14 adds nothing for strings, and a `None` name is not modelled.
- Navigation.NavigationMenu.Create models the menu constructor's own assignments (`menu = []`, then `is_menu_item = False`) by their final values. The item constructor's intermediate `is_menu_item = True` is not visible to any caller.
- Navigation.NavigationMenu.Iter returns the child list. The Python iterator object itself, and a list mutated during iteration, are not modelled.
- Flask routing, templates and sessions of the web application are not modelled, apart from the navigation menu.
