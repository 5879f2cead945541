/** The request side of the `pcb_drilld` daemon: the image file name check,
    the `generate_gcode` command, the command table built from the RPC
    object, and what one pass of the server loop does with a request.
    Requests and responses are already-decoded JSON values; the socket,
    the JSON text and the clock are outside the model. */
module Daemon {
  import opened PyRuntime
  import opened Strings
  import opened GCodeText
  import opened DrillGCode

  // ----- image file names -----

  /** `os.path.sep` on the POSIX systems the daemon runs on. */
  const Sep: string := "/"

  const BadFilename: string := "Filename has characters outside of A-Za-z-_."

  /** The characters of the class `[0-9A-Za-z\._-]`. */
  predicate IsNameChar(c: char)
  {
    '0' <= c <= '9' || 'A' <= c <= 'Z' || 'a' <= c <= 'z' || c == '.' || c == '_' || c == '-'
  }

  /** What `^[0-9A-Za-z\._-]+$` accepts: one or more name characters, then
      either the end or a single newline at the very end, which `$` lets through. */
  predicate NamePattern(s: string)
  {
    || (|s| >= 1 && forall i :: 0 <= i < |s| ==> IsNameChar(s[i]))
    || (|s| >= 2 && s[|s| - 1] == '\n' && forall i :: 0 <= i < |s| - 1 ==> IsNameChar(s[i]))
  }

  /** How far `[0-9A-Za-z\._-]+` runs from the start of `s`. */
  function NameRun(s: string): nat
  {
    if s == [] || !IsNameChar(s[0]) then 0 else 1 + NameRun(s[1..])
  }

  /** `re.match` on the pattern as the matcher runs it: the greedy run, then `$`.
      Backing off the run never helps, because `$` needs the end or a final
      newline and a name character is neither. */
  predicate MatchName(s: string)
  {
    var k := NameRun(s);
    k >= 1 && (k == |s| || (k == |s| - 1 && s[|s| - 1] == '\n'))
  }

  /** The run covers only name characters and stops at the first other one. */
  lemma {:induction false} NameRunStops(s: string)
    ensures NameRun(s) <= |s|
    ensures forall i :: 0 <= i < NameRun(s) ==> IsNameChar(s[i])
    ensures NameRun(s) < |s| ==> !IsNameChar(s[NameRun(s)])
  {
    if s != [] && IsNameChar(s[0]) {
      NameRunStops(s[1..]);
      forall i | 0 <= i < NameRun(s)
        ensures IsNameChar(s[i])
      {
        if i > 0 {
          assert s[i] == s[1..][i - 1];
        }
      }
    }
  }

  /** The matcher accepts exactly the names the pattern describes. */
  lemma MatchNameIsPattern(s: string)
    ensures MatchName(s) <==> NamePattern(s)
  {
    NameRunStops(s);
    if NamePattern(s) && !(|s| >= 1 && forall i :: 0 <= i < |s| ==> IsNameChar(s[i])) {
      assert !IsNameChar(s[|s| - 1]);
      assert IsNameChar(s[0]);
    }
  }

  predicate HasImageSuffix(name: string)
  {
    EndsWith(Lower(name), ".png") || EndsWith(Lower(name), ".jpg")
  }

  /** The name with `.png` added unless it already ends in `.png` or `.jpg`, in any case. */
  function WithImageSuffix(name: string): string
  {
    if HasImageSuffix(name) then name else name + ".png"
  }

  /** `_build_filename(base_filename)` with `self._image_storage` passed as `storage`. */
  function BuildFilename(storage: string, baseFilename: string): (r: Result<string>)
    ensures r.Err? <==> !NamePattern(baseFilename)
    ensures r.Err? ==> r.error == Error(ValueError, BadFilename)
    ensures r.Ok? ==> r.value == storage + Sep + WithImageSuffix(baseFilename)
  {
    MatchNameIsPattern(baseFilename);
    if !MatchName(baseFilename) then Err(Error(ValueError, BadFilename))
    else Ok(storage + Sep + WithImageSuffix(baseFilename))
  }

  /** A built path ends in `.png` or `.jpg`, in any case, and its file part holds
      only name characters and at most the final newline of the given name: no separator. */
  lemma BuiltPathSafe(storage: string, baseFilename: string)
    ensures var r := BuildFilename(storage, baseFilename);
            r.Ok? ==> HasImageSuffix(r.value)
                      && (forall c :: c in WithImageSuffix(baseFilename) ==> IsNameChar(c) || c == '\n')
                      && forall i :: 0 <= i < |WithImageSuffix(baseFilename)| && WithImageSuffix(baseFilename)[i] == '\n' ==>
                           i == |baseFilename| - 1
  {
    if NamePattern(baseFilename) {
      SuffixKept(storage + Sep, baseFilename);
      SuffixChars(baseFilename);
    }
  }

  /** The file part of an accepted name holds name characters and at most the
      newline that ended the name. */
  lemma SuffixChars(name: string)
    requires NamePattern(name)
    ensures forall c :: c in WithImageSuffix(name) ==> IsNameChar(c) || c == '\n'
    ensures forall i :: 0 <= i < |WithImageSuffix(name)| && WithImageSuffix(name)[i] == '\n' ==> i == |name| - 1
  {
    var w := WithImageSuffix(name);
    forall i | 0 <= i < |w|
      ensures IsNameChar(w[i]) || (w[i] == '\n' && i == |name| - 1)
    {
      if i >= |name| {
        assert w[i] in ".png";
      }
    }
  }

  lemma LowerAppend(a: string, b: string)
    ensures Lower(a + b) == Lower(a) + Lower(b)
  {
  }

  /** The suffix check looks only at the end, so a directory in front changes nothing. */
  lemma SuffixKept(front: string, name: string)
    ensures HasImageSuffix(front + WithImageSuffix(name))
  {
    var w := WithImageSuffix(name);
    LowerAppend(front, w);
    if !HasImageSuffix(name) {
      LowerAppend(name, ".png");
      assert Lower(".png") == ".png";
    }
    var lw := Lower(w);
    var all := Lower(front) + lw;
    assert all[|all| - 4..] == lw[|lw| - 4..];
  }

  /** Adding the suffix twice adds it once. */
  lemma SuffixIdempotent(name: string)
    ensures WithImageSuffix(WithImageSuffix(name)) == WithImageSuffix(name)
  {
    SuffixKept([], name);
    assert [] + WithImageSuffix(name) == WithImageSuffix(name);
  }

  /** Building from a name `_build_filename` already normalised gives the same path,
      as long as the name did not end in the newline `$` admits. */
  lemma RebuildSame(storage: string, name: string)
    requires NamePattern(name) && name[|name| - 1] != '\n'
    ensures NamePattern(WithImageSuffix(name))
    ensures BuildFilename(storage, WithImageSuffix(name)) == BuildFilename(storage, name)
  {
    var w := WithImageSuffix(name);
    SuffixIdempotent(name);
    forall i | 0 <= i < |w|
      ensures IsNameChar(w[i])
    {
      if i >= |name| {
        assert w[i] in ".png";
      }
    }
  }

  /** The newline that `$` admits reaches the path: `"board\n"` is stored as
      `board\n.png`, a name the check then refuses. */
  lemma NewlineAdmitted(storage: string)
    ensures BuildFilename(storage, "board\n") == Ok(storage + Sep + "board\n.png")
    ensures BuildFilename(storage, "board\n.png").Err?
  {
    assert !IsNameChar("board\n.png"[5]);
    var s := "board\n";
    assert forall i :: 0 <= i < |s| - 1 ==> IsNameChar(s[i]);
    assert NamePattern(s);
    assert Lower(s) == s;
    assert !HasImageSuffix(s);
    assert s + ".png" == "board\n.png";
  }

  // ----- generate_gcode -----

  /** The mapping `generate_gcode` returns. */
  datatype GCodeReply = GCodeReply(prefix: string, postfix: string, body: string, gcode: string)

  /** What a generator with line numbers off and verbose comments on produces
      for `holes` from the prefix text `p` and the postfix text `q`: the two
      texts, the body and the whole text. */
  function Reply(p: string, q: string, holes: seq<Coord>): GCodeReply
  {
    var d := Layout(p, "", [], holes, [], "", q, DefaultFormat, true);
    GCodeReply(p, q, BodyText(d, false), Output(d, false))
  }

  /** The reply's text is its prefix, body and postfix put together. */
  lemma ReplyJoins(p: string, q: string, holes: seq<Coord>)
    ensures var r := Reply(p, q, holes);
            r.gcode == r.prefix + r.body + r.postfix
  {
    UnnumberedOutput(p, "", [], holes, [], "", q, DefaultFormat, true);
  }

  /** The reply's body is the hole blocks, or the "no holes" comment, without labels. */
  lemma ReplyBody(p: string, q: string, holes: seq<Coord>)
    ensures Reply(p, q, holes).body == Concat(Texts(HoleRegion(holes, DefaultFormat, true)))
  {
    var d := Layout(p, "", [], holes, [], "", q, DefaultFormat, true);
    OnlyHoleRegion(holes);
    TextUnnumbered(d.body, 1 + Advance(d.prefix, false));
  }

  lemma OnlyHoleRegion(holes: seq<Coord>)
    ensures BodyLines("", [], holes, [], "", DefaultFormat, true) == HoleRegion(holes, DefaultFormat, true)
  {
    QuietBody([], holes, [], DefaultFormat, true);
    var r := HoleRegion(holes, DefaultFormat, true);
    assert SeekLines([], DefaultFormat, PreDrillComment, true) == [];
    assert SeekLines([], DefaultFormat, PostDrillComment, true) == [];
    assert [] + r + [] == r;
  }

  /** `generate_gcode(filename, prefix, postfix)`: `drillHoles` is the RPC object's
      `_drill_holes` table and `now` the text of `time.ctime()`. */
  method GenerateGCode(drillHoles: map<string, seq<Coord>>, filename: string, prefix: Option<string>,
                       postfix: Option<string>, now: string)
    returns (r: Result<GCodeReply>)
    ensures r.Err? <==> filename !in drillHoles
    ensures r.Err? ==> r.error == MissingKey(StrRepr(filename))
    ensures r.Ok? ==> r.value == Reply(InitialBuffer(prefix, DefaultPrefix, true).text,
                                       InitialBuffer(postfix, DefaultPostfix, true).text, drillHoles[filename])
  {
    var generator := new PcbDrillGCode(prefix, postfix, false, true);
    r := LookupAndReply(generator, drillHoles, filename, now);
  }

  /** `generate_gcode` after the generator is made: the first comment, the
      lookup that raises `KeyError`, then the reply. */
  method LookupAndReply(generator: PcbDrillGCode, drillHoles: map<string, seq<Coord>>, filename: string, now: string)
    returns (r: Result<GCodeReply>)
    requires generator.Valid() && !generator.lineNumbers && generator.verboseComments
    requires generator.format == DefaultFormat && generator.holes == []
    requires generator.predrillLocations == [] && generator.postdrillLocations == []
    modifies generator
    ensures r.Err? <==> filename !in drillHoles
    ensures r.Err? ==> r.error == MissingKey(StrRepr(filename))
    ensures r.Ok? ==> r.value == Reply(old(generator.prefixBuf).text, old(generator.postfixBuf).text, drillHoles[filename])
  {
    generator.Comment(Some("Generated from pcb_drilld daemon at " + now));
    if filename !in drillHoles {
      return Err(MissingKey(StrRepr(filename)));
    }
    var holes := drillHoles[filename];
    var reply := ReplySteps(generator, holes);
    r := Ok(reply);
  }

  /** The rest of `generate_gcode` once the holes are found: they are set, a second
      comment is made, and the prefix, postfix, text and body are read off. */
  method ReplySteps(generator: PcbDrillGCode, holes: seq<Coord>) returns (reply: GCodeReply)
    requires generator.Valid() && !generator.lineNumbers && generator.verboseComments
    requires generator.format == DefaultFormat
    requires generator.predrillLocations == [] && generator.postdrillLocations == []
    modifies generator
    ensures reply == Reply(old(generator.prefixBuf).text, old(generator.postfixBuf).text, holes)
  {
    ghost var p, q := generator.prefixBuf.text, generator.postfixBuf.text;
    generator.DrillHoles(holes);
    generator.Comment(Some("Processed " + Decimal(|holes|) + " drill holes"));
    assert generator.prefixBuf.text == p && generator.postfixBuf.text == q;
    var prefixText := generator.Prefix();
    var postfixText := generator.Postfix();
    generator.CommentsNotEmitted(p, [], holes, [], q, DefaultFormat, true);
    var gcode := generator.Generate();
    var body := generator.Body();
    reply := GCodeReply(prefixText, postfixText, body.value, gcode);
  }

  // ----- the command table -----

  /** A decoded JSON value. A float is carried as the text `repr` gives it. */
  datatype Value =
    | VNone
    | VBool(b: bool)
    | VInt(i: int)
    | VFloat(text: string)
    | VStr(s: string)
    | VList(items: seq<Value>)
    | VDict(entries: map<string, Value>)

  type Request = map<string, Value>

  /** An RPC method called with keyword arguments: it returns a value or raises. */
  type Handler = Request -> Result<Value>

  /** What `getattr(rpc, name)` gives for one name `dir(rpc)` lists. */
  datatype Member = Callable(handler: Handler) | NotCallable

  datatype Attribute = Attribute(name: string, member: Member)

  /** The attributes `_get_rpc_methods` registers: public and callable. */
  predicate Public(a: Attribute)
  {
    !StartsWith(a.name, "_") && a.member.Callable?
  }

  /** The table after the attributes have been visited in order. */
  function Registered(attributes: seq<Attribute>): map<string, Handler>
  {
    if attributes == [] then map[]
    else
      var a := attributes[|attributes| - 1];
      var m := Registered(attributes[..|attributes| - 1]);
      if Public(a) then m[a.name := a.member.handler] else m
  }

  /** `_get_rpc_methods(rpc)`, given the attributes in the order `dir(rpc)` lists them. */
  method GetRpcMethods(attributes: seq<Attribute>) returns (methods: map<string, Handler>)
    ensures methods == Registered(attributes)
  {
    methods := map[];
    for i := 0 to |attributes|
      invariant methods == Registered(attributes[..i])
    {
      var a := attributes[i];
      assert attributes[..i + 1][..i] == attributes[..i];
      if !StartsWith(a.name, "_") && a.member.Callable? {
        methods := methods[a.name := a.member.handler];
      }
    }
    assert attributes[..|attributes|] == attributes;
  }

  /** A name is in the table exactly when some public callable attribute has it. */
  lemma {:induction false} RegisteredNames(attributes: seq<Attribute>, name: string)
    ensures name in Registered(attributes)
        <==> exists i :: 0 <= i < |attributes| && attributes[i].name == name && Public(attributes[i])
  {
    if attributes != [] {
      var init := attributes[..|attributes| - 1];
      RegisteredNames(init, name);
      if exists i :: 0 <= i < |init| && init[i].name == name && Public(init[i]) {
        var i :| 0 <= i < |init| && init[i].name == name && Public(init[i]);
        assert attributes[i] == init[i];
      }
      if exists i :: 0 <= i < |attributes| && attributes[i].name == name && Public(attributes[i]) {
        var i :| 0 <= i < |attributes| && attributes[i].name == name && Public(attributes[i]);
        if i < |init| {
          assert init[i] == attributes[i];
        }
      }
    }
  }

  /** `dir()` lists every name once. */
  predicate DistinctNames(attributes: seq<Attribute>)
  {
    forall i, j :: 0 <= i < j < |attributes| ==> attributes[i].name != attributes[j].name
  }

  /** Each public callable attribute is registered under its own name. */
  lemma {:induction false} RegisteredHandler(attributes: seq<Attribute>, i: nat)
    requires DistinctNames(attributes)
    requires i < |attributes| && Public(attributes[i])
    ensures attributes[i].name in Registered(attributes)
    ensures Registered(attributes)[attributes[i].name] == attributes[i].member.handler
  {
    var init := attributes[..|attributes| - 1];
    if i < |init| {
      assert init[i] == attributes[i];
      assert DistinctNames(init) by {
        forall j, k | 0 <= j < k < |init|
          ensures init[j].name != init[k].name
        {
          assert init[j] == attributes[j] && init[k] == attributes[k];
        }
      }
      RegisteredHandler(init, i);
      assert attributes[|attributes| - 1].name != attributes[i].name;
    }
  }

  // ----- requests and responses -----

  /** The request the client sends for `client(command, **kwargs)`:
      `{'command': command}` updated with the keyword arguments. */
  function Envelope(command: string, kwargs: Request): Request
  {
    map["command" := VStr(command)] + kwargs
  }

  /** `repr(i)` */
  function IntRepr(i: int): string
  {
    if i < 0 then "-" + Decimal(-i) else Decimal(i)
  }

  /** The error a lookup of `key` in the command table raises when it fails: a
      `KeyError` carrying the key's `repr`, or a `TypeError` for an unhashable key. */
  function LookupError(key: Value): Error
  {
    match key
    case VNone => MissingKey("None")
    case VBool(b) => MissingKey(if b then "True" else "False")
    case VInt(i) => MissingKey(IntRepr(i))
    case VFloat(t) => MissingKey(t)
    case VStr(s) => MissingKey(StrRepr(s))
    case VList(_) => Error(TypeError, "unhashable type: 'list'")
    case VDict(_) => Error(TypeError, "unhashable type: 'dict'")
  }

  /** What `_execute` gets from the handler: its return value, the handler's own
      error, or the error of a request without `command` or with an unknown one.
      The handler is called with every entry except `command`. */
  function Dispatch(methods: map<string, Handler>, request: Request): Result<Value>
  {
    if "command" !in request then Err(MissingKey(StrRepr("command")))
    else
      var command := request["command"];
      if command.VStr? && command.s in methods then methods[command.s](request - {"command"})
      else Err(LookupError(command))
  }

  /** A client envelope reaches the handler with exactly the client's keyword arguments. */
  lemma EnvelopeArguments(methods: map<string, Handler>, command: string, kwargs: Request)
    requires "command" !in kwargs
    ensures "command" in Envelope(command, kwargs)
    ensures Envelope(command, kwargs) - {"command"} == kwargs
    ensures command in methods ==> Dispatch(methods, Envelope(command, kwargs)) == methods[command](kwargs)
    ensures command !in methods ==> Dispatch(methods, Envelope(command, kwargs)) == Err(MissingKey(StrRepr(command)))
  {
    var e := Envelope(command, kwargs);
    assert e["command"] == VStr(command);
    assert e - {"command"} == kwargs;
  }

  /** The three responses `run` sends. */
  datatype Response =
    | Success(output: Value, time: Value)     // {'success': True, 'output': ..., 'time': ...}
    | Failure(error: string, exception: string) // {'success': False, 'error': ..., 'exception': ...}
    | PrematureExit                           // {'error': 'premature exit'}

  /** The outcome of one pass: a receive or decoding failure of `_request()`, or what dispatching gives. */
  function Outcome(methods: map<string, Handler>, received: Result<Request>): Result<Value>
  {
    match received
    case Err(e) => Err(e)
    case Ok(request) => Dispatch(methods, request)
  }

  /** Whether an error that `except Exception` does not catch leaves `run`. */
  predicate Escapes(methods: map<string, Handler>, received: Result<Request>)
  {
    Outcome(methods, received).Err? && !IsException(Outcome(methods, received).error)
  }

  /** The response one pass sends: `elapsed` is the duration `_execute` measures
      and `trace` the lines `traceback.format_exception` gives for an error. */
  function ResponseTo(methods: map<string, Handler>, received: Result<Request>, elapsed: Value,
                      trace: Error -> seq<string>): Response
  {
    match Outcome(methods, received)
    case Ok(v) => Success(v, elapsed)
    case Err(e) => if IsException(e) then Failure(e.message, Join(trace(e), "!! ")) else PrematureExit
  }

  /** Every failure that is an `Exception` is reported with its `str()`: a request
      without `command`, an unknown command and a handler's own error; a success
      carries the handler's value; only an escaping error leaves the placeholder. */
  lemma Reported(methods: map<string, Handler>, command: string, kwargs: Request, elapsed: Value,
                 trace: Error -> seq<string>)
    requires "command" !in kwargs
    ensures var t := ResponseTo(methods, Ok(kwargs), elapsed, trace);
            t == Failure("'command'", Join(trace(MissingKey("'command'")), "!! "))
    ensures var t := ResponseTo(methods, Ok(Envelope(command, kwargs)), elapsed, trace);
            command !in methods ==> t == Failure(StrRepr(command), Join(trace(MissingKey(StrRepr(command))), "!! "))
    ensures var t := ResponseTo(methods, Ok(Envelope(command, kwargs)), elapsed, trace);
            command in methods ==>
              match methods[command](kwargs)
              case Ok(v) => t == Success(v, elapsed)
              case Err(e) => t == (if IsException(e) then Failure(e.message, Join(trace(e), "!! ")) else PrematureExit)
    ensures forall received :: ResponseTo(methods, received, elapsed, trace) == PrematureExit
                           <==> Escapes(methods, received)
  {
    assert StrRepr("command") == "'command'";
    EnvelopeArguments(methods, command, kwargs);
  }

  /** `PcbDrillServer`: the command table built once from the RPC object. */
  class PcbDrillServer {
    const methods: map<string, Handler>

    /** `__init__(rpc)`, given the attributes of `rpc` in `dir()` order; the socket is not modelled. */
    constructor (rpc: seq<Attribute>)
      ensures methods == Registered(rpc)
    {
      var table := GetRpcMethods(rpc);
      methods := table;
    }

    /** `_execute(request)`: `command` is taken out and the rest passed as keyword arguments. */
    method Execute(request: Request, elapsed: Value) returns (r: Result<Response>)
      ensures Dispatch(methods, request).Ok? ==> r == Ok(Success(Dispatch(methods, request).value, elapsed))
      ensures Dispatch(methods, request).Err? ==> r == Err(Dispatch(methods, request).error)
    {
      if "command" !in request {
        return Err(MissingKey(StrRepr("command")));
      }
      var command := request["command"];
      var kwargs := request - {"command"};
      if !(command.VStr? && command.s in methods) {
        return Err(LookupError(command));
      }
      var output := methods[command.s](kwargs);
      match output
      case Ok(v) => r := Ok(Success(v, elapsed));
      case Err(e) => r := Err(e);
    }

    /** One pass of `run`'s loop: the response starts as the placeholder, becomes
        the `_execute` result or the failure report, and is sent in any case;
        `continues` is false when an error that is not an `Exception` leaves `run`. */
    method Serve(received: Result<Request>, elapsed: Value, trace: Error -> seq<string>)
      returns (response: Response, continues: bool)
      ensures response == ResponseTo(methods, received, elapsed, trace)
      ensures continues <==> !Escapes(methods, received)
    {
      response := PrematureExit;
      var outcome: Result<Response>;
      match received {
        case Err(e) => outcome := Err(e);
        case Ok(request) => outcome := Execute(request, elapsed);
      }
      match outcome {
        case Ok(r) =>
          response := r;
          continues := true;
        case Err(e) =>
          if IsException(e) {
            response := Failure(e.message, Join(trace(e), "!! "));
            continues := true;
          } else {
            continues := false;
          }
      }
    }

    /** `run()` over a finite run of received requests: one response per request,
        in order, until an escaping error ends the loop after its own response. */
    method Run(received: seq<Result<Request>>, elapsed: nat -> Value, trace: Error -> seq<string>)
      returns (responses: seq<Response>)
      ensures |responses| <= |received|
      ensures forall i :: 0 <= i < |responses| ==> responses[i] == ResponseTo(methods, received[i], elapsed(i), trace)
      ensures forall i :: 0 <= i < |responses| - 1 ==> !Escapes(methods, received[i])
      ensures |responses| == |received| || (|responses| > 0 && Escapes(methods, received[|responses| - 1]))
    {
      responses := [];
      var going := true;
      var i := 0;
      while i < |received| && going
        invariant 0 <= i <= |received| && |responses| == i
        invariant forall k :: 0 <= k < i ==> responses[k] == ResponseTo(methods, received[k], elapsed(k), trace)
        invariant going ==> forall k :: 0 <= k < i ==> !Escapes(methods, received[k])
        invariant !going ==> 0 < i && Escapes(methods, received[i - 1])
        invariant !going ==> forall k :: 0 <= k < i - 1 ==> !Escapes(methods, received[k])
      {
        var response, continues := Serve(received[i], elapsed(i), trace);
        responses := responses + [response];
        assert responses[i] == response;
        going := continues;
        i := i + 1;
      }
    }
  }
}
