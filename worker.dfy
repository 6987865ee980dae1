/**
 * The worker's read-dispatch-respond loop (`main` in the Python backend): every
 * line read from stdin is decoded, dispatched on its `command` field, and
 * answered with exactly one response object; an empty read ends the loop.
 *
 * Decoding, the file system and the processors are abstract. A line's decoding
 * is a `Decoded` value, and the facts the dispatcher consults while handling a
 * line (whether the path exists, what the processors and the file handler
 * returned or raised, what the history file holds) form the line's `Env`.
 */
module Worker {
  import opened Wrappers
  import opened Json
  import ImageProcessing

  /** `json.loads(line)`: a value, or the text of the `JSONDecodeError`. */
  datatype Decoded = Invalid(message: string) | Value(data: Json)

  /** What `GifProcessor.process_and_convert` returns. */
  datatype Gif = Gif(frames: seq<string>, delays: seq<int>, frameCount: int)

  /** What the `get_history` branch finds. */
  datatype HistoryRead =
    | NoHistoryFile
    | ReadFailed(reason: string)
    | Loaded(content: Json)

  /** The outside facts consulted while one line is handled. */
  datatype Env = Env(
    pathExists: bool,               // os.path.exists(path), for a string or an integer path
    nonStringPathError: string,     // what the path checks raise for a path that is not a string
    image: Result<string>,          // ImageProcessor.process_and_convert
    gif: Result<Gif>,               // GifProcessor.process_and_convert
    savedText: Result<string>,      // FileHandler.save_ascii_text: the file path written
    savedHtml: Result<string>,      // FileHandler.save_ascii_html: the file path written
    history: HistoryRead)

  /** One `sys.stdin.readline()`: the text read ("" at end of input) and the facts met handling it. */
  datatype Read = Read(line: string, env: Env)

  /** A response object, as printed by `json.dumps`; `ErrorText` gives an error's `error` field. */
  datatype Response =
    | Pong                                  // {"status": "success", "message": "Pong from Python!"}
    | AsciiResult(ascii: string)            // {"status": "success", "type": "ascii-result", "ascii": ..., "isGif": false}
    | GifResult(frames: seq<string>, delays: seq<int>, frameCount: int)
                                            // {"status": "success", "type": "gif-result", "frames", "delays", "frameCount"}
    | SavedTo(filepath: string)             // {"status": "success", "message": "Saved to ...", "filepath": ...}
    | HistoryList(history: Json)            // {"status": "success", "history": ...}
    | InvalidJson(message: string)
    | UnexpectedError(message: string)
    | NoFilePath
    | FileNotFound(path: string)
    | ConversionFailed(message: string)
    | SaveFailed(message: string)
    | HistoryLoadFailed(message: string)
    | UnknownCommand(command: Option<Json>)

  /** The response's `status` field. */
  function Status(r: Response): (status: string)
    ensures status == "success" <==> r.Pong? || r.AsciiResult? || r.GifResult? || r.SavedTo? || r.HistoryList?
    ensures status == "success" || status == "error"
  {
    match r
    case Pong => "success"
    case AsciiResult(_) => "success"
    case GifResult(_, _, _) => "success"
    case SavedTo(_) => "success"
    case HistoryList(_) => "success"
    case _ => "error"
  }

  const PongMessage: string := "Pong from Python!"

  /** Python's truth value of a decoded JSON value. */
  predicate PyTruthy(j: Json) {
    match j
    case Null => false
    case Bool(b) => b
    case Number(n) => n != 0
    case Str(s) => s != ""
    case Arr(items) => items != []
    case Obj(fields) => fields != []
  }

  /** `type(j).__name__` of a decoded JSON value. */
  function PyTypeName(j: Json): string {
    match j
    case Null => "NoneType"
    case Bool(_) => "bool"
    case Number(_) => "int"
    case Str(_) => "str"
    case Arr(_) => "list"
    case Obj(_) => "dict"
  }

  function DigitChar(d: nat): char
    requires d < 10
  {
    "0123456789"[d]
  }

  function Digits(n: nat): string
    decreases n
  {
    if n < 10 then [DigitChar(n)] else Digits(n / 10) + [DigitChar(n % 10)]
  }

  /** `str(n)` of an integer. */
  function Decimal(n: int): string {
    if n < 0 then "-" + Digits(-n) else Digits(n)
  }

  /** `str(j)` for a scalar JSON value; a list or an object has no text here. */
  function ScalarText(j: Json): (t: Option<string>)
    ensures t.Some? <==> !j.Arr? && !j.Obj?
    ensures j.Str? ==> t == Some(j.s)
  {
    match j
    case Null => Some("None")
    case Bool(b) => Some(if b then "True" else "False")
    case Number(n) => Some(Decimal(n))
    case Str(s) => Some(s)
    case _ => None
  }

  /** `str(command)`, `None` for an absent field. */
  function CommandText(command: Option<Json>): Option<string> {
    match command
    case None => Some("None")
    case Some(j) => ScalarText(j)
  }

  /** The response's `error` field, for an error whose text is modelled. */
  function ErrorText(r: Response): (e: Option<string>)
    ensures e.Some? ==> Status(r) == "error"
    ensures Status(r) == "error" && !r.UnknownCommand? ==> e.Some?
  {
    match r
    case InvalidJson(message) => Some("Invalid JSON: " + message)
    case UnexpectedError(message) => Some("Unexpected error: " + message)
    case NoFilePath => Some("No file path provided")
    case FileNotFound(path) => Some("File not found: " + path)
    case ConversionFailed(message) => Some("Conversion failed: " + message)
    case SaveFailed(message) => Some("Save failed: " + message)
    case HistoryLoadFailed(message) => Some("History load failed: " + message)
    case UnknownCommand(command) =>
      (match CommandText(command)
       case Some(t) => Some("Unknown command: " + t)
       case None => None)
    case _ => None
  }

  /** A command named by a string is reported by that name. */
  lemma UnknownCommandText(name: string)
    ensures ErrorText(UnknownCommand(Some(Str(name)))) == Some("Unknown command: " + name)
    ensures ErrorText(UnknownCommand(None)) == Some("Unknown command: None")
  {
    assert "Unknown command: " + "None" == "Unknown command: None";
  }

  /** The success message of a save. */
  function SavedMessage(filepath: string): string {
    "Saved to " + filepath
  }

  /** `s.rfind(c)`: the last position holding `c`, or -1. */
  function LastIndex(s: string, c: char): (r: int)
    ensures -1 <= r < |s|
    ensures r >= 0 ==> s[r] == c
    ensures forall k :: r < k < |s| ==> s[k] != c
  {
    if s == [] then -1
    else if s[|s| - 1] == c then |s| - 1
    else LastIndex(s[..|s| - 1], c)
  }

  /**
   * `os.path.splitext(path)[1]` with Windows separators (`\` and `/`): the
   * text from the last dot of the last path component, unless that component
   * is only dots before it (a name like `.gif` has no extension).
   */
  function Extension(p: string): (ext: string)
    ensures ext == [] || (|ext| <= |p| && ext == p[|p| - |ext|..] && ext[0] == '.')
    ensures forall k :: 0 < k < |ext| ==> ext[k] != '.' && ext[k] != '/' && ext[k] != '\\'
  {
    var back := LastIndex(p, '\\');
    var slash := LastIndex(p, '/');
    var sepIndex := if back > slash then back else slash;
    var dotIndex := LastIndex(p, '.');
    if dotIndex > sepIndex && exists k :: sepIndex < k < dotIndex && p[k] != '.' then p[dotIndex..]
    else []
  }

  function LowerAscii(c: char): char {
    if 'A' <= c <= 'Z' then (c as int + 32) as char else c
  }

  /**
   * `ext.lower() == '.gif'`. Only `G`, `I` and `F` lower to `g`, `i` and `f`,
   * so ASCII lowering decides the comparison exactly.
   */
  predicate IsGifExtension(ext: string) {
    |ext| == 4 && ext[0] == '.' && LowerAscii(ext[1]) == 'g' && LowerAscii(ext[2]) == 'i' && LowerAscii(ext[3]) == 'f'
  }

  /**
   * The `convert` branch. An integer path (a boolean is one too) is accepted
   * by `os.path.exists` as a file descriptor, so it can be "not found"; if it
   * exists, `splitext` raises. A list or an object makes `exists` raise.
   */
  function ConvertResponse(data: seq<(string, Json)>, env: Env): Response {
    var path := Get(data, "path");
    if path.None? || !PyTruthy(path.value) then NoFilePath
    else if path.value.Arr? || path.value.Obj? then ConversionFailed(env.nonStringPathError)
    else if !env.pathExists then FileNotFound(ScalarText(path.value).value)
    else if !path.value.Str? then ConversionFailed(env.nonStringPathError)
    else if IsGifExtension(Extension(path.value.s)) then
      match env.gif
      case Ok(g) => GifResult(g.frames, g.delays, g.frameCount)
      case Err(e) => ConversionFailed(e)
    else
      match env.image
      case Ok(ascii) => AsciiResult(ascii)
      case Err(e) => ConversionFailed(e)
  }

  /** The `save` branch: `format` `'html'` writes HTML, any other value or none writes text. */
  function SaveResponse(data: seq<(string, Json)>, env: Env): Response {
    var saved := if Get(data, "format") == Some(Str("html")) then env.savedHtml else env.savedText;
    match saved
    case Ok(filepath) => SavedTo(filepath)
    case Err(e) => SaveFailed(e)
  }

  /** The `TypeError` of `len(j)` for a value without a length. */
  function NoLenMessage(j: Json): string {
    "object of type '" + PyTypeName(j) + "' has no len()"
  }

  /** The `AttributeError` of `j.get` for a value that is not an object. */
  function NoGetMessage(j: Json): string {
    "'" + PyTypeName(j) + "' object has no attribute 'get'"
  }

  /** The `get_history` branch; logging `len(history)` raises for a number, a boolean or `null`. */
  function HistoryResponse(env: Env): Response {
    match env.history
    case NoHistoryFile => HistoryList(Arr([]))
    case ReadFailed(reason) => HistoryLoadFailed(reason)
    case Loaded(content) =>
      if content.Null? || content.Bool? || content.Number? then HistoryLoadFailed(NoLenMessage(content))
      else HistoryList(content)
  }

  /** An options field read as an integer: `Some(None)` when absent, `None` when of another type. */
  function IntOption(fields: seq<(string, Json)>, key: string): Option<Option<int>> {
    match Get(fields, key)
    case None => Some(None)
    case Some(Number(n)) => Some(Some(n))
    case Some(_) => None
  }

  /**
   * An options field read as a flag: `Some(None)` when absent or `null`,
   * `None` when of another type. The pipeline only tests a flag's truth, and
   * `None` is as false as the default `False`.
   */
  function BoolOption(fields: seq<(string, Json)>, key: string): Option<Option<bool>> {
    match Get(fields, key)
    case None => Some(None)
    case Some(Null) => Some(None)
    case Some(Bool(b)) => Some(Some(b))
    case Some(_) => None
  }

  /**
   * An options field read as a string: `Some(None)` when absent or `null`,
   * `None` when of another type. A `None` ratio is `resize_image`'s own
   * default, and `CHARSETS.get(None, ...)` falls back to `'detailed'`.
   */
  function StringOption(fields: seq<(string, Json)>, key: string): Option<Option<string>> {
    match Get(fields, key)
    case None => Some(None)
    case Some(Null) => Some(None)
    case Some(Str(t)) => Some(Some(t))
    case Some(_) => None
  }

  /** The object has no field `key` for `None`, and the integer `n` there for `Some(n)`. */
  predicate HoldsInt(fields: seq<(string, Json)>, key: string, x: Option<int>) {
    if x.Some? then Get(fields, key) == Some(Number(x.value)) else Get(fields, key).None?
  }

  /** The object has no field `key`, or a `null` one, for `None`, and the boolean `b` there for `Some(b)`. */
  predicate HoldsBool(fields: seq<(string, Json)>, key: string, x: Option<bool>) {
    if x.Some? then Get(fields, key) == Some(Bool(x.value)) else Get(fields, key) in {None, Some(Null)}
  }

  /** The object has no field `key`, or a `null` one, for `None`, and the string `t` there for `Some(t)`. */
  predicate HoldsString(fields: seq<(string, Json)>, key: string, x: Option<string>) {
    if x.Some? then Get(fields, key) == Some(Str(x.value)) else Get(fields, key) in {None, Some(Null)}
  }

  /**
   * `data.get('options', {})` as the image pipeline reads it: an absent field
   * is the empty dictionary, and a `null` flag, charset or ratio is read as
   * absent, since the pipeline treats it exactly so. `None` stands for options
   * whose shape the model leaves out: not an object, or a field of another
   * type than the pipeline's (a `null` width, brightness or contrast can make a
   * step raise).
   */
  function OptionsOf(options: Option<Json>): (r: Option<ImageProcessing.Options>)
    ensures options.None? ==> r == Some(ImageProcessing.NoOptions)
    ensures options.Some? && !options.value.Obj? ==> r.None?
    ensures r.Some? && options.Some? ==>
      var fields := options.value.fields;
      && HoldsInt(fields, "width", r.value.width)
      && HoldsString(fields, "charset", r.value.charset)
      && HoldsBool(fields, "removeBackground", r.value.removeBackground)
      && HoldsInt(fields, "brightness", r.value.brightness)
      && HoldsInt(fields, "contrast", r.value.contrast)
      && HoldsBool(fields, "invert", r.value.invert)
      && HoldsString(fields, "ratio", r.value.ratio)
      && HoldsBool(fields, "keepOriginal", r.value.keepOriginal)
  {
    match options
    case None => Some(ImageProcessing.NoOptions)
    case Some(Obj(fields)) =>
      var width := IntOption(fields, "width");
      var charset := StringOption(fields, "charset");
      var removeBackground := BoolOption(fields, "removeBackground");
      var brightness := IntOption(fields, "brightness");
      var contrast := IntOption(fields, "contrast");
      var invert := BoolOption(fields, "invert");
      var ratio := StringOption(fields, "ratio");
      var keepOriginal := BoolOption(fields, "keepOriginal");
      if width.Some? && charset.Some? && removeBackground.Some? && brightness.Some? && contrast.Some?
         && invert.Some? && ratio.Some? && keepOriginal.Some?
      then Some(ImageProcessing.Options(width.value, charset.value, removeBackground.value, brightness.value,
                                        contrast.value, invert.value, ratio.value, keepOriginal.value))
      else None
    case Some(_) => None
  }

  /**
   * The options object the desktop app sends with every `convert` request:
   * all eight fields, with `ratio` `null` unless one is chosen.
   */
  function AppOptions(width: int, charset: string, removeBackground: bool, brightness: int, contrast: int,
                      invert: bool, ratio: Option<string>, keepOriginal: bool): Json {
    Obj([("width", Number(width)), ("charset", Str(charset)), ("removeBackground", Bool(removeBackground)),
         ("brightness", Number(brightness)), ("contrast", Number(contrast)), ("invert", Bool(invert)),
         ("ratio", if ratio.Some? then Str(ratio.value) else Null), ("keepOriginal", Bool(keepOriginal))])
  }

  /** The fields are named as the app names them, in the app's order. */
  predicate AppKeys(fs: seq<(string, Json)>) {
    && |fs| == 8
    && fs[0].0 == "width" && fs[1].0 == "charset" && fs[2].0 == "removeBackground" && fs[3].0 == "brightness"
    && fs[4].0 == "contrast" && fs[5].0 == "invert" && fs[6].0 == "ratio" && fs[7].0 == "keepOriginal"
  }

  /** No two of the app's field names are equal, so `get` finds each field. */
  lemma AppFieldFound(fs: seq<(string, Json)>, i: nat)
    requires AppKeys(fs) && i < 8
    ensures Get(fs, fs[i].0) == Some(fs[i].1)
  {
    assert "width" != "ratio" by { assert "width"[0] != "ratio"[0]; }
    GetAt(fs, i);
  }

  /** Each field the app sends is the one `get` finds for its key. */
  lemma AppFieldsFound(fs: seq<(string, Json)>)
    requires AppKeys(fs)
    ensures Get(fs, "width") == Some(fs[0].1) && Get(fs, "charset") == Some(fs[1].1)
    ensures Get(fs, "removeBackground") == Some(fs[2].1) && Get(fs, "brightness") == Some(fs[3].1)
    ensures Get(fs, "contrast") == Some(fs[4].1) && Get(fs, "invert") == Some(fs[5].1)
    ensures Get(fs, "ratio") == Some(fs[6].1) && Get(fs, "keepOriginal") == Some(fs[7].1)
  {
    AppFieldFound(fs, 0); AppFieldFound(fs, 1); AppFieldFound(fs, 2); AppFieldFound(fs, 3);
    AppFieldFound(fs, 4); AppFieldFound(fs, 5); AppFieldFound(fs, 6); AppFieldFound(fs, 7);
  }

  /** Options whose eight fields read as the pipeline reads them are those options. */
  lemma OptionsFromFields(fields: seq<(string, Json)>, o: ImageProcessing.Options)
    requires IntOption(fields, "width") == Some(o.width) && StringOption(fields, "charset") == Some(o.charset)
    requires BoolOption(fields, "removeBackground") == Some(o.removeBackground)
    requires IntOption(fields, "brightness") == Some(o.brightness) && IntOption(fields, "contrast") == Some(o.contrast)
    requires BoolOption(fields, "invert") == Some(o.invert) && StringOption(fields, "ratio") == Some(o.ratio)
    requires BoolOption(fields, "keepOriginal") == Some(o.keepOriginal)
    ensures OptionsOf(Some(Obj(fields))) == Some(o)
  {
  }

  /** Fields named as the app names them, holding values of the pipeline's types, are read as those values. */
  lemma AppFieldsRead(fs: seq<(string, Json)>, o: ImageProcessing.Options)
    requires AppKeys(fs)
    requires o.width.Some? && fs[0].1 == Number(o.width.value)
    requires o.charset.Some? && fs[1].1 == Str(o.charset.value)
    requires o.removeBackground.Some? && fs[2].1 == Bool(o.removeBackground.value)
    requires o.brightness.Some? && fs[3].1 == Number(o.brightness.value)
    requires o.contrast.Some? && fs[4].1 == Number(o.contrast.value)
    requires o.invert.Some? && fs[5].1 == Bool(o.invert.value)
    requires fs[6].1 == if o.ratio.Some? then Str(o.ratio.value) else Null
    requires o.keepOriginal.Some? && fs[7].1 == Bool(o.keepOriginal.value)
    ensures OptionsOf(Some(Obj(fs))) == Some(o)
  {
    AppFieldsFound(fs);
    OptionsFromFields(fs, o);
  }

  /** The app's options are read field by field, a `null` ratio as no ratio. */
  lemma AppOptionsAreRead(width: int, charset: string, removeBackground: bool, brightness: int, contrast: int,
                          invert: bool, ratio: Option<string>, keepOriginal: bool)
    ensures OptionsOf(Some(AppOptions(width, charset, removeBackground, brightness, contrast, invert, ratio, keepOriginal)))
         == Some(ImageProcessing.Options(Some(width), Some(charset), Some(removeBackground), Some(brightness),
                                         Some(contrast), Some(invert), ratio, Some(keepOriginal)))
  {
    var fs := AppOptions(width, charset, removeBackground, brightness, contrast, invert, ratio, keepOriginal).fields;
    AppFieldsRead(fs, ImageProcessing.Options(Some(width), Some(charset), Some(removeBackground), Some(brightness),
                                              Some(contrast), Some(invert), ratio, Some(keepOriginal)));
  }

  /**
   * The app's starting settings (width 120, `'detailed'`, no background
   * removal, brightness 0, contrast 100, no inversion, no ratio, resizing on)
   * convert exactly as a request without options does.
   */
  lemma AppDefaultsAreNoOptions(path: string, found: bool, openResult: Outcome, rembgInstalled: bool,
                                resize: Outcome, grey: ImageProcessing.Image -> ImageProcessing.Grid)
    ensures var options := OptionsOf(Some(AppOptions(120, "detailed", false, 0, 100, false, None, false)));
      && options.Some?
      && ImageProcessing.Converted(path, options.value, found, openResult, rembgInstalled, resize, grey)
         == ImageProcessing.Converted(path, ImageProcessing.NoOptions, found, openResult, rembgInstalled, resize, grey)
  {
    AppOptionsAreRead(120, "detailed", false, 0, 100, false, None, false);
  }

  /** The branch of the dispatcher a `command` field selects. */
  datatype Command = Ping | Convert | Save | GetHistory | Other

  /** `command == 'ping'`, `'convert'`, `'save'`, `'get_history'`: a string equal to the name, nothing else. */
  function CommandOf(command: Option<Json>): (c: Command)
    ensures c == Ping <==> command == Some(Str("ping"))
    ensures c == Convert <==> command == Some(Str("convert"))
    ensures c == Save <==> command == Some(Str("save"))
    ensures c == GetHistory <==> command == Some(Str("get_history"))
  {
    if command == Some(Str("ping")) then Ping
    else if command == Some(Str("convert")) then Convert
    else if command == Some(Str("save")) then Save
    else if command == Some(Str("get_history")) then GetHistory
    else Other
  }

  /** The response printed for one non-empty line. */
  function Respond(d: Decoded, env: Env): Response {
    match d
    case Invalid(message) => InvalidJson(message)
    case Value(data) =>
      if !data.Obj? then UnexpectedError(NoGetMessage(data))
      else
        var command := Get(data.fields, "command");
        match CommandOf(command)
        case Ping => Pong
        case Convert => ConvertResponse(data.fields, env)
        case Save => SaveResponse(data.fields, env)
        case GetHistory => HistoryResponse(env)
        case Other => UnknownCommand(command)
  }

  /** The request object `{"command": command, ...}` with the given further fields. */
  function Request(command: string, rest: seq<(string, Json)>): Json {
    Obj([("command", Str(command))] + rest)
  }

  /** A line that is not JSON is answered with the decoder's message, not dropped. */
  lemma InvalidJsonIsAnswered(message: string, env: Env)
    ensures ErrorText(Respond(Invalid(message), env)) == Some("Invalid JSON: " + message)
  {
  }

  /** JSON that is not an object fails on `data.get`, and the outer handler answers it. */
  lemma NonObjectIsAnswered(data: Json, env: Env)
    requires !data.Obj?
    ensures Respond(Value(data), env) == UnexpectedError(NoGetMessage(data))
    ensures ErrorText(Respond(Value(data), env)) == Some("Unexpected error: " + NoGetMessage(data))
  {
  }

  /** `ping` answers the fixed pong message, whatever else the request holds. */
  lemma PingAnswersPong(data: seq<(string, Json)>, env: Env)
    requires Get(data, "command") == Some(Str("ping"))
    ensures Respond(Value(Obj(data)), env) == Pong && Status(Pong) == "success"
  {
  }

  /**
   * `convert` with an absent, null or otherwise falsy path, or with a string
   * or integer path that does not exist.
   */
  lemma ConvertRejectsBadPaths(data: seq<(string, Json)>, env: Env)
    requires Get(data, "command") == Some(Str("convert"))
    ensures var path := Get(data, "path");
      && (path.None? || !PyTruthy(path.value) ==> Respond(Value(Obj(data)), env) == NoFilePath)
      && (path.Some? && path.value.Str? && path.value.s != [] && !env.pathExists ==>
            Respond(Value(Obj(data)), env) == FileNotFound(path.value.s))
      && (path.Some? && path.value.Number? && path.value.n != 0 && !env.pathExists ==>
            Respond(Value(Obj(data)), env) == FileNotFound(Decimal(path.value.n)))
    ensures ErrorText(NoFilePath) == Some("No file path provided")
  {
  }

  /**
   * For an existing path, `convert` gives a `gif-result` only for a `.gif`
   * extension in any letter case and an `ascii-result` only for any other;
   * the result or the failure is the processor's.
   */
  lemma ConvertChoosesByExtension(data: seq<(string, Json)>, env: Env, path: string)
    requires Get(data, "command") == Some(Str("convert"))
    requires Get(data, "path") == Some(Str(path)) && path != [] && env.pathExists
    ensures var r := Respond(Value(Obj(data)), env);
      && (r.GifResult? ==> IsGifExtension(Extension(path)))
      && (r.AsciiResult? ==> !IsGifExtension(Extension(path)))
      && (IsGifExtension(Extension(path)) ==>
            r == (if env.gif.Ok? then GifResult(env.gif.value.frames, env.gif.value.delays, env.gif.value.frameCount)
                  else ConversionFailed(env.gif.error)))
      && (!IsGifExtension(Extension(path)) ==>
            r == (if env.image.Ok? then AsciiResult(env.image.value) else ConversionFailed(env.image.error)))
  {
    assert Respond(Value(Obj(data)), env) == ConvertResponse(data, env);
  }

  /**
   * With the image pipeline run on the same file and the request's options, an
   * existing non-GIF path is answered with the drawn text, and the pipeline's
   * own "Image not found" error cannot reach the response: the pipeline
   * failures left are a file PIL cannot open, the missing background-removal
   * package and a resize PIL rejects.
   */
  lemma ImageConversionResponse(data: seq<(string, Json)>, env: Env, path: string,
                                openResult: Outcome, rembgInstalled: bool, resize: Outcome,
                                grey: ImageProcessing.Image -> ImageProcessing.Grid)
    requires Get(data, "command") == Some(Str("convert"))
    requires Get(data, "path") == Some(Str(path)) && path != [] && env.pathExists
    requires !IsGifExtension(Extension(path))
    requires OptionsOf(Get(data, "options")).Some?
    requires env.image == ImageProcessing.Converted(path, OptionsOf(Get(data, "options")).value, env.pathExists,
                                                    openResult, rembgInstalled, resize, grey)
    ensures var r := Respond(Value(Obj(data)), env);
      var options := OptionsOf(Get(data, "options")).value;
      var rembgMissing := ImageProcessing.OrDefault(options.removeBackground, false) && !rembgInstalled;
      var resizeFails := !ImageProcessing.OrDefault(options.keepOriginal, false) && resize.Fail?;
      && (openResult.Fail? ==> r == ConversionFailed("Processing error: " + openResult.error))
      && (openResult.Pass? && rembgMissing ==> r == ConversionFailed("Processing error: " + ImageProcessing.RembgMissing))
      && (openResult.Pass? && !rembgMissing && resizeFails ==> r == ConversionFailed("Processing error: " + resize.error))
      && (r.AsciiResult? <==> openResult.Pass? && !rembgMissing && !resizeFails)
      && (r.AsciiResult? ==>
            ImageProcessing.PipelineImage(path, options, true, openResult, rembgInstalled, resize).Ok? &&
            r.ascii == ImageProcessing.AsciiArt(
            ImageProcessing.CharsFor(ImageProcessing.OrDefault(options.charset, "detailed")),
            grey(ImageProcessing.PipelineImage(path, options, true, openResult, rembgInstalled, resize).value)))
  {
    ConvertChoosesByExtension(data, env, path);
    ImageProcessing.ConvertedExistingFile(path, OptionsOf(Get(data, "options")).value, openResult, rembgInstalled, resize, grey);
  }

  /**
   * A `convert` request without `"options"` is run with the defaults: an
   * existing non-GIF image is resized to width 120 and drawn with the
   * `'detailed'` characters, unless PIL cannot open it or rejects the resize.
   */
  lemma ConvertWithoutOptionsUsesDefaults(data: seq<(string, Json)>, env: Env, path: string,
                                          openResult: Outcome, rembgInstalled: bool, resize: Outcome,
                                          grey: ImageProcessing.Image -> ImageProcessing.Grid)
    requires Get(data, "command") == Some(Str("convert"))
    requires Get(data, "path") == Some(Str(path)) && path != [] && env.pathExists
    requires !IsGifExtension(Extension(path))
    requires Get(data, "options").None?
    requires env.image == ImageProcessing.Converted(path, OptionsOf(Get(data, "options")).value, env.pathExists,
                                                    openResult, rembgInstalled, resize, grey)
    ensures openResult.Pass? && resize.Pass? ==>
      Respond(Value(Obj(data)), env)
        == AsciiResult(ImageProcessing.AsciiArt(ImageProcessing.DetailedChars,
                                                grey(ImageProcessing.Resized(ImageProcessing.Opened(path), 120, None))))
    ensures openResult.Fail? ==> Respond(Value(Obj(data)), env) == ConversionFailed("Processing error: " + openResult.error)
    ensures openResult.Pass? && resize.Fail? ==>
      Respond(Value(Obj(data)), env) == ConversionFailed("Processing error: " + resize.error)
  {
    ConvertChoosesByExtension(data, env, path);
    ImageProcessing.DefaultsResizeTo120Detailed(path, openResult, rembgInstalled, resize, grey);
  }

  /**
   * `save` is answered by the save branch, which consults only the HTML
   * writer for `format: "html"` and only the text writer otherwise,
   * succeeding exactly when that writer did and reporting its path or error.
   */
  lemma SaveReportsPath(data: seq<(string, Json)>, env: Env, other: Result<string>)
    requires Get(data, "command") == Some(Str("save"))
    ensures Respond(Value(Obj(data)), env) == SaveResponse(data, env)
    ensures var r := SaveResponse(data, env);
      var html := Get(data, "format") == Some(Str("html"));
      var saved := if html then env.savedHtml else env.savedText;
      && (Status(r) == "success" <==> saved.Ok?)
      && (saved.Ok? ==> r.SavedTo? && r.filepath == saved.value)
      && (saved.Err? ==> ErrorText(r) == Some("Save failed: " + saved.error))
      && (html ==> SaveResponse(data, env.(savedText := other)) == r)
      && (!html ==> SaveResponse(data, env.(savedHtml := other)) == r)
  {
  }

  /**
   * `get_history` without a history file succeeds with an empty list; a list
   * written by the history store comes back as it is; a stored number, boolean
   * or `null` fails when its length is logged.
   */
  lemma HistoryIsReturnedAsStored(data: seq<(string, Json)>, env: Env, entries: seq<Json>)
    requires Get(data, "command") == Some(Str("get_history"))
    ensures env.history == NoHistoryFile ==> Respond(Value(Obj(data)), env) == HistoryList(Arr([]))
    ensures env.history == Loaded(Arr(entries)) ==> Respond(Value(Obj(data)), env) == HistoryList(Arr(entries))
    ensures env.history.Loaded? && !env.history.content.Arr? && !env.history.content.Obj? && !env.history.content.Str? ==>
      Respond(Value(Obj(data)), env).HistoryLoadFailed?
  {
  }

  /**
   * Every other command, or none, is an unknown command; `delete_history` is
   * one of them, since the dispatcher has no branch for it.
   */
  lemma OtherCommandsAreUnknown(data: seq<(string, Json)>, env: Env)
    requires Get(data, "command") !in {Some(Str("ping")), Some(Str("convert")), Some(Str("save")), Some(Str("get_history"))}
    ensures Respond(Value(Obj(data)), env) == UnknownCommand(Get(data, "command"))
  {
  }

  /** A request to delete a history entry is answered as an unknown command. */
  lemma DeleteHistoryIsUnknown(index: int, env: Env)
    ensures Respond(Value(Request("delete_history", [("index", Number(index))])), env)
         == UnknownCommand(Some(Str("delete_history")))
  {
    var fields := [("command", Str("delete_history"))] + [("index", Number(index))];
    GetAt(fields, 0);
  }

  /** A `.gif` in any letter case is a GIF extension. */
  lemma UpperCaseGifIsGif()
    ensures IsGifExtension(Extension("C:/art/cat.GIF"))
  {
    var p := "C:/art/cat.GIF";
    assert p[6] == '/' && p[10] == '.' && p[7] != '.';
    assert LastIndex(p, '.') == 10;
    assert LastIndex(p, '/') == 6;
  }

  /** A file named only `.gif` has no extension, so it is converted as an image. */
  lemma DotFileHasNoExtension()
    ensures Extension("C:/art/.gif") == []
  {
    var p := "C:/art/.gif";
    assert p[6] == '/' && p[7] == '.';
    assert LastIndex(p, '.') == 7;
    assert LastIndex(p, '/') == 6;
  }

  /** A dot in a folder name is not an extension. */
  lemma DotInFolderIsNoExtension()
    ensures Extension("C:\\art.gif\\cat") == []
  {
    var p := "C:\\art.gif\\cat";
    assert p[6] == '.' && p[10] == '\\';
    assert LastIndex(p, '.') == 6;
    assert LastIndex(p, '\\') == 10;
  }

  /** The index of the first empty read, or the number of reads when there is none. */
  function FirstEof(input: seq<Read>): (n: nat)
    ensures n <= |input|
    ensures forall k :: 0 <= k < n ==> input[k].line != ""
    ensures n < |input| ==> input[n].line == ""
  {
    if input == [] then 0
    else if input[0].line == "" then 0
    else 1 + FirstEof(input[1..])
  }

  /**
   * `main`'s loop: reads until the first empty read (end of input) and prints
   * exactly one response per line before it, in order, whatever each line
   * holds; nothing is printed for the empty read or after it.
   */
  method Serve(input: seq<Read>, decode: string -> Decoded) returns (responses: seq<Response>)
    ensures |responses| == FirstEof(input)
    ensures forall i :: 0 <= i < |responses| ==> responses[i] == Respond(decode(input[i].line), input[i].env)
  {
    responses := [];
    var i := 0;
    while i < |input|
      invariant i <= FirstEof(input)
      invariant |responses| == i
      invariant forall k :: 0 <= k < i ==> responses[k] == Respond(decode(input[k].line), input[k].env)
    {
      var line := input[i].line;
      if line == "" {
        break;
      }
      var response := Respond(decode(line), input[i].env);
      responses := responses + [response];
      i := i + 1;
    }
  }
}
