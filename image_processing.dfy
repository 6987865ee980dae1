/**
 * The worker's `ImageProcessor`: the character sets, the grey-level to
 * character mapping, the row joining, the "No image loaded" guard of every
 * processing step, and the option defaults of `process_and_convert`.
 *
 * Image operations done by foreign libraries (opening, background removal,
 * enhancement, inversion, resampling) are symbolic: an `Image` records which
 * operations were applied, in order, and the grey pixel grid of an image is
 * an abstract function `grey` of it.
 */
module ImageProcessing {
  import opened Wrappers
  import opened Lines

  /** A grey level, as the 8-bit greyscale array holds it. */
  type Byte = x: int | 0 <= x < 256

  type Grid = seq<seq<Byte>>

  /** An image, as the sequence of operations that produced it. */
  datatype Image =
    | Opened(path: string)
    | BackgroundRemoved(source: Image)
    | Brightened(source: Image, brightness: int)
    | Contrasted(source: Image, contrast: int)
    | Inverted(source: Image)
    | Resized(source: Image, width: int, ratio: Option<string>)

  /** The conversion options; `None` is a key absent from the options dictionary. */
  datatype Options = Options(
    width: Option<int>,
    charset: Option<string>,
    removeBackground: Option<bool>,
    brightness: Option<int>,
    contrast: Option<int>,
    invert: Option<bool>,
    ratio: Option<string>,
    keepOriginal: Option<bool>)

  const NoOptions: Options := Options(None, None, None, None, None, None, None, None)

  const NoImageLoaded: string := "No image loaded"
  const RembgMissing: string := "rembg is not installed. Background removal is not available."

  const DetailedChars: string := "@%#*+=-:. "
  const SimpleChars: string := "\U{2588}\U{2593}\U{2592}\U{2591} "

  /** `CHARSETS`, from dark to light. */
  const Charsets: map<string, string> := map[
    "detailed" := DetailedChars,
    "standard" := DetailedChars,
    "simple" := SimpleChars]

  /** `options.get(key, default)`. */
  function OrDefault<T>(x: Option<T>, default: T): T {
    match x
    case Some(v) => v
    case None => default
  }

  /** `CHARSETS.get(charset, CHARSETS['detailed'])`. */
  function CharsFor(name: string): (chars: string)
    ensures name in Charsets ==> chars == Charsets[name]
    ensures name !in Charsets ==> chars == Charsets["detailed"]
    ensures |chars| >= 2 && '\n' !in chars
  {
    if name in Charsets then Charsets[name] else Charsets["detailed"]
  }

  /** An unknown name draws with the `'detailed'` characters, and `'standard'` is the same set. */
  lemma UnknownCharsetIsDetailed(name: string)
    requires name != "detailed" && name != "standard" && name != "simple"
    ensures CharsFor(name) == CharsFor("detailed") == CharsFor("standard")
  {
  }

  /**
   * `int(p / 255 * (len - 1))`, taken in exact arithmetic: the index of the
   * character drawn for grey level `p` in a set of `len` characters.
   */
  function CharIndex(p: Byte, len: nat): (i: int)
    requires len >= 1
    ensures 0 <= i < len
    ensures p == 0 ==> i == 0
    ensures p == 255 ==> i == len - 1
  {
    assert p * (len - 1) <= 255 * (len - 1);
    p * (len - 1) / 255
  }

  /** Lighter pixels never get darker characters. */
  lemma CharIndexMonotone(p: Byte, q: Byte, len: nat)
    requires len >= 1 && p <= q
    ensures CharIndex(p, len) <= CharIndex(q, len)
  {
    assert (q - p) * (len - 1) >= 0;
    assert p * (len - 1) <= q * (len - 1);
  }

  /** Black draws the set's first character, white its last (a space in every set). */
  lemma EndpointCharacters(name: string)
    ensures var chars := CharsFor(name);
      chars[CharIndex(0, |chars|)] == chars[0] && chars[CharIndex(255, |chars|)] == ' '
  {
  }

  /** `''.join([chars[i] for i in row])`. */
  function RenderRow(chars: string, row: seq<Byte>): (r: string)
    requires |chars| >= 1
    ensures |r| == |row|
    ensures forall j :: 0 <= j < |row| ==> r[j] == chars[CharIndex(row[j], |chars|)]
  {
    seq(|row|, j requires 0 <= j < |row| => chars[CharIndex(row[j], |chars|)])
  }

  /** The text rows of a grid, one per pixel row. */
  function RenderRows(chars: string, pixels: Grid): (rows: seq<string>)
    requires |chars| >= 1
    ensures |rows| == |pixels|
    ensures forall k :: 0 <= k < |pixels| ==> rows[k] == RenderRow(chars, pixels[k])
  {
    seq(|pixels|, k requires 0 <= k < |pixels| => RenderRow(chars, pixels[k]))
  }

  /** The text `convert_to_ascii` returns for a grid. */
  function AsciiArt(chars: string, pixels: Grid): string
    requires |chars| >= 1
  {
    Join(RenderRows(chars, pixels))
  }

  /**
   * The text has one line per pixel row, each as long as its row and made of
   * the mapped characters, with newlines only between rows.
   */
  lemma AsciiArtLines(chars: string, pixels: Grid)
    requires |chars| >= 1 && '\n' !in chars && |pixels| > 0
    ensures var lines := Split(AsciiArt(chars, pixels));
      && |lines| == |pixels|
      && forall k :: 0 <= k < |pixels| ==> lines[k] == RenderRow(chars, pixels[k]) && |lines[k]| == |pixels[k]|
  {
    var rows := RenderRows(chars, pixels);
    forall k | 0 <= k < |rows| ensures '\n' !in rows[k] {
      forall j | 0 <= j < |rows[k]| ensures rows[k][j] != '\n' {
        assert rows[k][j] == chars[CharIndex(pixels[k][j], |chars|)];
      }
    }
    SplitOfJoin(rows);
  }

  /**
   * The image the pipeline ends with, or the error it raises. `openResult` is what
   * PIL's `Image.open` does with an existing file: it raises "cannot identify
   * image file ..." for one that is not an image. `resize` is what PIL's
   * `resize` does with the computed target size: it raises "height and width
   * must be > 0" when the width, or the height computed from it, is not
   * positive.
   */
  function PipelineImage(path: string, options: Options, found: bool, openResult: Outcome, rembgInstalled: bool,
                         resize: Outcome): Result<Image> {
    if !found then Err("Image not found: " + path)
    else if openResult.Fail? then Err(openResult.error)
    else
      var removeBackground := OrDefault(options.removeBackground, false);
      if removeBackground && !rembgInstalled then Err(RembgMissing)
      else
        var original := Opened(path);
        var cleaned := if removeBackground then BackgroundRemoved(original) else original;
        var brightness := OrDefault(options.brightness, 0);
        var brightened := if brightness != 0 then Brightened(cleaned, brightness) else cleaned;
        var contrast := OrDefault(options.contrast, 100);
        var contrasted := if contrast != 100 then Contrasted(brightened, contrast) else brightened;
        var inverted := if OrDefault(options.invert, false) then Inverted(contrasted) else contrasted;
        if OrDefault(options.keepOriginal, false) then Ok(inverted)
        else if resize.Fail? then Err(resize.error)
        else Ok(Resized(inverted, OrDefault(options.width, 120), options.ratio))
  }

  /**
   * The pipeline fails exactly for a missing file, for a file PIL cannot open,
   * for background removal requested without the rembg package, or for a
   * resize that PIL rejects, and with the first such error's text.
   */
  lemma PipelineErrors(path: string, options: Options, found: bool, openResult: Outcome, rembgInstalled: bool, resize: Outcome)
    ensures var r := PipelineImage(path, options, found, openResult, rembgInstalled, resize);
      var rembgMissing := OrDefault(options.removeBackground, false) && !rembgInstalled;
      var resizeFails := !OrDefault(options.keepOriginal, false) && resize.Fail?;
      && (r.Err? <==> !found || openResult.Fail? || rembgMissing || resizeFails)
      && (!found ==> r == Err("Image not found: " + path))
      && (found && openResult.Fail? ==> r == Err(openResult.error))
      && (found && openResult.Pass? && rembgMissing ==> r == Err(RembgMissing))
      && (found && openResult.Pass? && !rembgMissing && resizeFails ==> r == Err(resize.error))
  {
  }

  /** What `process_and_convert` returns or raises. */
  function Converted(path: string, options: Options, found: bool, openResult: Outcome, rembgInstalled: bool,
                     resize: Outcome, grey: Image -> Grid): Result<string> {
    match PipelineImage(path, options, found, openResult, rembgInstalled, resize)
    case Err(e) => Err("Processing error: " + e)
    case Ok(image) => Ok(AsciiArt(CharsFor(OrDefault(options.charset, "detailed")), grey(image)))
  }

  /**
   * For an existing file the pipeline either draws the processed image or
   * fails for a file PIL cannot open, the missing background-removal package
   * or a rejected resize, re-raised as "Processing error: ...".
   */
  lemma ConvertedExistingFile(path: string, options: Options, openResult: Outcome, rembgInstalled: bool, resize: Outcome,
                              grey: Image -> Grid)
    ensures var r := Converted(path, options, true, openResult, rembgInstalled, resize, grey);
      var rembgMissing := OrDefault(options.removeBackground, false) && !rembgInstalled;
      var resizeFails := !OrDefault(options.keepOriginal, false) && resize.Fail?;
      && (r.Err? <==> openResult.Fail? || rembgMissing || resizeFails)
      && (openResult.Fail? ==> r == Err("Processing error: " + openResult.error))
      && (openResult.Pass? && rembgMissing ==> r == Err("Processing error: " + RembgMissing))
      && (openResult.Pass? && !rembgMissing && resizeFails ==> r == Err("Processing error: " + resize.error))
      && (r.Ok? ==> PipelineImage(path, options, true, openResult, rembgInstalled, resize).Ok? &&
                    r.value == AsciiArt(CharsFor(OrDefault(options.charset, "detailed")),
                                        grey(PipelineImage(path, options, true, openResult, rembgInstalled, resize).value)))
  {
    PipelineErrors(path, options, true, openResult, rembgInstalled, resize);
  }

  /**
   * With no options an existing file is resized to width 120 with its own
   * aspect ratio and drawn with the `'detailed'` characters; nothing else is
   * applied, and the only possible failures are opening the file and the
   * resize.
   */
  lemma DefaultsResizeTo120Detailed(path: string, openResult: Outcome, rembgInstalled: bool, resize: Outcome, grey: Image -> Grid)
    ensures openResult.Pass? && resize.Pass? ==>
      PipelineImage(path, NoOptions, true, openResult, rembgInstalled, resize) == Ok(Resized(Opened(path), 120, None))
    ensures openResult.Pass? && resize.Pass? ==>
      Converted(path, NoOptions, true, openResult, rembgInstalled, resize, grey)
        == Ok(AsciiArt(DetailedChars, grey(Resized(Opened(path), 120, None))))
    ensures openResult.Fail? ==>
      Converted(path, NoOptions, true, openResult, rembgInstalled, resize, grey) == Err("Processing error: " + openResult.error)
    ensures openResult.Pass? && resize.Fail? ==>
      Converted(path, NoOptions, true, openResult, rembgInstalled, resize, grey) == Err("Processing error: " + resize.error)
  {
  }

  /** Brightness 0 and contrast 100 are the same as leaving them out: no adjustment is made. */
  lemma NeutralAdjustmentsAreSkipped(path: string, options: Options, found: bool, openResult: Outcome, rembgInstalled: bool,
                                     resize: Outcome)
    requires options.brightness in {None, Some(0)} && options.contrast in {None, Some(100)}
    ensures PipelineImage(path, options, found, openResult, rembgInstalled, resize)
         == PipelineImage(path, options.(brightness := None, contrast := None), found, openResult, rembgInstalled, resize)
  {
  }

  /** The image has been resampled somewhere along its history. */
  predicate WasResized(image: Image) {
    match image
    case Opened(_) => false
    case Resized(_, _, _) => true
    case BackgroundRemoved(s) => WasResized(s)
    case Brightened(s, _) => WasResized(s)
    case Contrasted(s, _) => WasResized(s)
    case Inverted(s) => WasResized(s)
  }

  /**
   * `keepOriginal` leaves the size alone: the result is never resampled; without
   * it the last step is a resize to the requested width (120 by default).
   */
  lemma KeepOriginalSkipsResize(path: string, options: Options, found: bool, openResult: Outcome, rembgInstalled: bool,
                                resize: Outcome)
    requires PipelineImage(path, options, found, openResult, rembgInstalled, resize).Ok?
    ensures var image := PipelineImage(path, options, found, openResult, rembgInstalled, resize).value;
      && (OrDefault(options.keepOriginal, false) ==> !WasResized(image))
      && (!OrDefault(options.keepOriginal, false) ==>
            image.Resized? && image.width == OrDefault(options.width, 120) && !WasResized(image.source))
  {
    var removeBackground := OrDefault(options.removeBackground, false);
    var original := Opened(path);
    var cleaned := if removeBackground then BackgroundRemoved(original) else original;
    assert !WasResized(cleaned);
    var brightness := OrDefault(options.brightness, 0);
    var brightened := if brightness != 0 then Brightened(cleaned, brightness) else cleaned;
    assert !WasResized(brightened);
    var contrast := OrDefault(options.contrast, 100);
    var contrasted := if contrast != 100 then Contrasted(brightened, contrast) else brightened;
    assert !WasResized(contrasted);
    var inverted := if OrDefault(options.invert, false) then Inverted(contrasted) else contrasted;
    assert !WasResized(inverted);
  }

  /** The processor with its current and original image. */
  class ImageProcessor {
    var image: Option<Image>
    var originalImage: Option<Image>

    constructor ()
      ensures image == None && originalImage == None
    {
      image, originalImage := None, None;
    }

    /**
     * `load_image`: a missing file raises, and so does `Image.open` for a file
     * it cannot identify, both leaving the images as they were; otherwise both
     * images become the opened file.
     */
    method LoadImage(path: string, found: bool, openResult: Outcome) returns (r: Outcome)
      modifies this
      ensures !found ==> r == Fail("Image not found: " + path) && image == old(image) && originalImage == old(originalImage)
      ensures found && openResult.Fail? ==> r == openResult && image == old(image) && originalImage == old(originalImage)
      ensures found && openResult.Pass? ==> r == Pass && image == Some(Opened(path)) && originalImage == Some(Opened(path))
    {
      if !found {
        return Fail("Image not found: " + path);
      }
      if openResult.Fail? {
        return openResult;
      }
      originalImage := Some(Opened(path));
      image := originalImage;
      return Pass;
    }

    /** `remove_background`: needs an image and the rembg package. */
    method RemoveBackground(rembgInstalled: bool) returns (r: Outcome)
      modifies this`image
      ensures old(image).None? ==> r == Fail(NoImageLoaded) && image == old(image)
      ensures old(image).Some? && !rembgInstalled ==> r == Fail(RembgMissing) && image == old(image)
      ensures old(image).Some? && rembgInstalled ==> r == Pass && image == Some(BackgroundRemoved(old(image).value))
    {
      if image.None? {
        return Fail(NoImageLoaded);
      }
      if !rembgInstalled {
        return Fail(RembgMissing);
      }
      image := Some(BackgroundRemoved(image.value));
      return Pass;
    }

    /** `adjust_brightness`. */
    method AdjustBrightness(value: int) returns (r: Outcome)
      modifies this`image
      ensures old(image).None? ==> r == Fail(NoImageLoaded) && image == old(image)
      ensures old(image).Some? ==> r == Pass && image == Some(Brightened(old(image).value, value))
    {
      if image.None? {
        return Fail(NoImageLoaded);
      }
      image := Some(Brightened(image.value, value));
      return Pass;
    }

    /** `adjust_contrast`. */
    method AdjustContrast(value: int) returns (r: Outcome)
      modifies this`image
      ensures old(image).None? ==> r == Fail(NoImageLoaded) && image == old(image)
      ensures old(image).Some? ==> r == Pass && image == Some(Contrasted(old(image).value, value))
    {
      if image.None? {
        return Fail(NoImageLoaded);
      }
      image := Some(Contrasted(image.value, value));
      return Pass;
    }

    /** `invert_colors`. */
    method InvertColors() returns (r: Outcome)
      modifies this`image
      ensures old(image).None? ==> r == Fail(NoImageLoaded) && image == old(image)
      ensures old(image).Some? ==> r == Pass && image == Some(Inverted(old(image).value))
    {
      if image.None? {
        return Fail(NoImageLoaded);
      }
      image := Some(Inverted(image.value));
      return Pass;
    }

    /**
     * `resize_image`: with `keep_original` the image is left exactly as it is;
     * otherwise `resize` says whether PIL accepts the computed size, and a
     * rejected resize raises and leaves the image as it was.
     */
    method ResizeImage(width: int, ratio: Option<string>, keepOriginal: bool, resize: Outcome) returns (r: Outcome)
      modifies this`image
      ensures old(image).None? ==> r == Fail(NoImageLoaded) && image == old(image)
      ensures old(image).Some? && keepOriginal ==> r == Pass && image == old(image)
      ensures old(image).Some? && !keepOriginal && resize.Fail? ==> r == resize && image == old(image)
      ensures old(image).Some? && !keepOriginal && resize.Pass? ==> r == Pass && image == Some(Resized(old(image).value, width, ratio))
    {
      if image.None? {
        return Fail(NoImageLoaded);
      }
      if keepOriginal {
        return Pass;
      }
      if resize.Fail? {
        return resize;
      }
      image := Some(Resized(image.value, width, ratio));
      return Pass;
    }

    /** `reset`: back to the original image, when one was loaded. */
    method Reset()
      modifies this`image
      ensures originalImage.Some? ==> image == originalImage
      ensures originalImage.None? ==> image == old(image)
    {
      if originalImage.Some? {
        image := originalImage;
      }
    }

    /**
     * `convert_to_ascii`: without an image it raises; otherwise every grey
     * pixel row becomes a text row of mapped characters, rows joined by "\n".
     */
    method ConvertToAscii(charset: string, grey: Image -> Grid) returns (r: Result<string>)
      ensures image.None? ==> r == Err(NoImageLoaded)
      ensures image.Some? ==> r == Ok(AsciiArt(CharsFor(charset), grey(image.value)))
    {
      if image.None? {
        return Err(NoImageLoaded);
      }
      var chars := CharsFor(charset);
      var pixels := grey(image.value);
      var asciiArt: seq<string> := [];
      for i := 0 to |pixels|
        invariant |asciiArt| == i
        invariant forall k :: 0 <= k < i ==> asciiArt[k] == RenderRow(chars, pixels[k])
      {
        var row := pixels[i];
        var asciiRow := RenderRow(chars, row);
        asciiArt := asciiArt + [asciiRow];
      }
      assert asciiArt == RenderRows(chars, pixels);
      return Ok(Join(asciiArt));
    }

    /**
     * `process_and_convert`: load, then each requested step in order with the
     * defaults brightness 0, contrast 100, width 120 and charset `'detailed'`;
     * any failure is re-raised as "Processing error: ...". A file that is
     * missing or cannot be opened leaves the processor as it was; otherwise the
     * opened file is the new original, and a run without failures leaves the
     * pipeline's image as the current one.
     */
    method ProcessAndConvert(path: string, options: Options, found: bool, openResult: Outcome, rembgInstalled: bool,
                             resize: Outcome, grey: Image -> Grid) returns (r: Result<string>)
      modifies this
      ensures r == Converted(path, options, found, openResult, rembgInstalled, resize, grey)
      ensures !found || openResult.Fail? ==> image == old(image) && originalImage == old(originalImage)
      ensures found && openResult.Pass? ==> originalImage == Some(Opened(path))
      ensures PipelineImage(path, options, found, openResult, rembgInstalled, resize).Ok? ==>
        image == Some(PipelineImage(path, options, found, openResult, rembgInstalled, resize).value)
    {
      var step := LoadImage(path, found, openResult);
      if step.Fail? {
        return Err("Processing error: " + step.error);
      }
      if OrDefault(options.removeBackground, false) {
        step := RemoveBackground(rembgInstalled);
        if step.Fail? {
          return Err("Processing error: " + step.error);
        }
      }
      var brightness := OrDefault(options.brightness, 0);
      if brightness != 0 {
        step := AdjustBrightness(brightness);
      }
      var contrast := OrDefault(options.contrast, 100);
      if contrast != 100 {
        step := AdjustContrast(contrast);
      }
      if OrDefault(options.invert, false) {
        step := InvertColors();
      }
      var width := OrDefault(options.width, 120);
      var keepOriginal := OrDefault(options.keepOriginal, false);
      step := ResizeImage(width, options.ratio, keepOriginal, resize);
      if step.Fail? {
        return Err("Processing error: " + step.error);
      }
      var charset := OrDefault(options.charset, "detailed");
      r := ConvertToAscii(charset, grey);
    }
  }
}
