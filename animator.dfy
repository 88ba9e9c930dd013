/**
 * The `Animator`: style and colour resolution at construction, frame dispatch, line
 * composition, and the start / stop / update lifecycle with one render-loop step
 * (`Tick`), the context-manager exit and the `iterate` wrapper.
 *
 * The output file is the write log `log`: one entry per `file.write` call. The
 * render thread is the `running` flag plus a ghost count of live render loops; a
 * render step may only be taken while `running` holds.
 */
module Animation {
  import opened Wrappers
  import opened Text
  import opened Styles
  import Frames

  // ---------------------------------------------------------------------------
  // Terminal control text
  // ---------------------------------------------------------------------------

  const ForeRed: string := "\U{1B}[31m"
  const ForeGreen: string := "\U{1B}[32m"
  const ForeYellow: string := "\U{1B}[33m"
  const ForeBlue: string := "\U{1B}[34m"
  const ForeMagenta: string := "\U{1B}[35m"
  const ForeCyan: string := "\U{1B}[36m"
  const ForeWhite: string := "\U{1B}[37m"
  const ResetAll: string := "\U{1B}[0m"

  /** Carriage return, a hundred blanks, carriage return: erases the animation line. */
  const ClearLine: string := "\r" + Repeat(' ', 100) + "\r"

  const CompleteMessage: string := ForeGreen + "\U{2713} Complete!" + ResetAll
  const ErrorMessage: string := ForeRed + "\U{2717} Error occurred" + ResetAll

  // ---------------------------------------------------------------------------
  // Construction: colour and style resolution
  // ---------------------------------------------------------------------------

  /** The colour table of the constructor, keyed by lower-case colour name. */
  const Palette: map<string, string> := map[
    "red" := ForeRed, "green" := ForeGreen, "blue" := ForeBlue, "yellow" := ForeYellow,
    "magenta" := ForeMagenta, "cyan" := ForeCyan, "white" := ForeWhite]

  /** `colors.get(color.lower(), Fore.CYAN)`. */
  function ResolveColor(color: string): (code: string)
    ensures |code| == 5 && code[..3] == "\U{1B}[3" && code[4] == 'm'
  {
    var key := ToLower(color);
    if key in Palette then Palette[key] else ForeCyan
  }

  /**
   * Colour names match whatever their case; a name whose lower-case form is in the
   * palette gives that entry's code, and any other name falls back to cyan.
   */
  lemma ResolveColorCases(color: string)
    ensures ResolveColor(ToUpper(color)) == ResolveColor(color) == ResolveColor(ToLower(color))
    ensures ToLower(color) in Palette ==> ResolveColor(color) == Palette[ToLower(color)]
    ensures ToLower(color) !in Palette ==> ResolveColor(color) == ForeCyan
  {
    ToLowerIdempotent(color);
    ToLowerOfUpper(color);
  }

  /** Whatever the name, the code chosen is one of the palette's seven. */
  lemma ResolveColorInPalette(color: string)
    ensures ResolveColor(color) in Palette.Values
  {
    assert "cyan" in Palette && Palette["cyan"] == ForeCyan;
  }

  /** Each palette name, already lower-case, gives its own code. */
  lemma ResolvePaletteNames()
    ensures forall name :: name in Palette ==> ResolveColor(name) == Palette[name]
  {
    forall name | name in Palette
      ensures ResolveColor(name) == Palette[name]
    {
      ToLowerKeeps(name);
    }
  }

  /** What the constructor's `style` argument was. */
  datatype StyleArg =
    | Named(name: string)   // a string, looked up case-insensitively
    | Member(member: Style) // an AnimationStyle member, taken as it is
    | Other(hashable: bool) // any other object, stored as it is

  /**
   * The style the constructor stores (None for an object that is not a member),
   * or the text of the ValueError it raises for an unknown name.
   */
  function ResolveStyle(arg: StyleArg): (r: Result<Option<Style>, string>)
    ensures r.Failure? ==> arg.Named?
    ensures arg.Member? ==> r == Success(Some(arg.member))
    ensures arg.Other? ==> r == Success(None)
  {
    match arg
    case Named(name) =>
      var upper := ToUpper(name);
      (match MemberNamed(upper)
       case Some(s) => Success(Some(s))
       case None => Failure("Unknown style: " + upper + ". Use AnimationStyle.list_styles() to see options."))
    case Member(s) => Success(Some(s))
    case Other(_) => Success(None)
  }

  /**
   * A name resolves to a member exactly when its upper-case form is that member's
   * name; otherwise construction fails, naming the upper-cased style.
   */
  lemma ResolveStyleByName(name: string, s: Style)
    ensures ResolveStyle(Named(name)) == Success(Some(s)) <==> ToUpper(name) == Name(s)
    ensures ResolveStyle(Named(name)).Failure? <==> forall m: Style :: ToUpper(name) != Name(m)
    ensures ResolveStyle(Named(name)).Failure? ==>
      ResolveStyle(Named(name)).error[..15 + |name|] == "Unknown style: " + ToUpper(name)
  {
    MemberNamedExactly(ToUpper(name), s);
    if ResolveStyle(Named(name)).Failure? {
      forall m: Style
        ensures ToUpper(name) != Name(m)
      {
        MemberNamedExactly(ToUpper(name), m);
      }
    } else {
      var r := MemberNamed(ToUpper(name));
      MemberNamedExactly(ToUpper(name), r.value);
    }
  }

  /** Resolution ignores case: a name and its upper- and lower-case forms resolve alike. */
  lemma ResolveStyleCaseInsensitive(name: string)
    ensures ResolveStyle(Named(ToUpper(name))) == ResolveStyle(Named(name))
    ensures ResolveStyle(Named(ToLower(name))) == ResolveStyle(Named(name))
  {
    ToUpperIdempotent(name);
    ToUpperOfLower(name);
  }

  /** Every value `list_styles()` returns resolves to the member listed with it. */
  lemma ResolveListedStyles()
    ensures forall i :: 0 <= i < |ListStyles()| ==>
      ResolveStyle(Named(ListStyles()[i])) == Success(Some(Members[i]))
  {
    ListedValuesResolve();
  }

  /**
   * `style_map.get(self.style, AnimationFrames.spinner)`: the generator the stored
   * style selects, named by the style it draws. Every member has its own entry, so
   * only a style that is not a member falls back to the spinner. (An unhashable style
   * object makes the table lookup itself raise; see `NewAnimator`.)
   */
  function GeneratorFor(style: Option<Style>): (generator: Style)
    ensures style.Some? ==> generator == style.value
    ensures style.None? ==> generator == Spinner
  {
    match style
    case None => Spinner
    case Some(s) =>
      match s
      case Spinner => Spinner
      case Matrix => Matrix
      case Bouncing => Bouncing
      case Particles => Particles
      case LoadingDots => LoadingDots
      case ProgressBar => ProgressBar
      case Blocks => Blocks
      case Arrows => Arrows
      case Pulse => Pulse
      case Snake => Snake
      case Fireworks => Fireworks
      case Dna => Dna
      case Clock => Clock
      case Binary => Binary
  }

  // ---------------------------------------------------------------------------
  // One frame, one line
  // ---------------------------------------------------------------------------

  /**
   * The frame a generator draws. With `passCounts` the progress bar is called with
   * the animator's total and current count; otherwise every generator gets only the
   * frame number and the width, so the progress bar uses its defaults (total 100,
   * no current count).
   */
  ghost function FrameOf(generator: Style, passCounts: bool, frameNum: nat, width: nat,
                         total: nat, current: int, e: Frames.Entropy): (frame: string)
    requires e.Fits(width) && (generator == Bouncing ==> width > 0)
    requires passCounts ==> generator == ProgressBar && total > 0
    ensures generator in {Spinner, Clock} ==> |frame| == 15 && frame[1..] == " Processing..."
    ensures generator == LoadingDots ==> |frame| == 10 && frame[..7] == "Loading"
    ensures generator == ProgressBar ==> |frame| >= 5 && frame[0] == '[' && frame[|frame| - 1] == '%'
    ensures generator !in {Spinner, Clock, LoadingDots, Arrows, ProgressBar} ==> |frame| <= width
  {
    match generator
    case Spinner => Frames.Spinner(frameNum, width)
    case Matrix => Frames.SparseRow(Frames.MatrixGlyphs, Frames.MatrixDensity, e.draws, width)
    case Bouncing => Frames.Bouncing(frameNum, width, e.swing)
    case Particles => Frames.SparseRow(Frames.ParticleGlyphs, Frames.ParticleDensity, e.draws, width)
    case LoadingDots => Frames.LoadingDots(frameNum, width)
    case ProgressBar =>
      if passCounts then Frames.ProgressBar(frameNum, width, total, Some(current))
      else Frames.ProgressBar(frameNum, width, 100, None)
    case Blocks => Frames.CyclicRow(Frames.BlockGlyphs, frameNum, width)
    case Arrows => Frames.Arrows(frameNum, width)
    case Pulse => Frames.Pulse(frameNum, width, e.intensity)
    case Snake => Frames.SnakeFrame(frameNum, width)
    case Fireworks => Frames.SparseRow(Frames.FireworkGlyphs, Frames.FireworkDensity, e.draws, width)
    case Dna => Frames.CyclicRow(Frames.DnaGlyphs, frameNum, width)
    case Clock => Frames.Clock(frameNum, width)
    case Binary => Frames.SparseRow(Frames.BinaryGlyphs, Frames.BinaryDensity, e.draws, width)
  }

  /**
   * The fixed-width styles draw exactly `width` cells, pulse `width` or one fewer,
   * and the progress bar `width` cells between its brackets while the count is in
   * [0, total].
   */
  lemma FrameWidths(generator: Style, passCounts: bool, frameNum: nat, width: nat,
                    total: nat, current: int, e: Frames.Entropy)
    requires e.Fits(width) && (generator == Bouncing ==> width > 0)
    requires passCounts ==> generator == ProgressBar && total > 0
    ensures generator in {Matrix, Bouncing, Particles, Blocks, Snake, Fireworks, Dna, Binary} ==>
      |FrameOf(generator, passCounts, frameNum, width, total, current, e)| == width
    ensures generator == Pulse ==>
      width - 1 <= |FrameOf(generator, passCounts, frameNum, width, total, current, e)| <= width
    ensures generator == ProgressBar && (passCounts ==> 0 <= current <= total) ==>
      var frame := FrameOf(generator, passCounts, frameNum, width, total, current, e);
      |frame| >= width + 2 && frame[0] == '[' && frame[width + 1] == ']' &&
      forall i :: 1 <= i <= width ==> frame[i] in {Frames.BarFull, Frames.BarEmpty}
  {
    match generator
    case Bouncing => Frames.BouncingCells(frameNum, width, e.swing);
    case Blocks => Frames.CyclicRowPeriod(Frames.BlockGlyphs, frameNum, width);
    case Dna => Frames.CyclicRowPeriod(Frames.DnaGlyphs, frameNum, width);
    case Snake => Frames.SnakeCells(frameNum, width);
    case Pulse => Frames.PulseLength(frameNum, width, e.intensity);
    case ProgressBar =>
      if passCounts && 0 <= current <= total {
        BarShape(frameNum, width, total, current);
      } else if !passCounts {
        Frames.ProgressBarSynthetic(frameNum, width, 100);
        BarShape(frameNum, width, 100, Frames.SyntheticProgress(frameNum, 100));
      }
    case _ =>
  }

  lemma BarShape(frameNum: nat, width: nat, total: nat, current: nat)
    requires 0 < total && current <= total
    ensures var frame := Frames.ProgressBar(frameNum, width, total, Some(current));
      |frame| >= width + 2 && frame[0] == '[' && frame[width + 1] == ']' &&
      forall i :: 1 <= i <= width ==> frame[i] in {Frames.BarFull, Frames.BarEmpty}
  {
    Frames.ProgressBarLayout(frameNum, width, total, current);
    Frames.BarCellsLayout(width, width * current / total);
  }

  /** The "(current/total)" part. */
  function Counter(current: int, total: nat): string
  {
    "(" + IntToDecimal(current) + "/" + NatToDecimal(total) + ")"
  }

  /**
   * The parts of one output line, in order: the prefix and the message when not empty,
   * the coloured frame always, the suffix when not empty, the elapsed-time part when
   * given, and the counter when there is a total.
   */
  function LineParts(prefix: string, message: string, color: string, frame: string, suffix: string,
                     elapsed: Option<string>, total: nat, current: int): seq<string>
  {
    Present(prefix != "", prefix)
    + Present(message != "", message)
    + [color + frame + ResetAll]
    + Present(suffix != "", suffix)
    + Present(elapsed.Some?, elapsed.GetOr(""))
    + Present(total > 0, Counter(current, total))
  }

  /** A part that appears only when `keep` holds. */
  function Present(keep: bool, part: string): seq<string>
  {
    if keep then [part] else []
  }

  /** The line `_format_output` returns: its parts joined by single spaces. */
  function Line(prefix: string, message: string, color: string, frame: string, suffix: string,
                elapsed: Option<string>, total: nat, current: int): string
  {
    Join(LineParts(prefix, message, color, frame, suffix, elapsed, total, current), " ")
  }

  /**
   * A line opens with the prefix and a blank when there is a prefix, opens with the
   * coloured frame when there is neither prefix nor message, ends with a blank and the
   * counter when there is a total, and is the coloured frame alone when nothing else
   * is configured.
   */
  lemma LineLayout(prefix: string, message: string, color: string, frame: string, suffix: string,
                   elapsed: Option<string>, total: nat, current: int)
    ensures var line := Line(prefix, message, color, frame, suffix, elapsed, total, current);
      && (prefix != "" ==> |line| > |prefix| && line[..|prefix| + 1] == prefix + " ")
      && (prefix == "" && message == "" ==>
            |line| >= |color + frame + ResetAll| && line[..|color + frame + ResetAll|] == color + frame + ResetAll)
      && (total > 0 ==>
            |line| > |Counter(current, total)| &&
            line[|line| - |Counter(current, total)| - 1..] == " " + Counter(current, total))
      && (prefix == "" && message == "" && suffix == "" && elapsed.None? && total == 0 ==>
            line == color + frame + ResetAll)
  {
    LineOpening(prefix, message, color, frame, suffix, elapsed, total, current);
    LineClosing(prefix, message, color, frame, suffix, elapsed, total, current);
  }

  lemma LineOpening(prefix: string, message: string, color: string, frame: string, suffix: string,
                    elapsed: Option<string>, total: nat, current: int)
    ensures var line := Line(prefix, message, color, frame, suffix, elapsed, total, current);
      && (prefix != "" ==> |line| > |prefix| && line[..|prefix| + 1] == prefix + " ")
      && (prefix == "" && message == "" ==>
            |line| >= |color + frame + ResetAll| && line[..|color + frame + ResetAll|] == color + frame + ResetAll)
  {
    var parts := LineParts(prefix, message, color, frame, suffix, elapsed, total, current);
    if prefix != "" {
      assert parts[0] == prefix && |parts| >= 2;
      JoinFirst(parts, " ");
    }
    if prefix == "" && message == "" {
      assert parts[0] == color + frame + ResetAll;
      JoinEnds(parts, " ");
    }
  }

  lemma LineClosing(prefix: string, message: string, color: string, frame: string, suffix: string,
                    elapsed: Option<string>, total: nat, current: int)
    ensures var line := Line(prefix, message, color, frame, suffix, elapsed, total, current);
      && (total > 0 ==>
            |line| > |Counter(current, total)| &&
            line[|line| - |Counter(current, total)| - 1..] == " " + Counter(current, total))
      && (prefix == "" && message == "" && suffix == "" && elapsed.None? && total == 0 ==>
            line == color + frame + ResetAll)
  {
    if total > 0 {
      LineEndsWithCounter(prefix, message, color, frame, suffix, elapsed, total, current);
    }
    if prefix == "" && message == "" && suffix == "" && elapsed.None? && total == 0 {
      assert LineParts(prefix, message, color, frame, suffix, elapsed, total, current) == [color + frame + ResetAll];
    }
  }

  lemma LineEndsWithCounter(prefix: string, message: string, color: string, frame: string, suffix: string,
                            elapsed: Option<string>, total: nat, current: int)
    requires total > 0
    ensures var line := Line(prefix, message, color, frame, suffix, elapsed, total, current);
      |line| > |Counter(current, total)| &&
      line[|line| - |Counter(current, total)| - 1..] == " " + Counter(current, total)
  {
    var parts := LineParts(prefix, message, color, frame, suffix, elapsed, total, current);
    assert |parts| >= 2 && parts[|parts| - 1] == Counter(current, total);
    JoinLast(parts, " ");
  }

  // ---------------------------------------------------------------------------
  // The animator
  // ---------------------------------------------------------------------------

  class Animator {
    // Configuration, fixed at construction.
    const style: Option<Style>   // None: a style object that is not a member
    const generator: Style       // the frame generator selected at construction
    const width: nat
    const message: string
    const color: string          // the resolved colour code
    const total: nat             // 0 stands for "no total" (None and 0 are both falsy)
    const prefix: string
    const suffix: string
    const showTime: bool

    // Animation state.
    var running: bool
    var current: int
    var frameNum: nat
    var startTime: Option<real>
    var log: seq<string>         // what has been written to the output file, write by write
    ghost var liveLoops: nat     // render loops started and not yet joined

    /** At most one render loop is alive, and one is alive exactly while running. */
    ghost predicate Valid()
      reads this
    {
      generator == GeneratorFor(style) && liveLoops == (if running then 1 else 0)
    }

    /** `__init__` once the style is resolved: configuration stored, state idle and empty. */
    constructor (style: Option<Style>, width: nat, message: string, colorName: string,
                 total: nat, prefix: string, suffix: string, showTime: bool)
      ensures Valid()
      ensures this.style == style && generator == GeneratorFor(style)
      ensures this.width == width && this.message == message && color == ResolveColor(colorName)
      ensures this.total == total && this.prefix == prefix && this.suffix == suffix
      ensures this.showTime == showTime
      ensures !running && current == 0 && frameNum == 0 && startTime == None && log == []
    {
      this.style := style;
      this.generator := GeneratorFor(style);
      this.width := width;
      this.message := message;
      this.color := ResolveColor(colorName);
      this.total := total;
      this.prefix := prefix;
      this.suffix := suffix;
      this.showTime := showTime;
      running := false;
      current := 0;
      frameNum := 0;
      startTime := None;
      log := [];
      liveLoops := 0;
    }

    /** `self._start_time` is truthy: a start time was recorded and it is not 0.0. */
    predicate HasStartTime()
      reads this
    {
      startTime.Some? && startTime.value != 0.0
    }

    /** The elapsed-time part `_format_output` adds, `elapsedText` standing for `f"{elapsed:.1f}"`. */
    function ElapsedPart(elapsedText: string): Option<string>
      reads this
    {
      if showTime && HasStartTime() then Some("[" + elapsedText + "s]") else None
    }

    /** Whether `_get_frame` passes the total and the current count to the generator. */
    predicate PassesCounts()
    {
      style == Some(ProgressBar) && total > 0
    }

    /** `_get_frame`: the generator's frame for the current frame number. */
    method GetFrame(e: Frames.Entropy) returns (frame: string)
      requires Valid() && e.Fits(width) && (generator == Bouncing ==> width > 0)
      ensures PassesCounts() ==> generator == ProgressBar && total > 0
      ensures frame == FrameOf(generator, PassesCounts(), frameNum, width, total, current, e)
    {
      if style == Some(ProgressBar) && total > 0 {
        frame := Frames.ProgressBar(frameNum, width, total, Some(current));
      } else {
        match generator
        case Spinner => frame := Frames.Spinner(frameNum, width);
        case Matrix => frame := Frames.Matrix(frameNum, width, e.draws);
        case Bouncing => frame := Frames.Bouncing(frameNum, width, e.swing);
        case Particles => frame := Frames.Particles(frameNum, width, e.draws);
        case LoadingDots => frame := Frames.LoadingDots(frameNum, width);
        case ProgressBar => frame := Frames.ProgressBar(frameNum, width, 100, None);
        case Blocks => frame := Frames.Blocks(frameNum, width);
        case Arrows => frame := Frames.Arrows(frameNum, width);
        case Pulse => frame := Frames.Pulse(frameNum, width, e.intensity);
        case Snake => frame := Frames.Snake(frameNum, width);
        case Fireworks => frame := Frames.Fireworks(frameNum, width, e.draws);
        case Dna => frame := Frames.Dna(frameNum, width);
        case Clock => frame := Frames.Clock(frameNum, width);
        case Binary => frame := Frames.Binary(frameNum, width, e.draws);
      }
    }

    /** `_format_output`: the parts collected one by one, then joined by single spaces. */
    method FormatOutput(frame: string, elapsedText: string) returns (line: string)
      ensures line == Line(prefix, message, color, frame, suffix, ElapsedPart(elapsedText), total, current)
    {
      var parts: seq<string> := [];
      if prefix != "" {
        parts := parts + [prefix];
      }
      assert parts == Present(prefix != "", prefix);
      if message != "" {
        parts := parts + [message];
      }
      assert parts == Present(prefix != "", prefix) + Present(message != "", message);
      parts := parts + [color + frame + ResetAll];
      ghost var opening := parts;
      if suffix != "" {
        parts := parts + [suffix];
      }
      assert parts == opening + Present(suffix != "", suffix);
      if showTime && HasStartTime() {
        parts := parts + ["[" + elapsedText + "s]"];
      }
      assert parts == opening + Present(suffix != "", suffix)
                      + Present(ElapsedPart(elapsedText).Some?, ElapsedPart(elapsedText).GetOr(""));
      ghost var middle := parts;
      if total > 0 {
        parts := parts + ["(" + IntToDecimal(current) + "/" + NatToDecimal(total) + ")"];
      }
      assert parts == middle + Present(total > 0, Counter(current, total));
      line := Join(parts, " ");
    }

    /**
     * One pass of `_animate_loop` while running: draw the frame, erase the line,
     * write the formatted line, advance the frame number.
     */
    method Tick(e: Frames.Entropy, elapsedText: string)
      requires Valid() && running && e.Fits(width) && (generator == Bouncing ==> width > 0)
      modifies this
      ensures Valid() && running
      ensures PassesCounts() ==> generator == ProgressBar && total > 0
      ensures log == old(log) + [ClearLine, Line(prefix, message, color,
                FrameOf(generator, PassesCounts(), old(frameNum), width, total, current, e),
                suffix, old(ElapsedPart(elapsedText)), total, current)]
      ensures frameNum == old(frameNum) + 1
      ensures current == old(current) && startTime == old(startTime) && liveLoops == old(liveLoops)
    {
      var frame := GetFrame(e);
      var line := FormatOutput(frame, elapsedText);
      log := log + [ClearLine];
      log := log + [line];
      frameNum := frameNum + 1;
    }

    /** `start`: when idle, record the start time and launch the render loop; otherwise nothing. */
    method Start(now: real)
      requires Valid()
      modifies this
      ensures Valid() && running && liveLoops == 1
      ensures startTime == if old(running) then old(startTime) else Some(now)
      ensures log == old(log) && frameNum == old(frameNum) && current == old(current)
    {
      if !running {
        running := true;
        startTime := Some(now);
        liveLoops := liveLoops + 1;
      }
    }

    /**
     * `stop`: when running, end the render loop, erase the line and write the final
     * message (if one is given and not empty) with a newline; when idle, nothing.
     */
    method Stop(finalMessage: Option<string>)
      requires Valid()
      modifies this
      ensures Valid() && !running && liveLoops == 0
      ensures log == old(log) + StopWrites(old(running), finalMessage)
      ensures frameNum == old(frameNum) && current == old(current) && startTime == old(startTime)
    {
      if running {
        running := false;
        liveLoops := liveLoops - 1;
        log := log + [ClearLine];
        if finalMessage.Some? && finalMessage.value != "" {
          log := log + [finalMessage.value + "\n"];
        }
      }
    }

    /**
     * `update(n)`: add n to the current count; once a total is set and the count
     * reaches it, stop with the completion message (which writes only if running).
     */
    method Update(n: int)
      requires Valid()
      modifies this
      ensures Valid()
      ensures current == old(current) + n
      ensures running == (old(running) && !(total > 0 && current >= total))
      ensures log == old(log) +
        (if old(running) && total > 0 && current >= total then [ClearLine, CompleteMessage + "\n"] else [])
      ensures frameNum == old(frameNum) && startTime == old(startTime)
    {
      current := current + n;
      if total > 0 && current >= total {
        Stop(Some(CompleteMessage));
      }
    }

    /** `__enter__`: start the animation. */
    method Enter(now: real)
      requires Valid()
      modifies this
      ensures Valid() && running
      ensures startTime == if old(running) then old(startTime) else Some(now)
      ensures log == old(log) && frameNum == old(frameNum) && current == old(current)
    {
      Start(now);
    }

    /**
     * `__exit__`: stop with the completion message when no exception is passing
     * through and the error message when one is; never suppress the exception.
     */
    method Exit(exceptionRaised: bool) returns (suppress: bool)
      requires Valid()
      modifies this
      ensures Valid() && !running && !suppress
      ensures log == old(log) +
        StopWrites(old(running), Some(if exceptionRaised then ErrorMessage else CompleteMessage))
      ensures frameNum == old(frameNum) && current == old(current) && startTime == old(startTime)
    {
      if !exceptionRaised {
        Stop(Some(CompleteMessage));
      } else {
        Stop(Some(ErrorMessage));
      }
      suppress := false;
    }

    /**
     * `iterate(source)` as its consumer drives it. The consumer asks for the next item
     * `pulls` times and then lets go of the generator (closing it); the source yields
     * its items and then ends, or raises when `sourceRaises`. The body starts at the
     * first request; each item is yielded, and when the consumer asks again the count
     * is updated by one (if a total is set); the `finally` clause stops the animation
     * however the body is left. A generator never asked for an item never runs.
     */
    method Iterate<T>(source: seq<T>, sourceRaises: bool, pulls: nat, now: real)
      returns (yielded: seq<T>, outcome: IterationEnd)
      requires Valid()
      modifies this
      ensures Valid()
      ensures pulls == 0 ==>
        yielded == [] && outcome == NeverStarted &&
        running == old(running) && log == old(log) && current == old(current) &&
        startTime == old(startTime)
      ensures pulls > 0 ==>
        yielded == source[..Min(pulls, |source|)] &&
        outcome == (if pulls <= |source| then Closed else if sourceRaises then Raised else Exhausted) &&
        !running &&
        current == old(current) + (if total > 0 then Min(pulls - 1, |source|) else 0) &&
        log == old(log) + [ClearLine, CompleteMessage + "\n"] &&
        startTime == if old(running) then old(startTime) else Some(now)
      ensures frameNum == old(frameNum)
    {
      yielded := [];
      if pulls == 0 {
        outcome := NeverStarted;
        return;
      }
      Start(now);
      outcome := Exhausted;
      var i := 0;
      while i < |source|
        invariant 0 <= i <= |source| && i < pulls
        invariant Valid() && outcome == Exhausted
        invariant yielded == source[..i]
        invariant current == old(current) + (if total > 0 then i else 0)
        invariant running ==> log == old(log)
        invariant !running ==> log == old(log) + [ClearLine, CompleteMessage + "\n"]
        invariant frameNum == old(frameNum)
        invariant startTime == if old(running) then old(startTime) else Some(now)
      {
        yielded := yielded + [source[i]];
        if i + 1 == pulls {
          outcome := Closed;
          break;
        }
        if total > 0 {
          Update(1);
        }
        i := i + 1;
      }
      if outcome != Closed && sourceRaises {
        outcome := Raised;
      }
      Stop(Some(CompleteMessage));
    }
  }

  /** What `stop` writes: the erase sequence and, if given and not empty, the final message. */
  function StopWrites(wasRunning: bool, finalMessage: Option<string>): (writes: seq<string>)
    ensures |writes| <= 2 && (writes == [] <==> !wasRunning)
    ensures wasRunning ==> writes[0] == ClearLine
    ensures |writes| == 2 <==> wasRunning && finalMessage.Some? && finalMessage.value != ""
  {
    if !wasRunning then []
    else [ClearLine] + (if finalMessage.Some? && finalMessage.value != "" then [finalMessage.value + "\n"] else [])
  }

  /** How the body of `iterate` was left. */
  datatype IterationEnd =
    | NeverStarted  // no item was ever requested
    | Closed        // the consumer stopped asking while the generator waited at a yield
    | Exhausted     // the source ran out
    | Raised        // the source raised; the exception goes on to the consumer

  /** Why construction raised. */
  datatype ConstructionError =
    | UnknownStyle(message: string) // the ValueError for a style name that is no member's
    | UnhashableStyle               // the TypeError of the generator-table lookup

  /**
   * `Animator(...)`: the ValueError for an unknown style name, the TypeError the
   * generator-table lookup raises for an unhashable style object, or a fresh idle
   * animator with the resolved style and colour.
   */
  method NewAnimator(style: StyleArg, width: nat, message: string, colorName: string,
                     total: nat, prefix: string, suffix: string, showTime: bool)
    returns (r: Result<Animator, ConstructionError>)
    ensures ResolveStyle(style).Failure? ==> r == Failure(UnknownStyle(ResolveStyle(style).error))
    ensures style == Other(false) ==> r == Failure(UnhashableStyle)
    ensures ResolveStyle(style).Success? && style != Other(false) ==>
      r.Success? && fresh(r.value) && r.value.Valid() &&
      r.value.style == ResolveStyle(style).value && r.value.generator == GeneratorFor(r.value.style) &&
      r.value.width == width && r.value.message == message && r.value.color == ResolveColor(colorName) &&
      r.value.total == total && r.value.prefix == prefix && r.value.suffix == suffix &&
      r.value.showTime == showTime &&
      !r.value.running && r.value.current == 0 && r.value.frameNum == 0 &&
      r.value.startTime == None && r.value.log == []
  {
    match ResolveStyle(style)
    case Failure(err) =>
      r := Failure(UnknownStyle(err));
    case Success(s) =>
      if style == Other(false) {
        r := Failure(UnhashableStyle);
      } else {
        var a := new Animator(s, width, message, colorName, total, prefix, suffix, showTime);
        r := Success(a);
      }
  }

  /**
   * Calling `update()` once per step, at least once, on a running animator until the
   * count has reached the total: the animation stops by itself, exactly one completion
   * message is written, and later updates write nothing. The count may start anywhere,
   * below zero or already past the total.
   */
  method UpdateEachStep(a: Animator, steps: nat)
    requires a.Valid() && a.running && a.total > 0 && steps > 0 && a.current + steps >= a.total
    modifies a
    ensures a.Valid() && !a.running && a.current == old(a.current) + steps
    ensures a.log == old(a.log) + [ClearLine, CompleteMessage + "\n"]
    ensures a.frameNum == old(a.frameNum) && a.startTime == old(a.startTime)
  {
    var i := 0;
    while i < steps
      invariant 0 <= i <= steps && a.Valid() && a.current == old(a.current) + i
      invariant a.running <==> (i == 0 || a.current < a.total)
      invariant a.log == old(a.log) + (if a.running then [] else [ClearLine, CompleteMessage + "\n"])
      invariant a.frameNum == old(a.frameNum) && a.startTime == old(a.startTime)
    {
      a.Update(1);
      i := i + 1;
    }
  }
}
