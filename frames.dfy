/**
 * The frame generators of `AnimationFrames`: each maps a frame number and a width
 * (and, for the progress bar, a total and a current count) to the text of one frame.
 *
 * Glyphs are the code points of the tables in `frames.py`. What the generators draw from
 * `random` and compute with `math.sin` is passed in (a `Draw` per cell, a `swing`
 * or an `intensity` in [0, 1]), so every generator here is deterministic.
 */
module Frames {
  import opened Wrappers
  import opened Text
  import opened Arith

  // ---------------------------------------------------------------------------
  // Glyph tables
  // ---------------------------------------------------------------------------

  const Blank: char := ' '
  const SpinnerGlyphs: string := "\U{280B}\U{2819}\U{2839}\U{2838}\U{283C}\U{2834}\U{2826}\U{2827}\U{2807}\U{280F}"
  const MatrixGlyphs: string := "0123456789ABCDEF\U{30A2}\U{30A4}\U{30A6}\U{30A8}\U{30AA}\U{30AB}\U{30AD}\U{30AF}\U{30B1}\U{30B3}"
  const Ball: char := '\U{25CF}'
  const ParticleGlyphs: string := "\U{B7}\U{2217}\U{2726}\U{2727}\U{2736}\U{2737}\U{2738}\U{2739}\U{2605}\U{2606}"
  const DotPatterns: seq<string> := ["   ", ".  ", ".. ", "..."]
  const BarFull: char := '\U{2588}'
  const BarEmpty: char := '\U{2591}'
  const BlockGlyphs: string := "\U{2596}\U{2598}\U{259D}\U{2597}"
  const ArrowGlyphs: string := "\U{2192}\U{2197}\U{2191}\U{2196}\U{2190}\U{2199}\U{2193}\U{2198}"
  const PulseGlyphs: string := " \U{2591}\U{2592}\U{2593}\U{2588}"
  const SnakeLength: nat := 8
  const SnakeHead: char := '\U{25C9}'
  const SnakeBody: char := '\U{25CB}'
  const FireworkGlyphs: string := "\U{2726}\U{2727}\U{2605}\U{2606}\U{2736}\U{2737}\U{2738}\U{2739}"
  const DnaGlyphs: string := "\U{2571}\U{2572}"
  const ClockGlyphs: string := "\U{1F550}\U{1F551}\U{1F552}\U{1F553}\U{1F554}\U{1F555}\U{1F556}\U{1F557}\U{1F558}\U{1F559}\U{1F55A}\U{1F55B}"
  const BinaryGlyphs: string := "01"

  /** Probabilities with which the random styles put a glyph (rather than a blank) in a cell. */
  const MatrixDensity: real := 0.3
  const ParticleDensity: real := 0.1
  const FireworkDensity: real := 0.05
  const BinaryDensity: real := 0.3

  predicate Distinct(s: string)
  {
    forall i, j :: 0 <= i < j < |s| ==> s[i] != s[j]
  }

  /** No two entries of a cyclic table coincide, and no random alphabet holds a blank. */
  lemma GlyphTables()
    ensures Distinct(SpinnerGlyphs) && Distinct(ClockGlyphs) && Distinct(ArrowGlyphs)
    ensures Distinct(BlockGlyphs) && Distinct(DnaGlyphs)
    ensures Blank !in MatrixGlyphs && Blank !in ParticleGlyphs
    ensures Blank !in FireworkGlyphs && Blank !in BinaryGlyphs
  {
  }

  // ---------------------------------------------------------------------------
  // The values drawn from random / math.sin for one frame
  // ---------------------------------------------------------------------------

  /**
   * One cell's draws in the random styles: `roll` is what `random.random()` returned
   * and `pick` the index `random.choice` (or `random.randint(0, 1)`) would select.
   */
  datatype Draw = Draw(roll: real, pick: nat)

  /**
   * Everything one frame takes from outside the frame number: a draw per cell for the
   * random styles, `|sin(0.2 n)|` for bouncing and `|sin(0.3 n)|` for pulse.
   */
  datatype Entropy = Entropy(draws: seq<Draw>, swing: real, intensity: real) {
    predicate Fits(width: nat)
    {
      |draws| == width && 0.0 <= swing <= 1.0 && 0.0 <= intensity <= 1.0
    }
  }

  // ---------------------------------------------------------------------------
  // spinner, clock, loading_dots, arrows: a table indexed by frame_num modulo its size
  // ---------------------------------------------------------------------------

  /** spinner: the frame_num-th glyph of a ten-step cycle, then " Processing...". */
  function Spinner(frameNum: nat, width: nat): (r: string)
    ensures |r| == 15 && r[1..] == " Processing..."
  {
    [SpinnerGlyphs[frameNum % |SpinnerGlyphs|]] + " Processing..."
  }

  /** spinner has period 10, ignores the width, and no shorter period. */
  lemma SpinnerCycle(frameNum: nat, width: nat, other: nat)
    ensures Spinner(frameNum + 10, width) == Spinner(frameNum, width)
    ensures Spinner(frameNum, width) == Spinner(frameNum % 10, other)
    ensures frameNum % 10 != other % 10 ==> Spinner(frameNum, width) != Spinner(other, width)
  {
    GlyphTables();
    if frameNum % 10 != other % 10 {
      assert Spinner(frameNum, width)[0] != Spinner(other, width)[0];
    }
  }

  /** clock: the frame_num-th of twelve clock faces, then " Processing...". */
  function Clock(frameNum: nat, width: nat): (r: string)
    ensures |r| == 15 && r[1..] == " Processing..."
  {
    [ClockGlyphs[frameNum % |ClockGlyphs|]] + " Processing..."
  }

  /** clock has period 12, ignores the width, and no shorter period. */
  lemma ClockCycle(frameNum: nat, width: nat, other: nat)
    ensures Clock(frameNum + 12, width) == Clock(frameNum, width)
    ensures Clock(frameNum, width) == Clock(frameNum % 12, other)
    ensures frameNum % 12 != other % 12 ==> Clock(frameNum, width) != Clock(other, width)
  {
    GlyphTables();
    if frameNum % 12 != other % 12 {
      assert Clock(frameNum, width)[0] != Clock(other, width)[0];
    }
  }

  /** loading_dots: "Loading" followed by a three-cell pattern of 0 to 3 dots. */
  function LoadingDots(frameNum: nat, width: nat): (r: string)
    ensures |r| == 10 && r[..7] == "Loading"
    ensures forall i :: 7 <= i < 10 ==> r[i] in ". "
  {
    "Loading" + DotPatterns[frameNum % |DotPatterns|]
  }

  /** loading_dots has period 4, is always ten characters, and shows frame_num mod 4 dots. */
  lemma LoadingDotsCycle(frameNum: nat, width: nat)
    ensures LoadingDots(frameNum + 4, width) == LoadingDots(frameNum, width)
    ensures |LoadingDots(frameNum, width)| == 10
    ensures LoadingDots(frameNum, width)[..7] == "Loading"
    ensures forall i :: 7 <= i < 10 ==>
      (LoadingDots(frameNum, width)[i] == '.' <==> i < 7 + frameNum % 4)
  {
  }

  /** How many copies of the arrow glyph stand on each side of " Processing ". */
  function ArrowRun(frameNum: nat): nat
  {
    frameNum % 5 + 1
  }

  /** arrows: the frame_num-th of eight arrows, repeated on both sides of " Processing ". */
  function Arrows(frameNum: nat, width: nat): (r: string)
    ensures |r| == 2 * ArrowRun(frameNum) + 12 && 14 <= |r| <= 22
    ensures r[ArrowRun(frameNum)..ArrowRun(frameNum) + 12] == " Processing "
  {
    var glyph := ArrowGlyphs[frameNum % |ArrowGlyphs|];
    Repeat(glyph, ArrowRun(frameNum)) + " Processing " + Repeat(glyph, ArrowRun(frameNum))
  }

  /**
   * arrows repeats its glyph 1 to 5 times on each side, so the frame is 14 to 22
   * characters long, and it has period 40 (8 glyphs times 5 run lengths).
   */
  lemma ArrowsShape(frameNum: nat, width: nat)
    ensures 1 <= ArrowRun(frameNum) <= 5
    ensures |Arrows(frameNum, width)| == 2 * ArrowRun(frameNum) + 12
    ensures forall i :: 0 <= i < ArrowRun(frameNum) ==> Arrows(frameNum, width)[i] == ArrowGlyphs[frameNum % 8]
    ensures forall i :: |Arrows(frameNum, width)| - ArrowRun(frameNum) <= i < |Arrows(frameNum, width)| ==>
      Arrows(frameNum, width)[i] == ArrowGlyphs[frameNum % 8]
    ensures Arrows(frameNum + 40, width) == Arrows(frameNum, width)
  {
    assert (frameNum + 40) % 8 == frameNum % 8 && (frameNum + 40) % 5 == frameNum % 5;
  }

  // ---------------------------------------------------------------------------
  // progress_bar
  // ---------------------------------------------------------------------------

  /** Python's `int(a / b)` for b > 0: the exact quotient truncated toward zero. */
  function TruncDiv(a: int, b: int): (q: int)
    requires b > 0
    ensures a >= 0 ==> 0 <= q && q * b <= a < q * b + b
    ensures a < 0 ==> q <= 0 && q * b - b < a <= q * b
  {
    if a >= 0 then QuotientBounds(a, b); a / b
    else QuotientBounds(-a, b); -((-a) / b)
  }

  /** The Euclidean quotient of a non-negative a is the largest q with q * b <= a. */
  lemma QuotientBounds(a: nat, b: int)
    requires b > 0
    ensures 0 <= a / b && (a / b) * b <= a < (a / b) * b + b
  {
    assert a == (a / b) * b + a % b;
  }

  /** The count progress_bar shows when no current count is given: (2 frame_num) mod (total + 1). */
  function SyntheticProgress(frameNum: nat, total: nat): (current: nat)
    ensures current <= total
  {
    (2 * frameNum) % (total + 1)
  }

  /** The bar interior: `filled` full cells, then `width - filled` empty cells. */
  function BarCells(width: nat, filled: int): string
  {
    Repeat(BarFull, filled) + Repeat(BarEmpty, width - filled)
  }

  /** progress_bar: "[" + bar + "] " + percentage + "%". */
  function ProgressBar(frameNum: nat, width: nat, total: nat, current: Option<int>): (r: string)
    requires total > 0
    ensures |r| >= 5 && r[0] == '[' && r[|r| - 1] == '%'
  {
    var count := if current.None? then SyntheticProgress(frameNum, total) else current.value;
    var filled := TruncDiv(width * count, total);
    var percentage := TruncDiv(100 * count, total);
    "[" + BarCells(width, filled) + "] " + IntToDecimal(percentage) + "%"
  }

  /** With 0 <= filled <= width the interior is exactly width cells, full ones first. */
  lemma BarCellsLayout(width: nat, filled: int)
    requires 0 <= filled <= width
    ensures |BarCells(width, filled)| == width
    ensures forall i :: 0 <= i < width ==>
      BarCells(width, filled)[i] == if i < filled then BarFull else BarEmpty
  {
  }

  /**
   * For any count the interior is `width` cells only while 0 <= filled <= width: an
   * overfull count draws `filled` full cells and a negative one `width - filled` empty
   * cells.
   */
  lemma BarCellsLength(width: nat, filled: int)
    ensures |BarCells(width, filled)| ==
      if filled > width then filled else if filled < 0 then width - filled else width
    ensures filled > width ==> forall i :: 0 <= i < |BarCells(width, filled)| ==> BarCells(width, filled)[i] == BarFull
    ensures filled < 0 ==> forall i :: 0 <= i < |BarCells(width, filled)| ==> BarCells(width, filled)[i] == BarEmpty
  {
  }

  /** A count of twice the total on a 10-cell bar draws 20 full cells and "200%". */
  lemma ProgressBarOverfull(frameNum: nat)
    ensures ProgressBar(frameNum, 10, 10, Some(20)) == "[" + Repeat(BarFull, 20) + "] 200%"
  {
    assert TruncDiv(10 * 20, 10) == 20;
    assert TruncDiv(100 * 20, 10) == 200;
    assert BarCells(10, 20) == Repeat(BarFull, 20);
    assert NatToDecimal(200) == "200" by {
      assert NatToDecimal(20) == "20" by {
        assert NatToDecimal(2) == "2";
      }
    }
  }

  /**
   * The bar interior is exactly `width` cells just when the truncated fill lies in
   * [0, width], which happens exactly when -total < width * count < (width + 1) * total:
   * a range a little wider than counts in [0, total].
   */
  lemma {:induction false} BarWidthExactly(width: nat, total: nat, count: int)
    requires total > 0
    ensures |BarCells(width, TruncDiv(width * count, total))| == width
        <==> 0 < width * count + total && width * count < (width + 1) * total
  {
    var a := width * count;
    var q := TruncDiv(a, total);
    BarCellsLength(width, q);
    if a >= 0 {
      if q <= width {
        MulNonneg(width - q, total);
        assert (width + 1) * total == q * total + total + (width - q) * total;
      } else {
        MulNonneg(q - width - 1, total);
        assert q * total == (width + 1) * total + (q - width - 1) * total;
      }
    } else {
      if q < 0 {
        MulNonneg(-q - 1, total);
        assert -(q * total) == total + (-q - 1) * total;
      }
    }
  }

  /** Width 10, total 100: counts 105 and -5 still draw a 10-cell interior. */
  lemma BarWidthNearBounds()
    ensures |BarCells(10, TruncDiv(10 * 105, 100))| == 10
    ensures |BarCells(10, TruncDiv(10 * -5, 100))| == 10
  {
    BarWidthExactly(10, 100, 105);
    BarWidthExactly(10, 100, -5);
  }

  lemma FloorQuotientBounded(width: nat, count: nat, total: nat)
    requires 0 < total && count <= total
    ensures 0 <= width * count / total <= width
  {
    var a := width * count;
    MulNonneg(width, total - count);
    assert width * (total - count) == width * total - a;
    QuotientBounds(a, total);
    var q := a / total;
    assert (q - width - 1) * total == q * total - width * total - total;
    if q > width {
      MulNonneg(q - width - 1, total);
    }
  }

  /**
   * For 0 <= current <= total the bar has floor(width * current / total) full cells
   * followed by empty ones, width cells in all, and the percentage is
   * floor(100 * current / total), between 0 and 100.
   */
  lemma ProgressBarLayout(frameNum: nat, width: nat, total: nat, current: nat)
    requires 0 < total && current <= total
    ensures 0 <= width * current / total <= width
    ensures 0 <= 100 * current / total <= 100
    ensures ProgressBar(frameNum, width, total, Some(current)) ==
      "[" + BarCells(width, width * current / total) + "] " + NatToDecimal(100 * current / total) + "%"
    ensures |BarCells(width, width * current / total)| == width
  {
    FloorQuotientBounded(width, current, total);
    FloorQuotientBounded(100, current, total);
    BarCellsLayout(width, width * current / total);
  }

  /** With no current count the synthetic one lies in [0, total], so the layout above applies. */
  lemma ProgressBarSynthetic(frameNum: nat, width: nat, total: nat)
    requires 0 < total
    ensures ProgressBar(frameNum, width, total, None)
         == ProgressBar(frameNum, width, total, Some(SyntheticProgress(frameNum, total)))
    ensures SyntheticProgress(frameNum, total) <= total
  {
  }

  /** current = 0 draws an empty bar at 0%. */
  lemma ProgressBarEmpty(frameNum: nat, width: nat, total: nat)
    requires 0 < total
    ensures ProgressBar(frameNum, width, total, Some(0)) == "[" + Repeat(BarEmpty, width) + "] 0%"
  {
    assert TruncDiv(width * 0, total) == 0;
    assert TruncDiv(100 * 0, total) == 0;
    assert BarCells(width, 0) == Repeat(BarEmpty, width);
  }

  /** current = total draws a full bar at 100%. */
  lemma ProgressBarFull(frameNum: nat, width: nat, total: nat)
    requires 0 < total
    ensures ProgressBar(frameNum, width, total, Some(total)) == "[" + Repeat(BarFull, width) + "] 100%"
  {
    MulDivCancel(width, total);
    MulDivCancel(100, total);
    assert TruncDiv(width * total, total) == width;
    assert TruncDiv(100 * total, total) == 100;
    assert BarCells(width, width) == Repeat(BarFull, width);
    assert IntToDecimal(100) == "100" by {
      assert NatToDecimal(10) == "10";
    }
  }

  /** Half of 100 on a 50-cell bar: 25 full cells, 25 empty ones, "50%". */
  lemma ProgressBarHalfway(frameNum: nat)
    ensures ProgressBar(frameNum, 50, 100, Some(50)) == "[" + Repeat(BarFull, 25) + Repeat(BarEmpty, 25) + "] 50%"
  {
  }

  // ---------------------------------------------------------------------------
  // blocks, dna: cell i shows table[(i + frame_num) mod |table|]
  // ---------------------------------------------------------------------------

  ghost function CyclicRow(table: string, frameNum: nat, width: nat): (r: string)
    requires |table| > 0
    ensures |r| == width && forall i :: 0 <= i < width ==> r[i] in table
  {
    seq(width, i requires 0 <= i < width => table[(i + frameNum) % |table|])
  }

  /** The loop shared by blocks and dna: one table entry appended per cell. */
  method BuildCyclicRow(table: string, frameNum: nat, width: nat) returns (r: string)
    requires |table| > 0
    ensures r == CyclicRow(table, frameNum, width)
  {
    r := [];
    for i := 0 to width
      invariant |r| == i
      invariant forall k :: 0 <= k < i ==> r[k] == table[(k + frameNum) % |table|]
    {
      r := r + [table[(i + frameNum) % |table|]];
    }
  }

  /** blocks: width quadrant glyphs, cell i being glyph (i + frame_num) mod 4. */
  method Blocks(frameNum: nat, width: nat) returns (r: string)
    ensures r == CyclicRow(BlockGlyphs, frameNum, width)
  {
    r := BuildCyclicRow(BlockGlyphs, frameNum, width);
  }

  /** dna: width diagonal strokes, cell i being stroke (i + frame_num) mod 2. */
  method Dna(frameNum: nat, width: nat) returns (r: string)
    ensures r == CyclicRow(DnaGlyphs, frameNum, width)
  {
    r := BuildCyclicRow(DnaGlyphs, frameNum, width);
  }

  /** A cyclic row is exactly width cells and repeats after |table| frames. */
  lemma CyclicRowPeriod(table: string, frameNum: nat, width: nat)
    requires |table| > 0
    ensures |CyclicRow(table, frameNum, width)| == width
    ensures CyclicRow(table, frameNum + |table|, width) == CyclicRow(table, frameNum, width)
  {
    var a := CyclicRow(table, frameNum + |table|, width);
    var b := CyclicRow(table, frameNum, width);
    assert |a| == |b| == width;
    forall i | 0 <= i < width
      ensures a[i] == b[i]
    {
      ModShift(i + frameNum, |table|);
    }
  }

  /** Each frame of a cyclic row is the previous one scrolled left by one cell. */
  lemma CyclicRowScrolls(table: string, frameNum: nat, width: nat)
    requires |table| > 0
    ensures CyclicRow(table, frameNum + 1, width) == CyclicRow(table, frameNum, width + 1)[1..]
  {
    var c := CyclicRow(table, frameNum + 1, width);
    var d := CyclicRow(table, frameNum, width + 1)[1..];
    assert |c| == |d| == width;
    forall i | 0 <= i < width
      ensures c[i] == d[i]
    {
      assert i + (frameNum + 1) == (i + 1) + frameNum;
    }
  }

  // ---------------------------------------------------------------------------
  // matrix, particles, fireworks, binary: a glyph with probability p, else a blank
  // ---------------------------------------------------------------------------

  function SparseCell(draw: Draw, density: real, alphabet: string): char
    requires |alphabet| > 0
  {
    if draw.roll < density then alphabet[draw.pick % |alphabet|] else Blank
  }

  ghost function SparseRow(alphabet: string, density: real, draws: seq<Draw>, width: nat): (r: string)
    requires |alphabet| > 0 && |draws| == width
    ensures |r| == width && forall i :: 0 <= i < width ==> r[i] == Blank || r[i] in alphabet
  {
    seq(width, i requires 0 <= i < width => SparseCell(draws[i], density, alphabet))
  }

  /** The loop shared by the random styles: one cell appended per draw. */
  method BuildSparseRow(alphabet: string, density: real, draws: seq<Draw>, width: nat) returns (r: string)
    requires |alphabet| > 0 && |draws| == width
    ensures r == SparseRow(alphabet, density, draws, width)
  {
    r := [];
    for i := 0 to width
      invariant |r| == i
      invariant forall k :: 0 <= k < i ==> r[k] == SparseCell(draws[k], density, alphabet)
    {
      if draws[i].roll < density {
        r := r + [alphabet[draws[i].pick % |alphabet|]];
      } else {
        r := r + [Blank];
      }
    }
  }

  /**
   * A sparse row is exactly width cells; cell i holds a glyph of the alphabet when
   * its roll is below the density and a blank otherwise.
   */
  lemma SparseRowCells(alphabet: string, density: real, draws: seq<Draw>, width: nat)
    requires |alphabet| > 0 && |draws| == width && Blank !in alphabet
    ensures |SparseRow(alphabet, density, draws, width)| == width
    ensures forall i :: 0 <= i < width ==>
      (SparseRow(alphabet, density, draws, width)[i] in alphabet <==> draws[i].roll < density) &&
      (SparseRow(alphabet, density, draws, width)[i] == Blank <==> density <= draws[i].roll)
  {
  }

  /** matrix: hex digits and katakana on about 30% of the cells. */
  method Matrix(frameNum: nat, width: nat, draws: seq<Draw>) returns (r: string)
    requires |draws| == width
    ensures |r| == width
    ensures forall i :: 0 <= i < width ==> r[i] == Blank || r[i] in MatrixGlyphs
    ensures r == SparseRow(MatrixGlyphs, MatrixDensity, draws, width)
  {
    r := BuildSparseRow(MatrixGlyphs, MatrixDensity, draws, width);
  }

  /** particles: star-like glyphs on about 10% of the cells. */
  method Particles(frameNum: nat, width: nat, draws: seq<Draw>) returns (r: string)
    requires |draws| == width
    ensures |r| == width
    ensures forall i :: 0 <= i < width ==> r[i] == Blank || r[i] in ParticleGlyphs
    ensures r == SparseRow(ParticleGlyphs, ParticleDensity, draws, width)
  {
    r := BuildSparseRow(ParticleGlyphs, ParticleDensity, draws, width);
  }

  /** fireworks: star glyphs on about 5% of the cells. */
  method Fireworks(frameNum: nat, width: nat, draws: seq<Draw>) returns (r: string)
    requires |draws| == width
    ensures |r| == width
    ensures forall i :: 0 <= i < width ==> r[i] == Blank || r[i] in FireworkGlyphs
    ensures r == SparseRow(FireworkGlyphs, FireworkDensity, draws, width)
  {
    r := BuildSparseRow(FireworkGlyphs, FireworkDensity, draws, width);
  }

  /** binary: `str(random.randint(0, 1))` on about 30% of the cells. */
  method Binary(frameNum: nat, width: nat, draws: seq<Draw>) returns (r: string)
    requires |draws| == width
    ensures |r| == width
    ensures forall i :: 0 <= i < width ==> r[i] in " 01"
    ensures r == SparseRow(BinaryGlyphs, BinaryDensity, draws, width)
  {
    r := BuildSparseRow(BinaryGlyphs, BinaryDensity, draws, width);
  }

  // ---------------------------------------------------------------------------
  // bouncing and pulse: positions derived from |sin|, passed in as reals in [0, 1]
  // ---------------------------------------------------------------------------

  /** `int(abs(sin(0.2 n) * (width - 1)))` with swing = |sin(0.2 n)|. */
  function BouncePosition(width: nat, swing: real): (position: nat)
    requires width > 0 && 0.0 <= swing <= 1.0
    ensures position < width
  {
    var span := (width - 1) as real;
    ScaleWithin(span, swing);
    (span * swing).Floor
  }

  /** bouncing: a row of blanks with the ball at the bounce position. */
  function Bouncing(frameNum: nat, width: nat, swing: real): (r: string)
    requires width > 0 && 0.0 <= swing <= 1.0
    ensures |r| == width && r[BouncePosition(width, swing)] == Ball
  {
    Repeat(Blank, width)[BouncePosition(width, swing) := Ball]
  }

  /** bouncing is exactly width cells with exactly one ball. */
  lemma BouncingCells(frameNum: nat, width: nat, swing: real)
    requires width > 0 && 0.0 <= swing <= 1.0
    ensures |Bouncing(frameNum, width, swing)| == width
    ensures forall i :: 0 <= i < width ==>
      (Bouncing(frameNum, width, swing)[i] == Ball <==> i == BouncePosition(width, swing)) &&
      (Bouncing(frameNum, width, swing)[i] != Ball ==> Bouncing(frameNum, width, swing)[i] == Blank)
  {
  }

  /** The number of glyph cells pulse draws: int(width * |sin(0.3 n)|). */
  function PulseSpan(width: nat, intensity: real): (span: nat)
    requires 0.0 <= intensity <= 1.0
    ensures span <= width
  {
    ScaleWithin(width as real, intensity);
    (width as real * intensity).Floor
  }

  /** Scaling a non-negative length by a factor in [0, 1] stays within [0, length]. */
  lemma ScaleWithin(x: real, f: real)
    requires 0.0 <= x && 0.0 <= f <= 1.0
    ensures 0.0 <= x * f <= x
  {
    assert x - x * f == x * (1.0 - f);
  }

  /** The shade pulse draws: entry int(4 |sin(0.3 n)|) of " ░▒▓█". */
  function PulseGlyph(intensity: real): (glyph: char)
    requires 0.0 <= intensity <= 1.0
    ensures glyph in PulseGlyphs
  {
    var index := (intensity * 4.0).Floor;
    assert 0 <= index <= 4;
    PulseGlyphs[index]
  }

  /** pulse: the shade repeated over the span, with (width - span) // 2 blanks on each side. */
  function Pulse(frameNum: nat, width: nat, intensity: real): (r: string)
    requires 0.0 <= intensity <= 1.0
    ensures |r| <= width
    ensures forall i :: 0 <= i < |r| ==> r[i] == Blank || r[i] == PulseGlyph(intensity)
  {
    var span := PulseSpan(width, intensity);
    var padding := (width - span) / 2;
    Repeat(Blank, padding) + Repeat(PulseGlyph(intensity), span) + Repeat(Blank, padding)
  }

  /**
   * pulse is width cells when width - span is even and one cell short when it is odd:
   * the floor division drops the odd blank.
   */
  lemma PulseLength(frameNum: nat, width: nat, intensity: real)
    requires 0.0 <= intensity <= 1.0
    ensures |Pulse(frameNum, width, intensity)| == width - (width - PulseSpan(width, intensity)) % 2
    ensures width - 1 <= |Pulse(frameNum, width, intensity)| <= width
  {
  }

  /** At width 40 an intensity of 0.975 spans 39 cells and leaves a 39-character frame. */
  lemma PulseShortFrame()
    ensures |Pulse(0, 40, 0.975)| == 39
  {
    assert PulseSpan(40, 0.975) == 39;
  }

  // ---------------------------------------------------------------------------
  // snake: a head and seven body cells moving right, wrapping after width + 8 frames
  // ---------------------------------------------------------------------------

  function SnakePosition(frameNum: nat, width: nat): nat
  {
    frameNum % (width + SnakeLength)
  }

  /** What the snake whose head is at `position` leaves in cell j. */
  function SnakeCell(position: int, j: int): char
  {
    var behind := position - j;
    if behind == 0 then SnakeHead
    else if 1 <= behind < SnakeLength then SnakeBody
    else Blank
  }

  ghost function SnakeFrame(frameNum: nat, width: nat): (r: string)
    ensures |r| == width && forall j :: 0 <= j < width ==> r[j] in {Blank, SnakeHead, SnakeBody}
  {
    seq(width, j requires 0 <= j < width => SnakeCell(SnakePosition(frameNum, width), j))
  }

  /** snake: the cells position, position - 1, ..., position - 7 that lie in the row are drawn in place. */
  method Snake(frameNum: nat, width: nat) returns (r: string)
    ensures r == SnakeFrame(frameNum, width)
  {
    var position := frameNum % (width + SnakeLength);
    var output := new char[width](_ => Blank);
    for i := 0 to SnakeLength
      invariant forall j :: 0 <= j < width ==>
        output[j] == if 0 <= position - j < i then SnakeCell(position, j) else Blank
    {
      var pos := position - i;
      if 0 <= pos < width {
        if i == 0 {
          output[pos] := SnakeHead;
        } else {
          output[pos] := SnakeBody;
        }
      }
    }
    r := output[..];
  }

  /**
   * A snake frame is exactly width cells. The head is drawn once, at the position,
   * when the position lies in the row, and not at all otherwise; body cells lie only
   * in the seven cells behind the head, so there are at most seven; all else is blank.
   */
  lemma SnakeCells(frameNum: nat, width: nat)
    ensures |SnakeFrame(frameNum, width)| == width
    ensures forall j :: 0 <= j < width ==>
      (SnakeFrame(frameNum, width)[j] == SnakeHead <==> j == SnakePosition(frameNum, width))
    ensures Count(SnakeFrame(frameNum, width), SnakeHead) ==
      if SnakePosition(frameNum, width) < width then 1 else 0
    ensures forall j :: 0 <= j < width ==>
      (SnakeFrame(frameNum, width)[j] == SnakeBody <==>
        SnakePosition(frameNum, width) - SnakeLength < j < SnakePosition(frameNum, width))
    ensures Count(SnakeFrame(frameNum, width), SnakeBody) <= SnakeLength - 1
    ensures forall j :: 0 <= j < width ==>
      (SnakeFrame(frameNum, width)[j] == Blank <==>
        !(SnakePosition(frameNum, width) - SnakeLength < j <= SnakePosition(frameNum, width)))
  {
    var s := SnakeFrame(frameNum, width);
    var p := SnakePosition(frameNum, width);
    if p < width {
      CountSingle(s, SnakeHead, p);
    } else {
      CountWithin(s, SnakeHead, 0, 0);
    }
    CountWithin(s, SnakeBody, p - SnakeLength + 1, p);
  }
}
