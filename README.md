# animotion in Dafny

A model of the animation core of *animotion*, a library that draws a one-line
terminal animation while work proceeds and then replaces it with a final message.

The model has three parts.

- **Frame generators** (`Frames`) model `AnimationFrames`, one per style:
  - spinner, clock, loading_dots and arrows index a fixed table by the frame number;
  - progress_bar draws a bar and a percentage;
  - blocks and dna fill a row cyclically from a table;
  - snake paints a head and seven body cells into a blank buffer;
  - matrix, particles, fireworks and binary scatter glyphs at random;
  - bouncing and pulse are driven by `|sin|`.
- **Style registry** (`Styles`) models the `AnimationStyle` enumeration and `list_styles`.
- **Animator** (`Animation`) models the `Animator` class:
  - style and colour resolution at construction;
  - the style-to-generator table;
  - frame selection and line composition;
  - one pass of the render loop (`Tick`);
  - `start`, `stop`, `update`, `__enter__`/`__exit__`;
  - the `iterate` generator.

The animator is a class. It keeps its mutable state in fields: `running`,
`current`, `frameNum`, `startTime`, and `log`, the sequence of strings written to
the output file. A ghost count of live render loops stands for the background
thread.

Three supporting modules are also part of the project:
- `Text` models the Python string built-ins the core uses: `c * k`, ASCII `upper`/`lower`, `" ".join` and `str(int)`. It also holds `Count`, a glyph count the snake proofs use.
- `Arith` holds a few facts about Euclidean division.
- `Wrappers` defines `Option` and `Result`.

Inputs from outside the program are passed in as parameters:
- `Frames.Entropy` holds one `Draw` per cell for the random styles, the value `|sin(0.2 n)|` for bouncing, and `|sin(0.3 n)|` for pulse.
- `Start`, `Enter` and `Iterate` receive the current time.
- The elapsed-time text `f"{elapsed:.1f}"` is an opaque string.

A `total` of 0 stands for "no total". `None` and `0` behave the same everywhere in
`animator.py`, because every use of `total` there is a truthiness test.

Frames that are not `width` cells wide:
- **Pulse.** pulse draws `width` or `width - 1` cells, because `(width - span) // 2` drops an odd blank. `Frames.PulseLength` states this, and `Frames.PulseShortFrame` gives a 39-cell frame at width 40.
- **Progress bar.** With `filled = int(width * current / total)`, the bar interior is exactly `width` cells when 0 ≤ filled ≤ width. That is, when -total < width · current < (width + 1) · total, a range slightly wider than [0, total]: at width 10 and total 100, counts 105 and -5 still draw 10 cells. When filled > width, the bar draws `filled` full cells, more than `width`. When filled < 0, it draws `width - filled` empty cells, also more than `width`. The animator reaches both cases: `update` before `start` never stops the animation, because `stop` does nothing while idle, and `update(-1)` lowers the count. `Frames.BarCellsLength` gives the interior length for any fill, `Frames.BarWidthExactly` gives the range of counts with a `width`-cell interior, and `Frames.ProgressBarOverfull` gives a 20-cell bar at width 10.

Behaviour worth knowing:
- **Unknown-style message.** The error for an unknown style does not list the valid identifiers. It names the upper-cased style and points to `AnimationStyle.list_styles()`.
- **`iterate` always reports success.** `iterate` stops with the "✓ Complete!" message on every exit path, including when the source raises or the consumer abandons the generator; it never writes the error message.
- **Early completion.** `update` completes as soon as the count reaches or passes the total. Inside `iterate` the remaining items are still yielded after that, without animation, and the final `stop` writes nothing more.

## Model

| member | source | states |
|---|---|---|
| Frames.Spinner | src/animotion/frames.py:12-16 | the frame is one glyph followed by " Processing...", 15 characters whatever the width |
| Frames.Clock | src/animotion/frames.py:133-137 | the frame is one clock face followed by " Processing...", 15 characters whatever the width |
| Frames.LoadingDots | src/animotion/frames.py:51-55 | the frame is "Loading" followed by three cells, each a dot or a blank, 10 characters in all |
| Frames.Arrows | src/animotion/frames.py:78-82 | the frame is a run of arrows, " Processing " and the same run again, 14 to 22 characters |
| Frames.ProgressBar | src/animotion/frames.py:58-65 | the frame opens with "[" and ends with "%", using the synthetic count when none is given |
| Frames.SpinnerCycle | src/animotion/frames.py:12-16 | the spinner frame repeats every 10 frames, does not depend on the width, and differs between frame numbers that differ mod 10 |
| Frames.ClockCycle | src/animotion/frames.py:133-137 | the clock frame repeats every 12 frames, does not depend on the width, and differs between frame numbers that differ mod 12 |
| Frames.LoadingDotsCycle | src/animotion/frames.py:51-55 | loading_dots repeats every 4 frames, is always "Loading" plus three cells, and shows exactly `frame_num mod 4` dots |
| Frames.ArrowsShape | src/animotion/frames.py:78-82 | the arrow glyph `frame_num mod 8` is repeated 1 to 5 times on each side, the frame has length 2k+12, and it repeats every 40 frames |
| Frames.TruncDiv | src/animotion/frames.py:62-64 | `int(a / b)` truncates toward zero: floor for non-negative a, ceiling for negative a |
| Frames.SyntheticProgress | src/animotion/frames.py:60-61 | without a current count, the count `(2 frame_num) mod (total + 1)` never exceeds the total |
| Frames.BarCellsLength | src/animotion/frames.py:62-63 | for any count the interior is `filled` full cells when filled > width, `width − filled` empty cells when filled < 0, and `width` cells otherwise |
| Frames.BarWidthExactly | src/animotion/frames.py:62-63 | the interior is `width` cells exactly when -total < width · current < (width + 1) · total |
| Frames.BarWidthNearBounds | src/animotion/frames.py:62-63 | at width 10 and total 100, counts 105 and -5 still draw a 10-cell interior |
| Frames.ProgressBarOverfull | src/animotion/frames.py:58-65 | a count of 20 against a total of 10 on a 10-cell bar draws 20 full cells and "200%" |
| Frames.BarCellsLayout | src/animotion/frames.py:63 | for 0 ≤ filled ≤ width the bar interior is exactly width cells, full cells before empty ones |
| Frames.ProgressBarLayout | src/animotion/frames.py:58-65 | for 0 ≤ current ≤ total, filled = ⌊width·current/total⌋ in [0, width], percentage = ⌊100·current/total⌋ in [0, 100], and the frame is "[" + bar + "] " + percentage + "%" |
| Frames.ProgressBarSynthetic | src/animotion/frames.py:60-65 | with no current count the frame is the one drawn for the synthetic count, which lies in [0, total] |
| Frames.ProgressBarEmpty | src/animotion/frames.py:62-65 | current = 0 draws width empty cells and "0%" |
| Frames.ProgressBarFull | src/animotion/frames.py:62-65 | current = total draws width full cells and "100%" |
| Frames.ProgressBarHalfway | src/animotion/frames.py:58-65 | total 100, current 50 and width 50 give 25 full cells, 25 empty cells and "50%" |
| Frames.CyclicRow | src/animotion/frames.py:71-75 | the row blocks and dna draw has `width` cells, each taken from the table |
| Frames.BuildCyclicRow | src/animotion/frames.py:71-75 | the append loop yields exactly `width` cells, cell i being `table[(i + frame_num) mod len(table)]` |
| Frames.Blocks | src/animotion/frames.py:68-75 | blocks is the cyclic row over the four quadrant glyphs |
| Frames.Dna | src/animotion/frames.py:123-130 | dna is the cyclic row over the two diagonal strokes |
| Frames.CyclicRowPeriod | src/animotion/frames.py:72-74 | a cyclic row has exactly `width` cells and repeats after len(table) frames (4 for blocks, 2 for dna) |
| Frames.CyclicRowScrolls | src/animotion/frames.py:73 | each frame of a cyclic row is the previous frame shifted left by one cell |
| Frames.SparseRow | src/animotion/frames.py:22-28 | the row the random styles draw has `width` cells, each a blank or a glyph of the style's alphabet |
| Frames.BuildSparseRow | src/animotion/frames.py:22-28 | the append loop gives one cell per draw: a glyph of the alphabet when the roll is below the density, else a blank |
| Frames.SparseRowCells | src/animotion/frames.py:23-27 | a sparse row has exactly `width` cells; a cell holds an alphabet glyph iff its roll is below the density, and a blank iff it is not |
| Frames.Matrix | src/animotion/frames.py:19-28 | matrix gives `width` cells, each a blank or one of the hex digits and katakana, with density 0.3 |
| Frames.Particles | src/animotion/frames.py:39-48 | particles gives `width` cells, each a blank or one of the ten particle glyphs, with density 0.1 |
| Frames.Fireworks | src/animotion/frames.py:111-120 | fireworks gives `width` cells, each a blank or one of the eight star glyphs, with density 0.05 |
| Frames.Binary | src/animotion/frames.py:140-148 | binary gives `width` cells, each ' ', '0' or '1', with density 0.3 |
| Frames.BouncePosition | src/animotion/frames.py:33 | the ball position `int(abs(sin) * (width - 1))` always lies in [0, width) |
| Frames.Bouncing | src/animotion/frames.py:31-36 | the frame has `width` cells with the ball at the bounce position |
| Frames.BouncingCells | src/animotion/frames.py:31-36 | bouncing has exactly `width` cells, with the ball in exactly one of them (the bounce position) and blanks everywhere else |
| Frames.PulseSpan | src/animotion/frames.py:87-91 | the pulse span `int(width * abs(sin))` never exceeds the width |
| Frames.PulseGlyph | src/animotion/frames.py:87-90 | the pulse shade is one of the five shade glyphs |
| Frames.Pulse | src/animotion/frames.py:85-93 | the frame has at most `width` cells, each a blank or the pulse shade |
| Frames.PulseLength | src/animotion/frames.py:85-93 | pulse is `width` cells when width − span is even and `width − 1` cells when it is odd |
| Frames.PulseShortFrame | src/animotion/frames.py:91-93 | at width 40 and intensity 0.975, pulse is 39 cells |
| Frames.SnakeFrame | src/animotion/frames.py:98-108 | the snake frame has `width` cells, each a blank, the head glyph or the body glyph |
| Frames.Snake | src/animotion/frames.py:96-108 | painting the eight cells into the blank buffer produces the snake frame for `position = frame_num mod (width + 8)` |
| Frames.SnakeCells | src/animotion/frames.py:98-108 | the snake frame has exactly `width` cells; the head is drawn once, at the position, iff the position is in the row; body cells are exactly those in (position − 8, position), at most 7; all other cells are blank |
| Styles.MembersEnumerated | src/animotion/styles.py:7-22 | the enumeration visits every member, none twice |
| Styles.ValueIsLowerName | src/animotion/styles.py:9-22 | each member's value is its name in lower case, and its name is its value in upper case |
| Styles.ListStyles | src/animotion/styles.py:24-27 | list_styles gives 14 values, one per member in declaration order, from "spinner" to "binary" |
| Styles.NamesDistinct | src/animotion/styles.py:9-22 | no two members share a name |
| Styles.FindByName | src/animotion/animator.py:61-62 | the attribute lookup returns a member that has the given name, or nothing when no member has that name |
| Styles.MemberNamed | src/animotion/animator.py:61-62 | a member found by `hasattr`/`getattr` carries exactly the name looked up |
| Styles.MemberNamedExactly | src/animotion/animator.py:61-62 | the lookup finds a member exactly under that member's own name |
| Styles.ListedValuesResolve | src/animotion/styles.py:24-27 | upper-casing any listed value names the member listed at that position, and all 14 values are pairwise distinct |
| Text.Repeat | src/animotion/frames.py:63 | `c * k` is k copies of c, and empty when k ≤ 0 |
| Text.ToUpper | src/animotion/animator.py:60 | `upper()` keeps the length and maps every character to its capital |
| Text.ToLower | src/animotion/animator.py:87 | `lower()` keeps the length and maps every character to its lower-case form |
| Text.JoinFirst | src/animotion/animator.py:149 | `" ".join` of two or more parts is the first part, a blank, then the join of the rest |
| Text.JoinLast | src/animotion/animator.py:149 | `" ".join` of two or more parts ends with a blank and the last part |
| Text.IntDecimalRoundTrip | src/animotion/animator.py:147 | the text `str(i)` reads back as i |
| Animation.ResolveColor | src/animotion/animator.py:78-87 | the colour chosen is always a five-character ANSI foreground escape, ESC "[3" digit "m" |
| Animation.ResolveStyle | src/animotion/animator.py:58-66 | only a style name can fail; a member is stored as it is, and any other object is stored as a non-member |
| Animation.ResolveColorCases | src/animotion/animator.py:87 | colour names match in any case; a name whose lower-case form is in the palette gives that colour, and any other name gives cyan |
| Animation.ResolveColorInPalette | src/animotion/animator.py:78-87 | the resolved colour is always one of the seven palette codes |
| Animation.ResolvePaletteNames | src/animotion/animator.py:78-87 | each palette name resolves to its own code |
| Animation.ResolveStyleByName | src/animotion/animator.py:59-64 | a style name resolves to a member iff its upper-case form is that member's name; otherwise construction fails with "Unknown style: " and the upper-cased name |
| Animation.ResolveStyleCaseInsensitive | src/animotion/animator.py:59-62 | a name and its upper- and lower-case forms resolve alike |
| Animation.ResolveListedStyles | src/animotion/animator.py:59-62 | every value list_styles returns resolves to the member listed with it |
| Animation.GeneratorFor | src/animotion/animator.py:99-117 | every member selects its own generator; a hashable style that is not a member falls back to spinner (an unhashable one makes construction fail, see NewAnimator) |
| Animation.FrameOf | src/animotion/animator.py:119-125 | spinner and clock frames are 15 characters ending in " Processing..."; loading_dots is 10 characters opening with "Loading"; the progress bar opens with "[" and ends with "%"; the other row styles draw at most `width` cells |
| Animation.FrameWidths | src/animotion/animator.py:119-125 | matrix, bouncing, particles, blocks, snake, fireworks, dna and binary frames are `width` cells; pulse is `width` or `width − 1`; the progress-bar interior is `width` cells, each full or empty, when the count passed lies in [0, total] or no count is passed |
| Animation.BarShape | src/animotion/animator.py:121-122 | a progress bar drawn with the animator's count in [0, total] has `width` interior cells between its brackets |
| Animation.LineLayout | src/animotion/animator.py:127-149 | the line opens with the prefix and a blank when there is a prefix; otherwise, with no message either, it opens with the coloured frame; it ends with a blank and "(current/total)" when there is a total; with nothing else configured it is the coloured frame alone |
| Animation.StopWrites | src/animotion/animator.py:176-187 | stopping writes nothing when idle; when running it writes the erase sequence first, and a second write (the message and a newline) exactly when a non-empty final message is given |
| Animation.Animator.constructor | src/animotion/animator.py:45-97 | stores the configuration and the resolved colour and generator; starts idle, with count 0, frame 0, no start time and nothing written |
| Animation.NewAnimator | src/animotion/animator.py:45-117 | an unknown style name gives the ValueError text; an unhashable style object gives the TypeError of the generator-table lookup; otherwise a fresh, idle animator with the resolved style, generator and colour |
| Animation.Animator.GetFrame | src/animotion/animator.py:119-125 | the frame comes from the selected generator; total and current are passed only for PROGRESS_BAR with a total, otherwise the progress bar uses total 100 and the synthetic count |
| Animation.Animator.FormatOutput | src/animotion/animator.py:127-149 | the line is prefix, message, coloured frame, suffix, elapsed part and counter, in that order, joined by single blanks, each optional part present only when set |
| Animation.Animator.Tick | src/animotion/animator.py:151-163 | one render pass, allowed only while running, writes the erase sequence and then the formatted line of the current frame, and advances the frame number by exactly 1 |
| Animation.Animator.Start | src/animotion/animator.py:165-172 | when idle, records the start time and starts the one render loop; when running, changes nothing, so two loops are never alive |
| Animation.Animator.Stop | src/animotion/animator.py:174-187 | while idle, writes nothing and changes nothing; while running, clears the flag, ends the loop, writes the erase sequence and then the final message with a newline if it is given and not empty |
| Animation.Animator.Update | src/animotion/animator.py:189-193 | adds n to the count; once a total is set and reached, stops, writing the completion message only if the animator was running |
| Animation.UpdateEachStep | src/animotion/animator.py:189-193 | calling update(1) one or more times on a running animator, from any count, until the count reaches the total stops it and writes exactly one completion message; the frame number and start time are kept |
| Animation.Animator.Enter | src/animotion/animator.py:195-198 | entering the context starts the animation |
| Animation.Animator.Exit | src/animotion/animator.py:200-206 | leaving the context stops the animation with the completion message, or the error message when an exception is passing, keeps the count, frame number and start time, and never suppresses the exception |
| Animation.Animator.Iterate | src/animotion/animator.py:208-220 | yields a prefix of the source, unchanged and in order; updates the count by 1 per resumed item only when a total is set; on every exit path (closed, exhausted or raised) ends stopped, with exactly the erase sequence and the completion message written, and with the start time recorded by its own start (or the earlier one if already running); never runs if no item is requested |

## Left out

- The render thread is not modelled: no `threading.Thread`, no daemon flag and no `join`, and no concurrent reads of `running` or `current`. One pass of `_animate_loop` is `Animation.Animator.Tick`, which may only run while the animator is running.
- `Animation.Animator.Iterate` does not interleave render passes with the items; only the writes of `update` and `stop` appear in its log.
- Time is not modelled: `time.time()`, `time.sleep(speed)`, the `speed` setting and the `f"{elapsed:.1f}"` formatting. The start time is a parameter, and the elapsed text is an opaque string.
- `file.flush()` is left out because it writes nothing. The output file is the write log.
- colorama's `init()` is left out. The `Fore.*` and `Style.RESET_ALL` values are the standard ANSI SGR escape strings.
- Python's random generators are left out. Each cell's `random.random()` / `random.choice` / `random.randint(0, 1)` result is an input `Draw`, so the model states nothing about distributions.
- `math.sin` is left out. `|sin(0.2 n)|` for bouncing and `|sin(0.3 n)|` for pulse are inputs in [0, 1].
- Frames.ProgressBarLayout: `int(width * current / total)` is computed on exact rationals, not on floating point. The two agree for counts of ordinary size, but floating-point rounding at very large values is not modelled.
- Text.ToUpper / Text.ToLower map ASCII letters only. Python's Unicode case mapping of other letters is not modelled. As a result, names such as "ſpinner", "ﬁreworks" or "bınary", which Python upper-cases to member names and accepts, fail in the model with the unknown-style ValueError text.
- Negative widths are not modelled (`width` is a `nat`). A width of 0 is allowed except for bouncing, whose Python code then fails with an IndexError; `Animation.Animator.Tick` requires a positive width for that style only.
- Negative totals are not modelled (`total` is a `nat`, with 0 standing for `None`).
- src/animotion/core.py (the `animate` wrapper that infers `total` from `len()`), demo_30s.py and src/animotion/__init__.py are not part of this model.
