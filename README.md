# terminal-fun, modelled in Dafny

terminal-fun draws coloured pictures in a terminal. A producer writes cells
into a content-resolution grid. The grid is resampled to the terminal's size
and printed as 24-bit colour escape sequences, once per frame, until the user
presses `Q` or `q`. This project models the sequential core of that program:

- `color.dfy` (module `Colors`): the `Color` value of `src/Color.cpp`.
  - Channels are `real`s, clamped to [0, 255] by every mutator.
  - The integer views truncate toward zero, and equality compares those views.
  - Each whole-colour operation is a function on the value `Rgb`. The class `Color` has the in-place mutators, each specified by those functions.
- `one_symbol.dfy` (module `Symbols`): a cell (`OneSymbol`) and its serialisation.
  - Colours use SGR (section 8.3.117 of ECMA-48) with parameters 38 and 48, selector 2 and three decimal numbers. This is the direct-colour form of ITU-T T.416.
  - A parser reads a serialised cell back, so the round trip can be stated.
- `terminal_effects.dfy` (module `Effects`): the grid-wide effects of `src/TerminalEffects.cpp`.
  - Each is a nested loop over the rows of a grid and the cells of each row.
- `terminal_control.dfy` (module `Terminal`): the terminal surface of `src/TerminalControl.cpp`.
  - It owns an active grid and a scaled grid.
  - The terminal is a `Device` with the local-mode flags (`c_lflag`) and the text written to standard output.
  - The window-size query is an input: a success flag with a column/row pair.
- `terminal_loop.dfy` (module `Loop`): the render loop of `src/TerminalLoop.cpp`.
  - Each iteration gets a `Tick` as input: its poll result and how long update and render took.
  - The calls the loop makes form an event trace.
  - `Run` is specified by the function `RunTrace`, and the loop's promises are lemmas about `RunTrace`.
- `grayscale_gradient.dfy` (module `Gradient`): the gradient producer of `src/GrayScaleGradient.cpp`.
  - The side length `DIMENSIONS` is a parameter `dims`, taken to be a positive integer.
- `wrappers.dfy` (module `Wrappers`): an `Option` type used by the parser.

Where the design description and the code disagree, the model follows the code:

- The integer views `getRed`/`getGreen`/`getBlue` truncate (`int(x)`) rather than round.
- `operator<<` streams the raw channel fields, not the clamped integer views.
- `clearTerminal` writes only CUP to home (`ESC[H`, section 8.3.21 of ECMA-48) and no erase.
- The destructor sets ECHO rather than restoring the saved flags. `EchoRestoredOnlyIfInitiallyOn` shows that it restores them exactly when echo was on at construction.
- The shown constructor `Color(r, g, b)` stores its arguments without clamping.
- The loop's one-byte `read` of standard input is never made non-blocking: the terminal setup clears only ECHO, so canonical line input stays on and no `O_NONBLOCK`, `VMIN` or `VTIME` is set. On a terminal the read waits for a line. The model is unaffected because the poll is not timed.

## Model

| member | source | states |
|---|---|---|
| Colors.Clamp | src/Color.cpp:241-244 | result lies in [0, 255]; it is the input when the input is in range, 0 below and 255 above |
| Colors.Trunc | src/Color.cpp:19-34 | C++ `int()` of a double: the integer toward zero, within 1 of the input on the input's side |
| Colors.Rgb.Red | src/Color.cpp:19-22 | getRed: for an in-range channel, an integer in [0, 255] at most 1 below the raw value |
| Colors.Rgb.Green | src/Color.cpp:31-34 | getGreen: the same bounds for the green channel |
| Colors.Rgb.Blue | src/Color.cpp:25-28 | getBlue: the same bounds for the blue channel |
| Colors.Rgb.Truncated | src/Color.cpp:56-63 | the colour setColor(const Color) writes compares equal to its source and has whole channels; an in-range source gives an in-range result |
| Colors.Rgb.Clamped | src/Color.cpp:66-73 | setColor(r, g, b) always leaves an in-range colour, and leaves an in-range colour as it was |
| Colors.Rgb.Inverted | src/Color.cpp:100-131 | inverting gives an in-range colour, exactly 255 minus each channel when the colour was in range |
| Colors.Rgb.Scaled | src/Color.cpp:134-165 | scaling gives an in-range colour, exactly the product when the colour is in range and the coefficient in [0, 1] |
| Colors.Rgb.ScaledBy | src/Color.cpp:168-175 | per-channel scaling by another colour's raw channels: in range, and exact for coefficients in [0, 1] |
| Colors.Rgb.Adjusted | src/Color.cpp:177-208 | adjusting gives an in-range colour; a non-negative increment never darkens a channel and a non-positive one never brightens it; it equals adjusting by a colour with three equal channels |
| Colors.Rgb.AdjustedBy | src/Color.cpp:211-218 | adjusting by a colour's raw channels gives an in-range colour; a zero increment only clamps; non-negative increments never decrease a channel |
| Colors.Rgb.Grayscale | src/Color.cpp:221-227 | all three channels become equal to the mean of the old three, and stay in range when the colour was |
| Colors.Rgb.Blended | src/Color.cpp:230-238 | blending always gives an in-range colour; factor at most 0 leaves the colour (clamped) and at least 1 gives the other colour (clamped); for in-range colours each channel lies between the two inputs |
| Colors.MixProperties | src/Color.cpp:233-235 | one blended channel is the first value at factor 0, the second at factor 1, and between the two for factors in [0, 1] |
| Colors.InvertTwice | src/Color.cpp:100-131 | inverting an in-range colour twice gives back exactly the same channels |
| Colors.EqualIsEquivalence | src/Color.cpp:4-16 | `==` is reflexive, symmetric and transitive |
| Colors.BlendFullyEqualsOther | src/Color.cpp:230-238 | blending fully toward an in-range colour makes the colour equal to it, raw channels included |
| Colors.TruncatedIdempotent | src/Color.cpp:56-63 | copying a copied colour's integer views changes nothing more |
| Colors.Color.constructor | include/Color.h:33 | the new colour holds the three channels as given |
| Colors.Color.GetRed | src/Color.cpp:19-22 | getRed is the red view of the colour's value, in [0, 255] when the raw channel is in range |
| Colors.Color.GetGreen | src/Color.cpp:31-34 | getGreen is the green view, with the same bounds |
| Colors.Color.GetBlue | src/Color.cpp:25-28 | getBlue is the blue view, with the same bounds |
| Colors.Color.Equals | src/Color.cpp:4-10 | `==` holds exactly when all three integer views match |
| Colors.Color.NotEquals | src/Color.cpp:13-16 | `!=` holds exactly when `==` does not, that is when some integer view differs |
| Colors.Color.SetColorFrom | src/Color.cpp:56-63 | the colour becomes the other colour's truncated views, and then compares equal to it |
| Colors.Color.SetColor | src/Color.cpp:66-73 | the colour becomes the three arguments, each clamped, so it is in range |
| Colors.Color.SetRed | src/Color.cpp:76-81 | red becomes the clamped value; green and blue are unchanged |
| Colors.Color.SetGreen | src/Color.cpp:84-89 | green becomes the clamped value; red and blue are unchanged |
| Colors.Color.SetBlue | src/Color.cpp:92-97 | blue becomes the clamped value; red and green are unchanged |
| Colors.Color.InvertRed | src/Color.cpp:100-105 | red becomes clamp(255 - red); the others are unchanged |
| Colors.Color.InvertGreen | src/Color.cpp:108-113 | green becomes clamp(255 - green); the others are unchanged |
| Colors.Color.InvertBlue | src/Color.cpp:116-121 | blue becomes clamp(255 - blue); the others are unchanged |
| Colors.Color.InvertColor | src/Color.cpp:124-131 | the new value is the old value inverted |
| Colors.Color.ScaleRed | src/Color.cpp:134-139 | red becomes clamp(red × coefficient); the others are unchanged |
| Colors.Color.ScaleGreen | src/Color.cpp:142-147 | green becomes clamp(green × coefficient); the others are unchanged |
| Colors.Color.ScaleBlue | src/Color.cpp:150-155 | blue becomes clamp(blue × coefficient); the others are unchanged |
| Colors.Color.ScaleColor | src/Color.cpp:158-165 | the new value is the old value scaled by the coefficient |
| Colors.Color.ScaleColorBy | src/Color.cpp:168-175 | the new value is the old value scaled per channel by the coefficient colour's raw channels |
| Colors.Color.AdjustRed | src/Color.cpp:177-182 | red becomes clamp(red + increment); the others are unchanged |
| Colors.Color.AdjustGreen | src/Color.cpp:185-190 | green becomes clamp(green + increment); the others are unchanged |
| Colors.Color.AdjustBlue | src/Color.cpp:193-198 | blue becomes clamp(blue + increment); the others are unchanged |
| Colors.Color.AdjustColor | src/Color.cpp:201-208 | the new value is the old value adjusted by the increment |
| Colors.Color.AdjustColorBy | src/Color.cpp:211-218 | the new value is the old value adjusted per channel by the increment colour's raw channels |
| Colors.Color.ConvertToGrayscale | src/Color.cpp:221-227 | the new value is the gray of the old value's mean |
| Colors.Color.BlendWith | src/Color.cpp:230-238 | the new value is the old value blended toward the other colour with the factor clamped to [0, 1] |
| Symbols.OneSymbol.Inverted | include/OneSymbol.h:62-68 | invertColor leaves both colours in range and keeps the character |
| Symbols.InvertCellTwice | include/OneSymbol.h:62-68 | inverting an in-range cell twice gives back the same cell |
| Symbols.WithColors | src/OneSymbol.cpp:8-9 | the colour-only constructor sets the character to a space and stores both colours |
| Symbols.NatText | src/OneSymbol.cpp:16-18 | a channel prints as a non-empty run of decimal digits without a leading zero |
| Symbols.Serialize | src/OneSymbol.cpp:12-20 | the output starts with the foreground prefix `ESC[38;2;`, ends with the reset `ESC[0m`, and has the character just before the reset |
| Symbols.NatTextValue | src/OneSymbol.cpp:16-18 | the printed digits of a number read back as that number |
| Symbols.ReadNatText | src/OneSymbol.cpp:16-18 | reading a number off its printed digits leaves exactly the text that followed |
| Symbols.ColorSequenceRoundTrip | src/OneSymbol.cpp:15-18 | an SGR colour sequence of whole channels parses back to the same colour and the rest of the text |
| Symbols.SerializeRoundTrip | src/OneSymbol.cpp:12-20 | parsing the serialisation of a cell with whole channels gives back the cell |
| Symbols.SerializeInjective | src/OneSymbol.cpp:14-20 | for whole channels, two cells serialise identically exactly when they are equal |
| Effects.ChangeBackgroundColorEffect | src/TerminalEffects.cpp:4-11 | shape is kept; every background becomes the new colour's integer views; characters and foregrounds are unchanged |
| Effects.ChangeForegroundColorEffect | src/TerminalEffects.cpp:14-21 | shape is kept; every foreground becomes the new colour's integer views; characters and backgrounds are unchanged |
| Effects.ChangeSymbolEffect | src/TerminalEffects.cpp:24-31 | shape is kept; every character becomes the new one; both colours are unchanged |
| Effects.ChangeTerminalToEffect | src/TerminalEffects.cpp:34-45 | shape is kept; every cell becomes the given character with the two colours' integer views |
| Effects.InvertColorEffect | src/TerminalEffects.cpp:48-55 | shape is kept; every cell is inverted |
| Effects.InvertEffectTwice | src/TerminalEffects.cpp:48-55 | inverting an in-range grid twice gives back the same grid |
| Effects.InvertedIsValid | src/TerminalEffects.cpp:48-55 | an inverted grid has only in-range colours |
| Effects.AdjustBrightnessByIncrementEffect | src/TerminalEffects.cpp:58-68 | shape is kept; both colours of every cell are adjusted by the increment and are in range; characters are unchanged |
| Effects.IncrementColorEffect | src/TerminalEffects.cpp:72-82 | shape is kept; every foreground is adjusted by the foreground increment and every background by the background increment; characters are unchanged |
| Terminal.WithoutEcho | src/TerminalControl.cpp:15-18 | the ECHO bit is cleared and every other bit is unchanged |
| Terminal.WithEcho | src/TerminalControl.cpp:29-32 | the ECHO bit is set and every other bit is unchanged |
| Terminal.EchoRestoredOnlyIfInitiallyOn | src/TerminalControl.cpp:15-32 | teardown gives back the original flags exactly when ECHO was set to begin with |
| Terminal.Resize | src/TerminalControl.cpp:6-8 | `vector::resize`: new length, the overlap kept, new places filled |
| Terminal.RowsTextFlatten | src/TerminalControl.cpp:76-78 | for rows of one width, printing row by row writes every cell in order |
| Terminal.FrameIsRowMajor | src/TerminalControl.cpp:74-82 | a rectangular grid prints as every cell's serialisation, row-major; an empty grid prints nothing |
| Terminal.CellsTextAppend | src/TerminalControl.cpp:76-78 | printing two runs of cells writes the first run's text and then the second's |
| Terminal.TerminalControl.constructor | src/TerminalControl.cpp:4-19 | the active grid is Height rows of Width default cells; cursor-hide is written; ECHO is cleared with other bits kept |
| Terminal.TerminalControl.Close | src/TerminalControl.cpp:22-33 | cursor-show is written and ECHO is set, whatever it was before |
| Terminal.TerminalControl.GetTerminalSize | src/TerminalControl.cpp:42-52 | a successful query sets width and height to the reported columns and rows; a failed one leaves both |
| Terminal.TerminalControl.ClearTerminal | src/TerminalControl.cpp:55-61 | exactly `ESC[H` is written |
| Terminal.TerminalControl.SetTerminalSize | src/TerminalControl.cpp:64-71 | the scaled grid becomes height rows of width cells, keeping cells in the overlap and filling new ones with default cells |
| Terminal.TerminalControl.PrintTerminal | src/TerminalControl.cpp:74-82 | the output grows by the frame: the first-row-length prefix of every row, row-major |
| Loop.SleepAfter | src/TerminalLoop.cpp:24-25 | there is a sleep exactly when the frame ran short, for the remainder truncated to whole milliseconds |
| Loop.FirstCancel | src/TerminalLoop.cpp:10-14 | the index of the first `Q`/`q` poll: no earlier poll cancels, and the one there does |
| Loop.CountsAppend | src/TerminalLoop.cpp:18-19 | updates and resamples in a joined trace are counted piece by piece |
| Loop.FrameCounts | src/TerminalLoop.cpp:18-19 | one non-cancelling iteration makes exactly one update and one render |
| Loop.ReturnsOnlyOnCancel | src/TerminalLoop.cpp:10-26 | run returns exactly when some poll reads `Q` or `q` |
| Loop.CancelStopsImmediately | src/TerminalLoop.cpp:13-14 | nothing happens after the first cancelling poll, in that iteration or any later one |
| Loop.UpdatesBeforeCancel | src/TerminalLoop.cpp:10-19 | the number of update/render pairs equals the number of polls before the first cancel |
| Loop.SleepsOnlyWhenShort | src/TerminalLoop.cpp:21-25 | every sleep in the trace belongs to an iteration shorter than the frame and lasts the truncated remainder |
| Loop.TerminalLoop.constructor | src/TerminalLoop.cpp:4-5 | builds the surface, stores scaleRatio, and sets frameDuration × FrameRate = 1000 |
| Loop.TerminalLoop.Render | src/TerminalLoop.cpp:32-39 | render resamples with scaleRatio, then clears, then prints |
| Loop.TerminalLoop.Run | src/TerminalLoop.cpp:8-29 | the calls made and whether run returned are those of `RunTrace` over the iterations' inputs |
| Gradient.Increment | src/GrayScaleGradient.cpp:8 | the row step `255 / DIMENSIONS` in integer division: at most 255, and the largest step with step × DIMENSIONS ≤ 255 |
| Gradient.LevelStep | src/GrayScaleGradient.cpp:15 | one clamped adjustment of the accumulator moves it from row i's level to row i+1's |
| Gradient.LevelMonotone | src/GrayScaleGradient.cpp:8-15 | row brightness never decreases down the grid and never exceeds 255 |
| Gradient.GradientProperties | src/GrayScaleGradient.cpp:8-15 | each row is one colour, every background is an in-range gray, row 0 is black, brightness does not decrease, and only backgrounds differ from the default cell |
| Gradient.GrayScaleGradient.constructor | src/GrayScaleGradient.cpp:4-18 | the surface is dims × dims and row i's backgrounds have brightness min(i × step, 255) |
| Gradient.GrayScaleGradient.Update | src/GrayScaleGradient.cpp:20-22 | update leaves the grid unchanged |

## Left out

- Resampling (`setUpScaledGrid`) is only called, at src/TerminalLoop.cpp:34; its definition is not part of this model. It appears as the opaque event `Resample(keepRatio)`, and nothing is claimed about the scaled grid it produces.
- Operating-system calls are inputs or recorded effects. This covers `ioctl(TIOCGWINSZ)`, `tcgetattr`/`tcsetattr`, `read` and `std::cout`. They become the query's success flag and sizes, `Device.lflag`, the `Tick` poll results and `Device.output`. Flushing is not modelled.
- Timing with `std::chrono` and `sleep_for` is modelled only as the input `Tick.elapsed` and the output `Sleep(ms)`.
- Floating point: channels are exact `real`s. IEEE rounding and the `(long)` cast's range limits are not modelled.
- Color.getR/getG/getB (src/Color.cpp:37-52) return raw channels; the model reads the fields `Rgb.r`, `g`, `b` directly.
- The conversion operator of TerminalControl (src/TerminalControl.cpp:36-39) hands out the active grid by reference. Producers write the field `activeGrid` directly.
- Symbols.Serialize and Symbols.ChannelText: only the integer part of a channel is printed. The source streams the raw double, which prints fractional digits for a fractional channel, so the model matches it only for whole channels below 1000000. That covers every in-range channel, so it holds after `setColor(const Color)` of an in-range colour and for the gradient.
- Symbols.ChannelText: a channel of 1000000 or more, which only a colour built by the unclamped `Color(r, g, b)` constructor (or copied or averaged from one) can hold, is streamed in exponent form (such as `1e+06`) at the default precision of 6; the model prints all its digits instead.
- Symbols.SerializeRoundTrip is stated for whole, non-negative channels only, for the same reason.
- The default cell `OneSymbol()` has no shown body, so its value is the parameter `blank` of the surface constructor. `OneSymbol::invertColor` also has no shown body and follows its documentation.
- `DIMENSIONS` and `GRID` are macros whose definitions are not part of this model. `dims` stands for `DIMENSIONS`, taken as a positive integer, and `GRID(terminal)` is taken as the terminal's active grid.
- Terminal.TerminalControl.GetTerminalSize requires sizes below 2^16 because `winsize` fields are 16-bit.
- Loop.TerminalLoop.constructor requires a non-zero frame rate; `1000.0 / 0` is an IEEE infinity, which reals do not have.
- Loop.TerminalLoop.Run covers a finite prefix of the inputs. When the inputs run out without a cancel, it returns `cancelled == false` where the source keeps polling.
- The `update` of a producer is the event `Update`. `Gradient.GrayScaleGradient.Update` shows the gradient's own update does nothing.
- These source files are not modelled: src/RandomColors.cpp (random colours from `std::rand`), src/MainMenu.cpp and src/main.cpp (interactive menus and dispatch), and the constant colour table at src/Color.cpp:247-301.
- The loop's `Tick.elapsed` includes only update and render, as in the source. The poll and the sleep are not timed.
