# Scan orchestration of the laser-alignment scanner, in Dafny

This project models the scan-orchestration core of the LaserUROP
laser-alignment software (`laser_align/baking.py`, plus `scan_direction` from
`tests/scan_analysis.py`) and proves properties of it:

- **baker**, the currying adapter: a target function, a template of
  positional arguments, keyword arguments and a pass-through span; calling
  the closure splices the runtime arguments into the span. Python's slice
  semantics (negative and out-of-range bounds) are modelled exactly.
- **Measurement validators**: `unchanged`, `stop_on_nonzero` and
  `saturation_reached`. Exceptions become values: a validator returns
  `Passed(reading)` or `Raised(anomaly)`. The five exception classes
  (`Saturation`, `NonZeroReading`, `NoisySignal`, `Overlapped`, `ZeroSignal`)
  are one datatype, `Outcomes.Anomaly`. The built-in errors the code can
  raise (TypeError, ValueError, IndexError) are `Outcomes.Failure`.
  `saturation_reached` is a method that takes a `Sensor` object whose `gain` and
  `ignoreSaturation` fields it updates. The operator's answers to the prompt
  are an input sequence.
- **Position sequencers**: `raster` as a specification function, as a method
  with the source's three nested counter loops, and as a `RasterCursor` class
  (the suspended generator object with its `i, j, k` counters). `fixed_timer`
  is a method that pulls positions from a `RasterCursor` and yields each one
  `count` times. `yield_pos` passes a list through.
- **revisit_check**: the set of proposed positions minus the positions
  already in the results table.
- **Optimum extractors**: `max_fifth_col` (first row with the largest
  quantity, or the initial position when that quantity is zero) and the
  algebra of `to_parmax` after the fit: the vertex of the parabola, the
  predicted value at the vertex, the axis range, and the new position. `to_parmax` works on
  an `array` of rows. In the source, `new_pos = results_arr[0, 1:4]` is a numpy
  view, so overwriting its axis coordinate also overwrites row 0 of the table.
  The model keeps that write.
- **scan_direction**: the first coordinate column that is not constant.

Positions and quantities are `real`, compared exactly. A results row is
`Row(time, pos, quantity, extra)`: column 0, columns 1 to 3, column 4 and the
rest.

Notes on what the code does, which the model keeps:

- `baker` leaves it to the caller to pass as many runtime arguments as the
  span replaces (the NOTE in its docstring, `laser_align/baking.py:29-30`);
  nothing checks the count.
- The extrapolation assertion of `to_parmax` (`laser_align/baking.py:201-203`)
  compares the tuple returned by `np.where` with integers, so it always
  holds: a maximum at the edge of the sampled range is not rejected.
- `to_parmax` writes the new position into row 0 of the table through the
  numpy view (`laser_align/baking.py:212-213`).
- `to_parmax` never checks that the fitted `a` is negative
  (`laser_align/baking.py:209-213`), although its docstring promises the
  maximum of the parabola (`laser_align/baking.py:195-196`). For an upward
  fit (`a > 0`) the vertex is the parabola's minimum (`VertexIsLow`), and the
  stage is moved there, or that position is returned.
- A span is meant to be a non-negative slot index. A negative one does not
  count from the end: with `-1` the closure calls
  `fun(args[:-1] + result + args[0:])`, so the whole argument list follows
  the result (`laser_align/baking.py:48-49`).
- `max_fifth_col`, and `to_parmax` with `move`, end by moving the stage
  (`laser_align/baking.py:187` and `217`). The model leaves the move out:
  `MaxFifthCol` returns the position the stage would be moved to; with
  `move`, `ToParmax` returns nothing, as the source does, and the new
  position is in row 0 of the table.
- Default arguments are kept: `count` of `fixed_timer` is 5 and `move` of
  `to_parmax` is true (`laser_align/baking.py:126`, `192`).

Files: `outcomes.dfy` (anomalies, errors, wrappers), `positions.dfy`
(positions and rows), `baking.dfy`, `validators.dfy`, `sequencers.dfy`,
`revisit.dfy`, `extractors.dfy`, `scan_analysis.dfy`.

## Model

| member | source | states |
|---|---|---|
| Baking.Splice | laser_align/baking.py:45-49 | for `0 <= lo <= len(args)` and `-1 <= hi < len(args)` the call arguments are exactly `args[:lo] + result + args[hi+1:]`; when `lo <= hi` their number is `lo + len(result) + len(args) - hi - 1`; a negative `lo` counts from the end; a span reaching past the end puts `result` last |
| Baking.Baker | laser_align/baking.py:12-43 | missing `args`/`kwargs` become `[]`/`{}`; an int span `n` becomes `(n, n)`; a tuple span is kept; any other span, and only such a span, raises TypeError |
| Baking.Call | laser_align/baking.py:45-51 | the closure raises IndexError exactly when the span tuple has fewer than two items |
| Baking.BakedTupleCall | laser_align/baking.py:38-49 | baking with a tuple span `(lo, hi)` and calling the closure calls `fun(args[:lo] + result + args[hi+1:], **kwargs)` |
| Baking.BakedIntCall | laser_align/baking.py:38-49 | an int span `n` behaves as `(n, n)`: slot `n` is replaced by `result`, the argument list grows by `len(result) - 1`, `kwargs` defaults to `{}` |
| Baking.BakedDefaultsCall | laser_align/baking.py:12-36 | with no args, no kwargs and the default span `(0, 0)` the closure passes its runtime arguments straight to `fun` |
| Validators.Unchanged | laser_align/baking.py:54-57 | returns its argument as it is |
| Validators.StopOnNonzero | laser_align/baking.py:61-66 | the reading is passed on if and only if its value is 0; otherwise, and only then, NonZeroReading is raised |
| Validators.Prompt | laser_align/baking.py:77-103 | the prompt loop reads at most the answers given and stops at the first valid answer: every answer before it is invalid; 'retry' raises Saturation and lowers the gain by 10, 'ignore' passes the reading and changes nothing, 'ignore all' passes it and sets ignore_saturation; it has no outcome, and leaves the sensor alone, exactly when every answer was read and none was valid |
| Validators.PromptDecision | laser_align/baking.py:77-103 | against the independently defined index of the first valid answer (`FirstDecision`): the prompt reads up to and including that answer, and 'retry' lowers the gain by 10 and raises Saturation, 'ignore' changes nothing, 'ignore all' sets ignore_saturation; with no valid answer it reads them all and changes nothing |
| Validators.SaturationCheck | laser_align/baking.py:69-104 | the same limits on the effects of a whole saturation_reached call, and an answer is read only when the reading is 1023, the gain is not negative and saturation is not being ignored |
| Validators.SaturationUntouched | laser_align/baking.py:73-76 | below 1023, with a negative gain, or while saturation is ignored, the reading is returned, the sensor is unchanged and no answer is read |
| Validators.SaturationDecision | laser_align/baking.py:77-103 | at saturation the first valid answer decides: 'retry' lowers the gain by exactly 10 and raises Saturation; 'ignore' returns the reading and changes nothing; 'ignore all' sets ignore_saturation, keeps the gain and returns the reading; invalid answers before it are read and change nothing; without a valid answer nothing changes |
| Validators.IgnoreAllSticks | laser_align/baking.py:96-102 | once ignore_saturation is set, every later reading passes without a prompt and without a change to the sensor |
| Validators.SaturationReached | laser_align/baking.py:69-104 | the prompt loop on a `Sensor` object: its outcome, the new `gain` and `ignoreSaturation`, and the number of answers read are those of the specification `SaturationCheck` |
| Sequencers.RasterSpec | laser_align/baking.py:109-123 | its length is `len(x)` runs of `len(y) * len(z)` positions; the order is stated by `RasterAt` |
| Sequencers.RasterLength | laser_align/baking.py:109-123 | raster yields exactly `len(x) * len(y) * len(z)` positions |
| Sequencers.FlatIsProduct | laser_align/baking.py:114-123 | the raster number `Flat(i, j, k)` of the loop counters is `(i * len(y) + j) * len(z) + k` |
| Sequencers.RasterAt | laser_align/baking.py:114-123 | output number `Flat(i, j, k)` is `(x[i], y[j], z[k]) + initial_pos`: z varies fastest, x slowest |
| Sequencers.RasterEmpty | laser_align/baking.py:115-119 | raster yields nothing when any axis is empty |
| Sequencers.Raster | laser_align/baking.py:109-123 | the three nested counter loops yield exactly the raster specification |
| Sequencers.Advance | laser_align/baking.py:114-123 | one step of the three counters (k += 1, carrying into j and then i) keeps j and k in range and moves the raster number on by exactly one |
| Sequencers.AdvanceIndex | laser_align/baking.py:114-123 | stepping the generator's counters (z innermost, carrying into y, then x) moves to the next raster number; running off the last x means every position has been yielded |
| Sequencers.RasterCursor.constructor | laser_align/baking.py:109-114 | a new raster generator has yielded nothing |
| Sequencers.RasterCursor.Next | laser_align/baking.py:114-123 | each `next()` yields the next raster position in order; StopIteration (None) comes exactly when the whole raster has been yielded |
| Sequencers.Repeat | laser_align/baking.py:126-140 | fixed_timer's output: `len(s)` runs of `max(count, 0)` positions |
| Sequencers.RepeatLength | laser_align/baking.py:132-140 | fixed_timer yields `count` times as many positions as raster (none for `count <= 0`) |
| Sequencers.RepeatAt | laser_align/baking.py:133-137 | output number `n * count + m`, for `m < count`, is raster position `n`: each position is repeated `count` times in a row |
| Sequencers.RepeatSnoc | laser_align/baking.py:133-137 | each further raster position adds exactly `count` copies of itself to the end of fixed_timer's output |
| Sequencers.FixedTimer | laser_align/baking.py:126-140 | pulling from the raster generator until it is exhausted, with an inner loop of `count` yields, produces every raster position repeated `count` times |
| Sequencers.YieldPos | laser_align/baking.py:143-147 | yield_pos yields every given position, in the given order |
| Revisit.Visited | laser_align/baking.py:165-166 | the visited set holds exactly the positions in columns 1 to 3 of the table |
| Revisit.RevisitCheck | laser_align/baking.py:150-169 | a position is in the result if and only if it is proposed and either the table is empty, overlap is allowed, or no row of the table is at that position |
| Revisit.RevisitBypass | laser_align/baking.py:158-162 | with an empty table or overlap allowed the result is the set of proposed positions |
| Revisit.RevisitFiltered | laser_align/baking.py:163-168 | otherwise the result is proposed minus visited, disjoint from every visited position |
| Revisit.RevisitShrinks | laser_align/baking.py:158-169 | the result is a subset of the proposal and, duplicates collapsed, no larger than it |
| Extractors.ArgMax | laser_align/baking.py:179 | `np.argmax` over column 4: the row reaches the largest quantity and every earlier row is strictly smaller |
| Extractors.MaxFifthCol | laser_align/baking.py:173-185 | the initial position, marked not found, when the largest quantity is 0; otherwise columns 1 to 3 of the first row with the largest quantity; an empty table raises ValueError |
| Extractors.MaxFifthColExamples | laser_align/baking.py:179-185 | with rows of quantity 0, 5, 5 the second row is chosen; with all quantities 0 the initial position is |
| Extractors.Vertex | laser_align/baking.py:209-210 | `x_stat = -b / (2a)` is the zero of the derivative: `2a * x_stat + b = 0` |
| Extractors.VertexOffset | laser_align/baking.py:209-211 | the fitted parabola differs from `pred_y` by `a (x - x_stat)^2` |
| Extractors.VertexIsPeak | laser_align/baking.py:192-211 | for `a < 0`, `pred_y` is the largest value of the fitted parabola: the vertex is its maximum point |
| Extractors.VertexIsLow | laser_align/baking.py:209-213 | for `a > 0`, which the code does not rule out, `pred_y` is the smallest value of the fitted parabola: the stage goes to its minimum point |
| Extractors.AxisIndex | laser_align/baking.py:197 | `'x'`, `'y'`, `'z'` map to 0, 1, 2; any other axis raises ValueError |
| Extractors.MinAlong | laser_align/baking.py:198 | the lower end of `x_range` is a value of the axis column and no larger than any of them |
| Extractors.MaxAlong | laser_align/baking.py:198 | the upper end of `x_range` is a value of the axis column and no smaller than any of them |
| Extractors.ToParmax | laser_align/baking.py:192-220 | the new position is row 0's position with the axis coordinate replaced by `x_stat`; it is written into row 0 of the table and every other row is unchanged; without `move` it returns that position, `pred_y = a x_stat^2 + b x_stat + c`, the `(min, max)` of the axis column before the write, the residuals and the coefficients; an unknown axis or an empty table raises ValueError and changes nothing |
| ScanAnalysis.FirstMovingFrom | tests/scan_analysis.py:11-14 | the search from axis `i` returns the first moving axis at or after `i`, or ValueError when none of them moves |
| ScanAnalysis.ScanDirection | tests/scan_analysis.py:9-14 | whenever some coordinate column differs from row 0 in some row an axis in {0, 1, 2} is returned: a moving one with every earlier axis constant; ValueError comes exactly when all three columns are constant, an empty table raises IndexError, and no other error occurs |

## Left out

- The interactive `raw_input` prompt of `saturation_reached`: the answers are an input sequence. When it runs out before a valid answer, the model returns no outcome; the source would go on prompting.
- `time.sleep(t)` in `fixed_timer`, and its parameter `t`: timing has no functional content. The `try/except StopIteration` around its `yield` never fires.
- Lazy suspension of `fixed_timer` and `yield_pos`: they are modelled run to the end. A consumer that stops early sees a prefix of that output. Only `raster` has a pull-based model, `RasterCursor`.
- `fixed_timer` ends when `next(rast)` raises StopIteration, which ends a Python 2 generator normally. Python 3.7 and later turn that into a RuntimeError; the model follows Python 2, the language of the source.
- `np.polyfit`: the coefficients and residuals of the fit are inputs. Only the algebra after the fit is modelled.
- The extrapolation assertion of `to_parmax` is not modelled, because it never fails.
- Extractors.ToParmax: requires `a != 0` when the axis is known and the table is not empty, the only case in which the source divides by `2a`. For `a = 0` numpy divides by zero and yields an infinite or NaN vertex, which `real` cannot represent.
- Commands to the stage (`scope_obj.stage.move_to_pos`) and the `print` calls: hardware and console side effects.
- Arbitrary Python values in `baker`: all arguments share one type, keyword arguments are a map from names to values, and `fun` is a function of the spliced list and the map. A span tuple with non-int items is not modelled.
- Floating point: coordinates and readings are exact reals, so NaN, infinities and rounding are not modelled.
- Sequencers.YieldPos: each given position is taken to be a 3-vector. `np.array` of a row of another length is not modelled.
- Rows of the results table have at least five columns. A table given to `revisit_check` as a numpy array, whose truth value is ambiguous, is not modelled.
- `NoisySignal`, `Overlapped` and `ZeroSignal` are only declared in the source, never raised, so there is no behaviour to verify.
- Everything in `tests/scan_analysis.py` except `scan_direction`: plotting and HDF5 file handling.
