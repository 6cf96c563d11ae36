# yambopy core: time-step convergence controller and quasiparticle database recipes

This project is a verified Dafny model of two parts of yambopy, the Python
driver for the Yambo many-body code.

**The real-time time-step optimizer** (`YamboRTStep_Optimize`). From a
largest time step, a decrement and a count, it derives a decreasing list of
candidate time steps and schedules the simulations:

- the field starts at the least common multiple of the steps;
- the simulated time is that instant plus the field's settling time and a
  reference time.

It then runs the external real-time engine once per candidate. Each run is
sanitized and classified by a NaN/overflow test and a carrier-conservation
test. Each run is also compared with the previous one by a |pol|² test and a
test of the polarization along the field. A streak counter tracks
consecutive passing comparisons, and the loop stops as soon as the streak
reaches 2. The engine is a parameter, `run: int -> RunRecord`, which maps a
time step to the output database it produces.

**The quasiparticle database recipes** in `recipes.py`:

- `merge_qp` stacks the tables of several databases. It fills a k-point
  table indexed by the k index of each row, concatenates the energies and
  builds `PARS` and the description string.
- `add_qp` keys the rows of several databases by `(n1, n2, k)`. It remembers
  the last bare energy of each key, and adds (or subtracts) the corrections
  `E - Eo` of the `add`, `subtract` and `addimg` databases. It emits the
  keys sorted by k-point and then by band.
- `plot_excitons` contributes the `get_var` lookup, the size of its grid of
  panels and the energy order of the panels.

Modules:

- `Wrappers`: Option and Result.
- `Text`: Python's `'%0<w>d'` formatting and reading it back, and
  `str.split('.')[0]`.
- `Sorting`: Python's stable `sorted` with a key, as an insertion sort over
  a total preorder.
- `Samples`: numpy float samples as exact reals plus NaN and signed
  infinities, with IEEE special-value rules.
- `RtTimestepOptimize`: the optimizer. It has a class `StepOptimizer` for
  the object whose fields the procedure updates, and a class `RunDatabase`
  for the output database that `nan_test` overwrites in place. The loop of
  `RUN_convergence` is specified by an unrolled log (`Unrolled`, `Converge`).
- `QpDatabases`: `merge_qp` and `add_qp`.
  - Each is given as a specification function (`MergeQpSpec`, `AddQpSpec`)
    and as a method that follows the source's loops over maps, sequences
    and arrays (`MergeQp`, `AddQp`). Each method is proved equal to its
    specification.
  - Lemmas state what the specifications promise.
- `Excitons`: `get_var`, the grid sizing and the panel order of
  `plot_excitons`.

Python errors become `Err` values:

- `exit()` calls;
- `KeyError`, `IndexError` and `ValueError` (the maximum of an empty
  column, no input files);
- `ZeroDivisionError` (no exciton).

No input is excluded by a precondition where the source handles it or
raises, with one exception: the engine's outputs must all have the same
shape (see `RtTimestepOptimize.UniformOracle` under "Left out").

## Model

| member | source | states |
|---|---|---|
| RtTimestepOptimize.StepOptimizer.constructor | yambopy/rt/rt_timestep_optimize.py:20-33 | the controller keeps the deck, reference time, largest step, decrement, count and both tolerances it was given |
| RtTimestepOptimize.StepOptimizer.Optimize | yambopy/rt/rt_timestep_optimize.py:40-54 | a decrement that does not divide the largest step (or is zero) halts with nothing changed and no engine call; otherwise the dipoles are computed unless present, a failing schedule halts with its error, and a good one leaves the scheduled deck and candidates on the object and returns the log of the convergence loop, whose outputs and count are stored |
| RtTimestepOptimize.StepOptimizer.ComputeDipoles | yambopy/rt/rt_timestep_optimize.py:115-141 | the engine is asked for the dipoles exactly when their database is absent; the dipole folder is `dipoles` |
| RtTimestepOptimize.InputToRun | yambopy/rt/rt_timestep_optimize.py:143-150 | the run deck is the base deck with the scanned parameter set to `[value, units]` and every other entry unchanged |
| RtTimestepOptimize.Positive | yambopy/rt/rt_timestep_optimize.py:99 | the filter keeps exactly the positive entries, each taken from the input |
| RtTimestepOptimize.CandidatesShape | yambopy/rt/rt_timestep_optimize.py:98-101 | with a positive decrement the candidates are MAX, MAX-inc, ... while positive, at most N of them, starting at MAX, stopping after N values or at the first non-positive one |
| RtTimestepOptimize.CheckedCandidatesAreMultiples | yambopy/rt/rt_timestep_optimize.py:40-45 | once the divisibility check passes, every candidate is a multiple of the decrement |
| RtTimestepOptimize.LcmIsCommonMultiple | yambopy/rt/rt_timestep_optimize.py:104 | numpy's `lcm(a, b)` of two positive steps is positive and divisible by both |
| RtTimestepOptimize.LcmAll | yambopy/rt/rt_timestep_optimize.py:104 | `np.lcm.reduce` of positive steps is positive and divisible by every step |
| RtTimestepOptimize.LcmLeast | yambopy/rt/rt_timestep_optimize.py:104 | numpy's `lcm(a, b)` of two positive steps divides every common multiple of them: it is the least one |
| RtTimestepOptimize.LcmAllLeast | yambopy/rt/rt_timestep_optimize.py:104 | `np.lcm.reduce` of positive steps divides every common multiple of the steps, so the field start is the least instant that every step reaches in whole steps |
| RtTimestepOptimize.ScheduledDeck | yambopy/rt/rt_timestep_optimize.py:105-110 | the run deck gains `Field1_Tstart = [lcm, fs]`, `NETime = [neTime, fs]` and `IOCachetime = [[lcm, lcm], fs]`, every other entry unchanged |
| RtTimestepOptimize.ScheduleTiming | yambopy/rt/rt_timestep_optimize.py:97-112 | a successful schedule has the generated candidates, their count, the extremes `(MAX, MAX-(N-1)inc)` (the first and last candidates for a positive decrement), lcm/1000 fs divisible by every step, duration lcm + field time + reference time, and the convergence list with the first step doubled |
| RtTimestepOptimize.ScheduleSucceeds | yambopy/rt/rt_timestep_optimize.py:76-99 | FIND_values succeeds iff the field kind is DELTA, or QSSIN with a `[value, unit]` width, the direction entry can be indexed (anything but a bare number or an empty word, as printing `Field1_Dir[0]` demands) and at least one candidate is positive |
| RtTimestepOptimize.QssinWithoutWidthHalts | yambopy/rt/rt_timestep_optimize.py:83-91 | a QSSIN field without `Field1_FWHM` halts with the missing-width error |
| RtTimestepOptimize.ZeroWidthWithUnitAccepted | yambopy/rt/rt_timestep_optimize.py:84-93 | a width stored as `[0, unit]` passes the zero guard and adds no settling time |
| RtTimestepOptimize.StepOptimizer.FindValues | yambopy/rt/rt_timestep_optimize.py:71-113 | on success the object's steps, count, extremes and duration and its deck are those of the schedule, and the returned list is the schedule's; on failure the schedule's error is returned |
| RtTimestepOptimize.StepOptimizer.ScheduleSteps | yambopy/rt/rt_timestep_optimize.py:97-113 | once the settling time is known: with no positive candidate, or no settling time, the schedule's error is returned; otherwise the object's steps, count, extremes and duration are the schedule's, its deck differs from the old one only in the field start, the duration and the cache window, and the returned list is the schedule's |
| RtTimestepOptimize.ScheduleOfSuccess | yambopy/rt/rt_timestep_optimize.py:77-113 | when the field settles after a known time, the direction is readable and a candidate remains, the schedule holds the candidates, their count, the extremes, lcm/1000 fs, the duration lcm + settling time + reference time and the list with the first step doubled |
| RtTimestepOptimize.CandidateExtremes | yambopy/rt/rt_timestep_optimize.py:98-101 | with a positive decrement the first candidate is the largest step and the last is MAX-(N-1)inc, so the recorded extremes are the first and last candidates |
| RtTimestepOptimize.StepOptimizer.SetTimeSteps | yambopy/rt/rt_timestep_optimize.py:98-101 | the object keeps the generated candidates for the count it held, their number, and the extremes `(MAX, MAX-(N-1)inc)` |
| RtTimestepOptimize.StepOptimizer.StartField | yambopy/rt/rt_timestep_optimize.py:104-105 | the deck gains `Field1_Tstart = [lcm, fs]` and nothing else changes |
| RtTimestepOptimize.StepOptimizer.SetDuration | yambopy/rt/rt_timestep_optimize.py:106-110 | the deck gains `NETime = [total, fs]` and `IOCachetime = [[lcm, lcm], fs]`, and the object's duration is the total |
| Samples.NanToNum | yambopy/rt/rt_timestep_optimize.py:237 | `nan_to_num` yields a finite sample and leaves finite samples unchanged |
| RtTimestepOptimize.Sanitize | yambopy/rt/rt_timestep_optimize.py:236-243 | after nan_test the polarization has its shape, only finite entries within the overflow threshold, and every finite entry within the threshold unchanged |
| RtTimestepOptimize.TwoStepSanitize | yambopy/rt/rt_timestep_optimize.py:236-243 | nan_to_num (when a NaN was seen) followed by zeroing the overflowing entries gives exactly `Sanitize`, and the first step does not change whether anything overflows |
| RtTimestepOptimize.CleanRunUnchanged | yambopy/rt/rt_timestep_optimize.py:234-246 | a run that passes nan_test is left as it was and has only finite entries within the threshold |
| RtTimestepOptimize.StepOptimizer.NanTest | yambopy/rt/rt_timestep_optimize.py:230-246 | the verdict is "no NaN in polarization or carrier difference, and no overflow", and the database's polarization is overwritten with its sanitized form |
| RtTimestepOptimize.ElectronConservationTest | yambopy/rt/rt_timestep_optimize.py:298-306 | the carrier test passes iff no ratio is strictly greater than the tolerance (NaN ratios pass) |
| RtTimestepOptimize.ElectronTestMonotone | yambopy/rt/rt_timestep_optimize.py:303-305 | passing under a tolerance implies passing under any larger one |
| RtTimestepOptimize.PolAlongField | yambopy/rt/rt_timestep_optimize.py:332-338 | the axis is always 0; the label is `pol-x` for every vector direction, whatever its components, because `field[0]` is the list of components; only a `[0, unit]` entry gives `pol-y`, and `pol-z` never occurs |
| RtTimestepOptimize.IdenticalRunsPass | yambopy/rt/rt_timestep_optimize.py:308-330 | two runs with the same polarization pass both tests, even with NaN or infinite entries |
| RtTimestepOptimize.PolErrorOnFiniteRuns | yambopy/rt/rt_timestep_optimize.py:313-330 | on finite runs with a positive tolerance a test passes iff the compared quantity never grows by more than the tolerance (one-sided) |
| RtTimestepOptimize.AlongFieldIgnoresYandZ | yambopy/rt/rt_timestep_optimize.py:319-322 | the along-field test passes whenever the x rows agree, whatever the other rows and the field direction |
| RtTimestepOptimize.AnalysePol | yambopy/rt/rt_timestep_optimize.py:213-228 | when both last runs conserve carriers the two tests are run and the streak grows by one iff both pass, else restarts at 0; otherwise both tests are reported failed and the streak is kept |
| Text.FormatIntRoundTrip | yambopy/rt/rt_timestep_optimize.py:167 | the `'%05d'` field of a run file name reads back as the time step |
| Text.BeforeFirst | yambopy/rt/rt_timestep_optimize.py:168 | `split('.')[0]` is the longest dot-free prefix, followed by a dot when shorter than the name |
| RtTimestepOptimize.RunFolderIsNameWithoutExtension | yambopy/rt/rt_timestep_optimize.py:167-168 | when neither the parameter nor the units hold a dot, the run folder is the file name without `.in` and the time step can be read back from it |
| RtTimestepOptimize.LogShape | yambopy/rt/rt_timestep_optimize.py:183-199 | after n iterations the run, output, NaN and carrier lists have n entries, the polarization lists n-1, the streak is 0 after the first run, and a carrier pass implies a NaN pass |
| RtTimestepOptimize.UnrolledStep | yambopy/rt/rt_timestep_optimize.py:163-205 | one iteration appends the run, its sanitized output and its two verdicts, and from the second run on the ANALYSE_pol verdict, whose streak becomes the counter; the pair (current, previous step) is printed iff the counter is 2 |
| RtTimestepOptimize.CounterBounded | yambopy/rt/rt_timestep_optimize.py:193-222 | the streak never exceeds the number of comparisons that passed both tests, nor the number of comparisons |
| RtTimestepOptimize.ConvergeStopsAtFirstStreakOfTwo | yambopy/rt/rt_timestep_optimize.py:163-205 | the loop runs at least one candidate, stops right after the first iteration that brings the streak to 2, and otherwise runs every candidate |
| RtTimestepOptimize.ConvergedRunEndsWithPass | yambopy/rt/rt_timestep_optimize.py:202-205 | a converged loop ran at least three candidates, its last comparison passed both tests, and it printed the current step and the one before it |
| RtTimestepOptimize.ExhaustedPrintsNothing | yambopy/rt/rt_timestep_optimize.py:163-207 | a loop that never reached a streak of 2 ran every candidate and printed nothing |
| RtTimestepOptimize.StepOptimizer.ConvergenceStep | yambopy/rt/rt_timestep_optimize.py:164-205 | one pass of the loop body turns the log of i iterations into the log of i+1 |
| RtTimestepOptimize.StepOptimizer.ConvergenceLoop | yambopy/rt/rt_timestep_optimize.py:163-205 | the while loop with its break leaves exactly the log `Converge` specifies |
| RtTimestepOptimize.StepOptimizer.RunConvergence | yambopy/rt/rt_timestep_optimize.py:152-208 | the returned log is `Converge` for the object's deck, field, tolerances and steps; the object keeps its outputs and their count |
| RtTimestepOptimize.StepOptimizer.KeepOutputs | yambopy/rt/rt_timestep_optimize.py:206-207 | after the loop the object holds the run outputs and their number |
| QpDatabases.DescriptionReadsBack | yambopy/recipes.py:267-271 | the description is `" QP @ K kmin - kmax : b bmin - bmax"` in `%03d`; the four numbers read back, bound every row's k and second band, and are attained by some row |
| QpDatabases.Zip | yambopy/recipes.py:374 | `zip` pairs rows up to the shorter of table and energies |
| QpDatabases.InsertionOrder | yambopy/recipes.py:374-381 | the dictionary's keys are listed once each, exactly the keys read |
| QpDatabases.LastEoIsLastWriter | yambopy/recipes.py:374-375 | each key holds the bare energy of the last pair that lists it |
| QpDatabases.FirstMismatch | yambopy/recipes.py:353-356 | none iff every database has the first one's k-point count; otherwise the name of the first database that differs |
| QpDatabases.ReadFile | yambopy/recipes.py:374-376 | the pair loop of one database leaves `qpdic` = last bare energies, `qpdici` = zeros on the same keys, and the keys in insertion order |
| QpDatabases.ReadDatabases | yambopy/recipes.py:347-376 | the reading loop reports the first k-point mismatch, and otherwise leaves the dictionaries of all pairs read |
| QpDatabases.AccumulatedMeaning | yambopy/recipes.py:399-414 | the `+=`/`-=` loops fail iff some key is missing from the dictionary, naming the first; otherwise the keys are kept and each value gains (loses) its total correction |
| QpDatabases.AccumulateFile | yambopy/recipes.py:401-402 | the `+=` loop over one database continues the accumulation |
| QpDatabases.Accumulate | yambopy/recipes.py:399-414 | the loops over the databases compute the accumulation over all their pairs |
| QpDatabases.CorrectedKeysKnown | yambopy/recipes.py:372-408 | every key of the `add` and `subtract` databases was read into the dictionary |
| QpDatabases.CorrectionsSucceed | yambopy/recipes.py:399-408 | the `add` and `subtract` loops then raise no KeyError and leave bare energy + added - subtracted corrections |
| QpDatabases.AddQpKeys | yambopy/recipes.py:381 | the sorted keys are exactly the keys read |
| QpDatabases.BareRows | yambopy/recipes.py:384-395 | the zeroed output slices get the bare energies in the real slice and Z = 1 in both |
| QpDatabases.AddEnergies | yambopy/recipes.py:422-425 | the last loop adds each key's accumulated value to its row's energy in both slices |
| QpDatabases.AddQp | yambopy/recipes.py:323-445 | the method computes exactly `AddQpSpec` |
| QpDatabases.AddQpRejects | yambopy/recipes.py:328-356 | add_qp fails on no database, and on a database whose k-point count differs from the first's, naming the first such |
| QpDatabases.AddQpUnknownKey | yambopy/recipes.py:410-414 | it then fails iff an imaginary correction names a key never read, naming the first |
| QpDatabases.AddQpEmptyTable | yambopy/recipes.py:442-443 | otherwise it fails only when no pair was read (the minimum of an empty column) |
| QpDatabases.AddQpTiesInReadOrder | yambopy/recipes.py:380-381 | keys with the same k-point and second band appear in the order the dictionary first received them |
| QpDatabases.AddQpRows | yambopy/recipes.py:380-445 | the output rows are the distinct keys read, each once, sorted by k then second band; PARS is the first database's with the new row count, k-points those of the first database, description of the rows in the last database's slot |
| QpDatabases.AddQpImagKeys | yambopy/recipes.py:410-414 | a successful add_qp has imaginary corrections only for keys that were read |
| QpDatabases.AddQpBareEnergies | yambopy/recipes.py:391-392 | each output row's bare energy is the one of the last pair listing its key |
| QpDatabases.AddQpEnergies | yambopy/recipes.py:393-425 | real energy = bare + added - subtracted corrections with Z = 1; imaginary row = (sum of imaginary corrections, 0, 1) |
| QpDatabases.PyIndex | yambopy/recipes.py:251 | a Python index is valid iff `-n <= i < n`, a negative one counting from the end |
| QpDatabases.FilledErrors | yambopy/recipes.py:247-251 | the k-point writes fail iff some index is out of range of the output or source table, and report the first such |
| QpDatabases.FilledCells | yambopy/recipes.py:245-251 | each k-point of the filled table holds the one copied by the last write to it, or its starting value when no write reaches it |
| QpDatabases.FillFile | yambopy/recipes.py:249-251 | the inner loop performs one database's writes in place on the array |
| QpDatabases.FillKpoints | yambopy/recipes.py:245-251 | the array filled by the loops is the k-point table of the writes, or the first IndexError |
| QpDatabases.ReadMerged | yambopy/recipes.py:225-254 | the reading loop stacks the tables and concatenates both energy slices |
| QpDatabases.MergeQp | yambopy/recipes.py:222-271 | the method computes exactly `MergeQpSpec` |
| QpDatabases.TableRow | yambopy/recipes.py:240 | row j of database i is row `|tables before i| + j` of the stacked table, and its write copies its own database's k-point |
| QpDatabases.EnergiesRow | yambopy/recipes.py:254 | row j of the energies of database i is row `|energies before i| + j` of the concatenation |
| QpDatabases.TablesEmpty | yambopy/recipes.py:240-244 | the stacked table is empty iff every table is |
| QpDatabases.MergeQpEarlyErrors | yambopy/recipes.py:240-245 | merge_qp fails on no database, on all-empty tables, and on a largest k index below zero, exactly then |
| QpDatabases.MergeQpIndexErrors | yambopy/recipes.py:247-251 | past those it fails iff a row's k index is out of range of its own k-points or of the output, naming the first such |
| QpDatabases.MergeQpKpoints | yambopy/recipes.py:244-251 | the output has as many k-points as the largest k index, attained by a row and bounding all; each holds the last copied k-point for it or the origin |
| QpDatabases.MergeQpVariables | yambopy/recipes.py:254-271 | the output table is the stack, the energies the concatenations, PARS the first database's with the new sizes, the description the merged table's, in the last database's slot |
| Sorting.SortBy | yambopy/recipes.py:381 | the sort is a permutation of its input |
| Sorting.SortBySorted | yambopy/recipes.py:381 | the sort's output is ordered by the relation |
| Sorting.SortByStable | yambopy/recipes.py:381 | the sort is stable: the elements that tie with any given element come out in their input order |
| Excitons.GetVarFails | yambopy/recipes.py:501-509 | get_var fails iff no listed name is a key, naming them all |
| Excitons.GetVarFirst | yambopy/recipes.py:505-507 | on success the value is the one under the first listed name present |
| Excitons.CeilSqrt | yambopy/recipes.py:536 | `ceil(sqrt(n))`: squares to at least n, and one less squares to less than n |
| Excitons.CeilSqrtLeast | yambopy/recipes.py:536 | no smaller number squares to n or more |
| Excitons.GridFits | yambopy/recipes.py:536-537 | the grid exists iff there is an exciton; it holds them all with no spare row, and has as many rows as columns or one fewer |
| Excitons.PanelsFit | yambopy/recipes.py:546-552 | each exciton's subplot index is within `nx * ny`, and distinct excitons get distinct panels |
| Excitons.SortedExcitonsStable | yambopy/recipes.py:544 | excitons of equal energy keep their order in the file |
| Excitons.SortedExcitonsOrdered | yambopy/recipes.py:544 | the panels hold the same excitons, each as often, in non-decreasing energy |
| Excitons.LayoutPlacesAll | yambopy/recipes.py:520-552 | the layout fails only without excitons, and otherwise fits every exciton, in energy order |

## Left out

- Files, netCDF, JSON and logs are not modelled: reading and writing them,
  the scheduler's shell commands, directory creation, printing and plotting
  (`PLOT_output`, the matplotlib calls). A database is the value of the
  variables the recipes read from it, and the engine is the `run` parameter.
- Floating point is not modelled. Numbers are exact reals (with NaN and the
  infinities where numpy produces them). So rounding, and float `sqrt`/`ceil`
  on very large exciton counts, are out of the model.
- Integer width is not modelled. `np.lcm.reduce` works on 64-bit integers
  and can overflow; `LcmAll` is exact.
- `RtTimestepOptimize.StepOptimizer.ScheduleSteps`: the fields it has
  already set when it fails are not stated.
- `RtTimestepOptimize.StepOptimizer.FindValues`: the fields it has already
  set when it fails are not stated. Its contract says nothing about the
  object's state on an error path.
- `RtTimestepOptimize.StepOptimizer.Optimize`: the procedure runs the dipole
  step before the schedule, so a deck error surfaces only after the dipoles
  were computed. The model follows this order rather than failing fast.
- `Field1_FWHM` is tested against `0.` as a whole deck entry. Only a bare
  number 0 is refused; a `[0, unit]` entry is accepted. The model follows
  this guard rather than a reading of it as "unset or zero".
- An empty list of candidates is an error. `np.lcm.reduce` fails on the
  empty float array before the field kind is checked, and the model reports
  `NoCandidates` there.
- Python's own exceptions become named errors. A field kind that is neither
  DELTA nor QSSIN leaves the local `FieldTime` unbound, and the source
  raises when it computes `NETime`; the model reports `UnknownFieldKind` at
  that point. A missing field direction, or one that cannot be indexed (a
  bare number or an empty word), is `MissingFieldDirection`, where the
  source raises when it prints `Field1_Dir[0]`.
- The deck parser (`YamboIn`) is not part of this model. The model takes its
  storage convention: a number with a unit is `[value, unit]` and a vector
  is `[[x, y, z], unit]`. The direction label of `pol_along_field` depends on
  that convention.
- `RtTimestepOptimize.UniformOracle`: the convergence loop (`Optimize`,
  `RunConvergence`, `ConvergenceLoop`, `ConvergenceStep` and the loop
  lemmas) requires every engine output to hold a polarization of 3 rows of
  one common length. The source's comparison assumes the same (the cached
  times coincide), and raises otherwise: an IndexError with fewer than 3
  rows, a broadcasting ValueError when two runs' lengths differ and neither
  is 1. Those raises, and the broadcast of a run of length 1, are not
  modelled.
- No recommended time step is stored, because the source stores none. The
  loop prints the current step and the previous one when the streak reaches
  2, and the model records that pair (`Log.printed`).
- `ANALYSE_output`, `ANALYSE_report` and `list_error` are not modelled.
  They are not reachable: their calls are commented out.
- `QpDatabases.AddQp`: files are values. add_qp keys its dictionaries by
  file name, so two arguments with the same name hold the same content in
  the source. The model reads each argument's own value.
- `QP_table` is read as floats and truncated by `int(...)` and `'%03d'`. The
  model keeps its entries as integers.
- Energy slices of different lengths: `zip` truncation is modelled. The
  imaginary slice is longer than the real slice only in inputs whose
  imaginary corrections name keys never read, and those raise `UnknownKey`.
- `verbose` description printing and the netCDF dimension bookkeeping are
  left out (pure output).
