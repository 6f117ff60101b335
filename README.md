# p2p-node-stats statistics engine, modelled in Dafny

This project models the statistics engine of `p2p-node-stats` (`src/lib.rs`).
A `Stats` value keeps, for every remote peer, a bounded FIFO window of ping
latencies and another of per-byte transmission durations. On demand it
reduces each window to a mean and a 95% confidence-interval error and renders
a report.

Modules, one per component of the source file:

- `Window` (`window.dfy`): `push_lossy` on a `Vec`, as the function
  `PushLossy` over the window's contents. Lemmas cover the two cases,
  the preserved length bound, and FIFO behaviour over many pushes.
- `Reducer` (`reducer.dfy`): `Duration` as a natural number of nanoseconds, no
  larger than `Duration::MAX`; `durations_mean`, `durations_std_dev` and
  `durations_error_with_ci`. The floating-point path uses exact reals for
  `f64`. The square root and `Duration::from_secs_f64` are parameters
  (`FloatOps`).
- `Reporting` (`reporting.dfy`): the report that the `Display` impl writes. It is
  an abstract `Report` of `Data`/`NoData` entries and its rendering to text.
  The map iteration order and the `{:?}` Debug formatters are parameters.
- `Statistics` (`statistics.dfy`): the class `Stats` with its two maps. `Record`
  gets a peer's window (or inserts an empty one) and then applies `push_lossy`
  with the window size the `Stats` was built with. The source has no such
  method: its maps are public and callers update entries themselves. The
  `window_size` field is private and never read after construction, so
  `Record` assumes that callers pass that same size; the source does not
  enforce it.

Three behaviours of the code that the model keeps:

- The mean is truncated to whole nanoseconds. It is not a floating-point mean.
- Ingestion can panic: with a window size of 0, the first sample for a peer calls
  `remove(0)` on an empty `Vec`.
- A "no data" line has no trailing newline.

## Model

| member | source | states |
|---|---|---|
| `Window.PushLossy` | src/lib.rs:132-139 | the length grows by one below capacity and is unchanged at or over it; the new element is last; callable unless the window size is 0 and the window is empty (the `remove(0)` panic) |
| `Window.PushLossyBelowCapacity` | src/lib.rs:133-137 | below capacity the result is exactly the old window with the element appended, one longer |
| `Window.PushLossyAtCapacity` | src/lib.rs:134-137 | at or over capacity the result is the old window without its first element, with the element appended, same length |
| `Window.PushLossyKeepsOrder` | src/lib.rs:134-137 | at most one element (the oldest) is dropped, and the retained elements keep their order and positions relative to one another |
| `Window.PushLossyKeepsBound` | src/lib.rs:128-139 | with window size at least 1, a window within its capacity stays within it |
| `Window.PushAllKeepsNewest` | src/lib.rs:128-139 | pushing a sequence onto a window within capacity leaves the newest min(total, window size) elements of old window followed by pushed elements, in insertion order |
| `Window.WindowHoldsLastPushes` | src/lib.rs:128-139 | from an empty window, n pushes leave exactly the last min(n, window size) pushed elements in insertion order |
| `Reducer.RunningSumsBounded` | src/lib.rs:33-35 | every running total of the fold is at most the final sum, so the fold's additions never overflow exactly when the final sum fits in a `Duration` |
| `Reducer.DurationsMean` | src/lib.rs:28-39 | `None` exactly for an empty window; otherwise the mean m satisfies m*n <= sum < (m+1)*n (sum divided by count, truncated) |
| `Reducer.DurationsMeanAsWritten` | src/lib.rs:32-36 | the mean with the count cast `as u32`: `None` exactly for an empty window, and equal to `DurationsMean` whenever the count is below 2^32 |
| `Reducer.TruncatedCountSkewsMean` | src/lib.rs:36 | for 2^32+1 samples of 1 ns the as-written mean is 2^32+1 ns while the true mean is 1 ns |
| `Reducer.MeanWithinSampleRange` | src/lib.rs:32-36 | the mean of a non-empty window lies between its smallest and largest sample |
| `Reducer.MeanOfOneThreeFiveSeconds` | src/lib.rs:41-49 | the mean of 1 s, 3 s, 5 s is exactly 3 s |
| `Reducer.SquaredDeviationsNonNegative` | src/lib.rs:54-57 | the sum of squared deviations is never negative, so the square root is taken of a non-negative value |
| `Reducer.DurationsStdDev` | src/lib.rs:51-60 | absent exactly when the window is empty (only through the `?` on the mean) |
| `Reducer.DurationsErrorWithCi` | src/lib.rs:74-83 | absent exactly when the window is empty; computed for every non-empty window, without enforcing n >= 30 |
| `Reducer.SingleSampleHasZeroStdDev` | src/lib.rs:51-60 | a one-sample window has standard deviation `from_secs_f64(0)` and a defined error bound |
| `Reducer.StdDevOfOneThreeFiveSeconds` | src/lib.rs:62-72 | for 1 s, 3 s, 5 s the standard deviation is the square root of 8/3 s^2, which lies within 0.01 s of 1.63 s |
| `Reducer.Sum` | src/lib.rs:33-35 | the left fold from zero: the total is at least every single sample |
| `Reducer.SquaredDeviations` | src/lib.rs:54-56 | the fold of squared deviations from the mean: the total is at least every single squared deviation |
| `Reporting.SectionEntries` | src/lib.rs:87-102 | the `map` over the iterated peers: one entry per peer, the i-th naming the i-th peer |
| `Reporting.RenderEntry` | src/lib.rs:96-99 | a numeric line ends in a line break; a "no data" line ends with the peer's Debug text and no line break after it |
| `Reporting.RenderEntries` | src/lib.rs:87-102 | the `collect` into a `String`: the section text ends with the rendering of its last entry |
| `Reporting.Render` | src/lib.rs:120-124 | the report text starts with the own peer id's Debug text followed by a line break |
| `Reporting.EntryFor` | src/lib.rs:91-100 | an entry names its peer and is numeric exactly when the window is non-empty, then carrying that window's mean and error |
| `Reporting.SectionFollowsOrder` | src/lib.rs:87-102 | a section has one entry per iterated peer, the i-th being the entry of the i-th peer |
| `Reporting.SectionListsEachPeerOnce` | src/lib.rs:87-119 | every peer of the map appears in its section exactly once and no other peer appears; its entry is numeric exactly when its window is non-empty, with that window's mean |
| `Reporting.BuildReport` | src/lib.rs:85-126 | the report is headed by the own peer id and each section has as many entries as its map has peers |
| `Reporting.EntryLineBreaks` | src/lib.rs:96-99 | a rendered numeric line ends in a line break and contains exactly one; a rendered "no data" line contains none |
| `Reporting.SectionLineBreaks` | src/lib.rs:87-102 | a rendered section contains one line break per numeric entry |
| `Reporting.ReportLineBreaks` | src/lib.rs:120-124 | the rendered report contains 3 line breaks plus one per numeric entry of either section, so a "no data" line runs into the next one |
| `Statistics.Stats.constructor` | src/lib.rs:12-19 | both maps start empty, with the given window size and peer id |
| `Statistics.Stats.Record` | src/lib.rs:128-139 | only the chosen map's entry for the peer changes, to `PushLossy` of its old window (empty for a new peer); the other map is unchanged; the bounded-window invariant is kept |
| `Statistics.Stats.Report` | src/lib.rs:85-126 | the report is headed by the own peer id and lists each peer of each map exactly once, numeric exactly when its window is non-empty |
| `Statistics.EvictionScenario` | src/lib.rs:128-139 | window size 3 fed 1 s, 3 s, 5 s, 7 s keeps 3 s, 5 s, 7 s, with mean 5 s |

## Left out

- `save_to_file` (src/lib.rs:21-25) is not modelled: creating and writing the file is I/O.
- The per-key locking of `CHashMap` and concurrent callers are not modelled; the maps are sequential Dafny maps and `Record` runs atomically.
- The order in which `CHashMap::into_iter` yields peers is unspecified; it is a parameter of the report, which may be any listing of the map's keys without repeats.
- The `{:?}` Debug rendering of `String` and `Duration` belongs to the standard library; it is a parameter (`Formatter`), assumed only to produce no line breaks in `ReportLineBreaks`.
- `f64` rounding is not modelled: `as_secs_f64`, `powi`, the sums and the divisions are exact reals. `sqrt` and `Duration::from_secs_f64` are parameters. The panics of `from_secs_f64` on negative or too-large inputs are therefore not modelled either.
- Reducer.DurationsErrorWithCi: also requires the square-root parameter to be an exact square root, so that the division by `sqrt(n)` is defined; `f64` division by zero would give infinity instead.
- `Duration / u32` belongs to the standard library. It is modelled as the total nanoseconds divided by the count, truncated. Some implementations of that division may come out one nanosecond lower.
- A `Duration` addition overflow panics; the reducers and the report require that every window's sum fits in a `Duration` instead of modelling the panic.
- Statistics.Stats.Record: the bounded-window invariant holds only while windows change through `Record`; the source's maps are public, so a caller could insert a longer window directly.
- Reducer.DurationsStdDev: centres on the corrected mean `DurationsMean` (see "## Findings"), not on the source's `len() as u32` division; the two agree for windows of fewer than 2^32 samples, and for larger windows the source uses a different mean or panics where the model returns a value.
- Reporting.EntryFor: its numeric entry carries the corrected mean `DurationsMean` (see "## Findings"); for windows of 2^32 or more samples the source prints a different mean (2^32 + 1 samples of 1 ns: 2^32 + 1 ns instead of 1 ns) or panics (exactly 2^32 samples), while the model returns a numeric entry.
- Statistics.Stats.Record: the window size it applies is the one the `Stats` was built with; in the source that field is private and unused, and nothing makes callers pass it.
- Statistics.Stats.Report: its contract does not restate the mean of each numeric entry; `Reporting.SectionListsEachPeerOnce` states it.

## Findings

| source | as written | input that shows it | evidently intended | confidence | as-written member | corrected member |
|---|---|---|---|---|---|---|
| src/lib.rs:36 | the count is `durations.len() as u32`, which keeps it modulo 2^32 | a window of 2^32 + 1 samples of 1 ns: the divisor becomes 1 and the mean 2^32 + 1 ns instead of 1 ns (a window of exactly 2^32 samples divides by zero and panics) | divide the sum by the full number of samples | low: needs a window of more than 2^32 samples; not executed | `Reducer.DurationsMeanAsWritten` (shown by `Reducer.TruncatedCountSkewsMean`) | `Reducer.DurationsMean` |
