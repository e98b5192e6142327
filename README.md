# xmeans-rs in Dafny: argument parser and split/refine loop

This is a Dafny model of the two sequential parts of `xmeans`, a Rust
command-line tool for X-means clustering.

- **Argument parser** (`parse_args` in `src/args.rs`). It makes one
  left-to-right pass over the command line and fills a record whose
  defaults are `k = 0`, `min_k = 2` and `delim = b','`. The flags
  `-k`/`--k`, `--mink`/`-mink`/`--mk`/`-mk` and `--delim` each take the
  next token as their value. Any other token becomes the data file path
  while the path is still empty; an empty token leaves it empty.
  The first error ends the pass. The `Display` text of the three error
  kinds is modelled too.
- **Split/refine loop** (`next_centroids` and `final_centroids` in
  `src/xmeans.rs`). One round visits every cluster in centroid order and
  gathers the points assigned to it. A cluster with at most five points
  keeps its centroid. A larger one gets a two-way k-means split. The split
  replaces the old centroid unless the old BIC is strictly below the new
  one. `final_centroids` runs up to `limit` such rounds, with a k-means
  refit between them (what that refit is given is described under "The
  refit" below). It stops early when its stop test holds.

## Modules

- `Utf8` (`utf8.dfy`) gives the UTF-8 byte length of a string and the first
  byte of a character's encoding. Rust's `len()` and `as_bytes()[0]`
  work on bytes.
- `IntParse` (`int_parse.dfy`) models `str::parse::<usize>` on a 64-bit
  target:
  - an optional leading `+`, then decimal digits;
  - the error kinds `Empty`, `InvalidDigit` and `PosOverflow`;
  - the text each kind displays.
- `Args` (`args.dfy`) holds `ParsedArgs`, `ParseArgsError` and the method
  `ParseArgs`.
  - `ParseArgs` is the source's loop. It updates a local record field by
    field and returns at the first error.
  - It is proved equal to the function `ParseSpec`. All the parser
    properties are proved about `ParseSpec`.
  - `Outcome` adds `IndexPanic` to Rust's `Result`. `IndexPanic` is the
    panic of `as_bytes()[0]` on an empty `--delim` value.
- `Float64` (`float64.dfy`) models the `f64` `<` used on BIC scores, with
  infinities and NaN.
- `Chunking` (`chunking.dfy`) models `slice::chunks` and its inverse,
  `Flatten`.
- `XMeans` (`xmeans.dfy`) holds the two loops.
  - `NextCentroids` and `FinalCentroids` are methods. They are proved
    equal to the functions `NextSpec` and `Refine`.
  - The k-means library and the BIC scorer are the three function fields
    of an `Oracles` value: `split`, `refit` and `bic`.
  - The random initial partition of the split is folded into `split`.

The definitions the lemmas are about, with the source lines they model:

- `Args.Display` models `Display for ParseArgsError` (src/args.rs:80-92).
- `Args.ScanTokens` and `Args.ParseSpec` model the loop and the path
  checks of `parse_args` (src/args.rs:30-77).
- `Float64.Lt` models the `f64` `<` between the two BIC scores
  (src/xmeans.rs:44).
- `XMeans.Gather` models the gathering of a cluster's points
  (src/xmeans.rs:15-22).
- `XMeans.Contribution` models one iteration of the cluster loop of
  `next_centroids` (src/xmeans.rs:23-48).
- `XMeans.Refine` models the loop of `final_centroids` (src/xmeans.rs:55-71).

## Model

| member | source | states |
|---|---|---|
| `Utf8.ByteLen` | src/args.rs:52 | a string's byte length lies between its character count and four times it, and is zero only for the empty string |
| `Utf8.LeadByte` | src/args.rs:51 | the first byte of an ASCII character is its own code; any other character starts with a lead byte 0xC0..0xF4 |
| `Utf8.SingleByte` | src/args.rs:52 | a string is one byte long exactly when it is a single ASCII character |
| `IntParse.ScanDigits` | src/args.rs:37 | the digit loop of `parse::<usize>` never reports an empty input, and any value it yields is at least the accumulator and at most `usize::MAX` |
| `IntParse.ParseUsize` | src/args.rs:37 | a parsed value never exceeds `usize::MAX`; the `Empty` error occurs exactly for the empty string |
| `IntParse.ParseUsizeExact` | src/args.rs:44 | parsing succeeds exactly on an optional `+` followed by a non-empty run of digits whose value fits in a `usize`, and yields that value |
| `IntParse.ParseToDecimal` | src/args.rs:37 | every `usize` rendered in decimal parses back to itself |
| `Args.ScanTokens` | src/args.rs:30-67 | the token loop stops only with an error or a panic, never with `Ok` |
| `Args.ParseArgs` | src/args.rs:21-78 | the imperative parser returns exactly `ParseSpec(args)`, the outcome the lemmas below describe |
| `Args.PathOnly` | src/args.rs:22-29 | the program name is skipped; a lone `.csv` path gives `Ok` with `k = 0`, `min_k = 2`, `delim = b','` and that path |
| `Args.NoArguments` | src/args.rs:69-71 | with nothing after the program name the result is `Missing("file path")` |
| `Args.ScanAppend` | src/args.rs:29-31 | tokens are consumed strictly in order: a stretch the loop gets through can be run first and the rest resumed from its record |
| `Args.StopIsFinal` | src/args.rs:30-66 | an error ends the pass at the offending token: no later token changes the outcome, so a loop error wins over the file-path checks |
| `Args.TrailingFlag` | src/args.rs:33-50 | a value flag in last position gives `Missing` with that flag's message (`k needs value`, `mink needs value`, `delim needs value`) |
| `Args.NumericFlagValue` | src/args.rs:33-45 | the token after `-k`/`--mink` (and aliases) is always taken as the value, even if it looks like a flag; a parse failure is a `ParseIntError` |
| `Args.FlagAsValue` | src/args.rs:34-37 | `-k --mink x.csv` fails with an invalid-digit `ParseIntError` rather than treating `--mink` as a flag |
| `Args.LastValueWins` | src/args.rs:37-44 | when a numeric flag repeats right after its first value, the pass goes on exactly as if only the second flag and value had been given |
| `Args.FlagFreeKeeps` | src/args.rs:30-67 | tokens that hold no `-k`-style flag leave `k` as it was, and tokens that hold no `--mink`-style flag leave `min_k` as it was |
| `Args.RepeatedFlagWins` | src/args.rs:37-44 | a numeric flag and its value, after any prefix the pass runs through (possibly the same flag with tokens in between), set their field to that value when no later token is a flag of the same kind: the last occurrence wins |
| `Args.DelimValue` | src/args.rs:47-57 | `--delim v`: empty `v` panics; otherwise `v` must be one byte, which holds exactly for a single ASCII character, and that character's code becomes `delim`; else `Bad("delim must be a single character")` |
| `Args.PanicNeedsEmptyDelim` | src/args.rs:51 | the loop panics only when some `--delim` is directly followed by the empty string |
| `Args.Positional` | src/args.rs:58-65 | a non-flag token becomes the path while the path is empty, otherwise it is `Bad("unknown argument <tok>")` |
| `Args.EmptyTokenIsNoPath` | src/args.rs:59-60 | an empty first token leaves the path empty, so the next positional token is accepted as the path |
| `Args.OkExactly` | src/args.rs:69-77 | the result is `Ok` exactly when the loop finishes with a path ending in `.csv`; an empty path is `Missing("file path")`, any other path is `Bad("file (<path>) is not a csv file")` |
| `Args.OkWellFormed` | src/args.rs:69-77 | every `Ok` result has a path of at least four characters ending in `.csv` that is one of the arguments, and counts that fit in a `usize` |
| `Args.DisplayUsage` | src/args.rs:82-90 | `Missing` and `Bad` messages end with a newline and the usage line; integer-parse messages do not |
| `Args.DisplayInjective` | src/args.rs:84-90 | two errors with the same message are the same error |
| `Float64.LtStrict` | src/xmeans.rs:44 | `f64` `<` is irreflexive, asymmetric and transitive, and false whenever either side is NaN |
| `Float64.LtTotal` | src/xmeans.rs:44 | two non-NaN values are equal or one is below the other |
| `Chunking.Chunks` | src/xmeans.rs:13 | every chunk is non-empty and at most `shape` long, and every chunk but the last is exactly `shape` long |
| `Chunking.ChunksExact` | src/xmeans.rs:13 | a buffer of `k·shape` numbers cuts into exactly `k` rows of `shape` numbers |
| `Chunking.FlattenChunks` | src/xmeans.rs:37 | chunking loses and reorders nothing |
| `XMeans.NextCentroids` | src/xmeans.rs:6-51 | the imperative round returns exactly `NextSpec`: the per-cluster contributions concatenated in centroid order |
| `XMeans.GatherSize` | src/xmeans.rs:15-22 | with rows of `shape` numbers, a cluster's gathered data holds `shape` numbers per member |
| `XMeans.GatherRowAt` | src/xmeans.rs:15-22 | a member's row appears in the cluster's data right after the rows of the members before it, so the data is in ascending point order |
| `XMeans.ClusterSizeIsMembers` | src/xmeans.rs:23 | when every data row has as many numbers as the first (`shape`), `cluster_data_len` equals the number of points assigned to the cluster |
| `XMeans.MembersPartition` | src/xmeans.rs:15-22 | when every assignment is below `k`, the member counts of clusters `0..k` add up to the number of points |
| `XMeans.ContributionChoice` | src/xmeans.rs:24-48 | a cluster contributes its split's centroids when it splits and its own centroid otherwise |
| `XMeans.SmallClusterKept` | src/xmeans.rs:24-27 | a cluster of at most five points never splits and contributes its centroid unchanged |
| `XMeans.SplitOnTieOrNaN` | src/xmeans.rs:44-48 | above five points, equal scores or a NaN score lead to the split |
| `XMeans.NextLength` | src/xmeans.rs:24-48 | with `k` whole centroid rows and a split returning two centroids, the new buffer holds `k` plus the number of splits rows: between `k·shape` and `2k·shape` |
| `XMeans.NoSplitIdentity` | src/xmeans.rs:14-50 | when no cluster splits, the new buffer equals the old centroid buffer element for element |
| `XMeans.SameLengthIffNoSplit` | src/xmeans.rs:25-47 | with whole rows and a split returning two centroids, the buffer keeps its length exactly when no cluster splits |
| `XMeans.FinalCentroids` | src/xmeans.rs:55-71 | the imperative loop returns exactly `Refine(...)` and runs at most `limit` rounds, at least one when `limit > 0` |
| `XMeans.RefineNoRounds` | src/xmeans.rs:57-70 | with `limit = 0` the input centroids come back unchanged |
| `XMeans.IntendedStopsAtConvergence` | src/xmeans.rs:60-62 | with the corrected test, the loop stops exactly at a round where no cluster splits and then returns the current centroids |
| `XMeans.AsWrittenRightForScalars` | src/xmeans.rs:60 | for one-dimensional points the source's test behaves like the corrected one |
| `XMeans.AsWrittenPairsStopOnAllSplit` | src/xmeans.rs:60 | for two-dimensional points the source's test holds exactly when every cluster splits |
| `XMeans.AsWrittenMissesConvergence` | src/xmeans.rs:60-62 | a run where no cluster splits, yet the source's test fails and a refit's centroids are returned instead |

## Findings

| source | as written | input that shows it | evidently intended | confidence | as-written member | corrected member |
|---|---|---|---|---|---|---|
| src/xmeans.rs:60 | `next_centroids.len() / shape == last_state.centroids.len()` compares a centroid count with a flat buffer length | two-dimensional data `[[0,0]]`, centroids `[1,1]`, assignments `[0]`, `limit = 1`: the one cluster is too small to split and the round returns `[1,1]`, but `2 / 2 = 1 ≠ 2`, so the loop refits and returns the refit's centroids | stop when the round leaves the centroid buffer at its old length, i.e. no cluster split | high; not executed | `XMeans.AsWrittenMissesConvergence` | `XMeans.IntendedStopsAtConvergence` |

The stop test is an argument of `Refine` and `FinalCentroids` (`StopRule`).
`AsWritten` is the source's test. `Intended` is the corrected one.

## Where the X-means design and the code differ (the model follows the code)

X-means as Pelleg and Moore (2000) describe it, the algorithm
src/bic.rs:9 names, tries a two-way split of every cluster and keeps a
split when the BIC score justifies it. It then refits k-means over the
whole dataset, and stops when the number of centroids no longer changes.
The code departs from this and from its own usage line in three places.

- **The refit.** In X-means the refit runs k-means over the whole
  dataset, seeded with the candidate centroids. The code builds that model
  over the candidate centroid buffer, with the dataset's row count, and
  asks for `next_centroids.len()` clusters, a flat length
  (src/xmeans.rs:63-67). `refit` receives exactly those arguments.
- **Unknown flags.** The usage line at src/args.rs:83 lists only `-k`,
  `--mink` and `--delim` besides the data file path. The code still takes
  any token that is not a known flag as a positional argument, so a stray
  `-x` becomes the file path when none is set, and is otherwise
  `Bad("unknown argument -x")`.
- **The old BIC.** X-means scores the parent cluster as a one-centroid
  model over its own points. The code scores it with `compute_bic(rows,
  &state)` (src/xmeans.rs:38), where `state` is the whole current
  clustering. `bic` receives the whole state.

## Left out

- `src/bic.rs`: the BIC formula is floating-point numerics (square roots,
  logarithms, division by `n − k`). Its three-argument `compute_bic` does
  not match the two-argument calls in `src/xmeans.rs`. Scores are the
  opaque `bic` oracle; only their comparison is modelled.
- The `kmeans` crate (`KMeans::new`, `kmeans_lloyd`, the random-partition
  and installed-centroid initialisers) is a foreign library. It is the
  `split` and `refit` oracles. The only contracts used are that a split
  returns two centroids (`SplitGivesTwo`) and that a refit assigns at most
  its `n` points (`RefitKeepsPoints`). The refit's odd arguments are not
  justified.
- `src/read_csv.rs` (file I/O, float parsing, `unwrap` panics) and
  `src/main.rs` (process exit, `std::env::args`, printing, the unfinished
  `run_xmeans`) are not part of this model.
- The `println!` diagnostics in `next_centroids` are output only.
- Coordinates are reals. The core only copies them, so `f64` rounding and
  NaN coordinates play no part.
- The panics of `next_centroids` and `final_centroids` are preconditions
  (`Shaped`), not modelled outcomes. They come from `wrapped_data[0]` on
  empty data, `chunks(0)` on zero-width rows, and an assigned point with
  no row.
- `usize` is `nat`, with `usize::MAX` fixed to its 64-bit value.
  `OkWellFormed` proves that parsed counts stay within it.
- `IntParse.Describe` gives the standard library's `ParseIntError` texts.
  That library is not part of this model.
- XMeans.FinalCentroids: the number of rounds is a ghost out-parameter.
  Its bound is stated, but it is not tied to a count of rounds in `Refine`.
