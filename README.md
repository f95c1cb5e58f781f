# audioset_dl, modelled in Dafny

A model of how `audioset_dl` (the downloader for Google's AudioSet) picks what to fetch.
It covers how the catalog is assembled from the eval, balanced and unbalanced partitions
and how each requested class name is resolved against the ontology. It covers the label
filter: an exact match for one class, or a search pattern made of lookaheads. It covers
the selection step (the most viewed, the most liked, or a random sample). Last, it covers
the per-row `_download` job: the skip test, the `ffmpeg` trim arguments, the output
template and the optional cookie file.

Modules, one per component of `src/audioset_downloader/main.py`:

- `Outcomes`: `Option`, `Result` and the exceptions that abort a run before any fetch.
- `Text`: substring containment, `str.join`, and `%d`/`%02d` rendering with its read-back.
- `Ontology`: `Resolve` (`fullmatch(name)` then `.item()`), and `ResolveAll` (the `cls_id += [...]` loop).
- `Catalog`: rows tagged with their partition, concatenated in eval, balanced, unbalanced order.
- `Query`: the pattern text, its structure as alternatives of lookahead runs, `re.search` over it, and the filter.
- `Selection`: descending sort, slicing, `sample` and the choice between them.
- `Dispatch`: the `_download` skip test, `str(timedelta)`, and the options dict.
- `Downloader`: the whole of `audioset_dl` as one method, plus lemmas about what a successful run submits.

Two behaviours of the code as written are stated and proved, not corrected:

- **Union matches everything.** With two or more ids, `'||'.join(...)` puts an empty
  alternative between the lookaheads, so every label string matches
  (`Query.UnionMatchesEverything`, `Query.UnionAdmitsOtherClasses`). With `mixed` and no
  `n_examples`, every catalog row is then fetched (`Downloader.RunUnionFetchesWholeCatalog`).
- **Several names without `mixed` fetch nothing.** `cls_id` is then a list, and a label
  string never equals a list, so `_download` returns early for every row
  (`Downloader.RunSkipsAllForSeveralNames`).

Points where the code's behaviour is not what its help text or call suggest:

- The `--class-union` help text (main.py:25-26) says only "use union". With exactly one id
  the union pattern is containment of that id; with two or more ids the `'||'` pattern
  matches every row (`Query.UnionMatchesEverything`).
- `sort_values` is called with its default sort, which is not stable, so the model claims
  no tie order: the most-viewed and most-liked selections are stated as a relation
  (`Selection.TopRows`) that any choice among tied rows at the cut satisfies. The model's
  stable insertion sort is one admissible choice.
- With several names and no `mixed`, `_download` (main.py:100) skips every row.

Assumptions: class ids and names hold no regular-expression metacharacters, and label
strings hold no newline. Under that, `fullmatch` is string equality and a lookahead
`(?=.*w)` tried at a position holds when `w` occurs at or after it. Times are whole
seconds. Real AudioSet names break the first assumption: "Rattle (instrument)" and
"Zipper (clothing)" hold parentheses, so the unescaped `fullmatch` (main.py:90, 96) reads
them as groups, matches no entry, and `.item()` raises, whereas `Ontology.Resolve` returns
the entry's id.

## Model

| member | source | states |
|---|---|---|
| `Ontology.Resolve` | src/audioset_downloader/main.py:90-96 | a name resolves to an id exactly when one ontology entry has that name, and then to that entry's id; zero or several matches is `LabelNotUnique` |
| `Ontology.SingleMatchingId` | src/audioset_downloader/main.py:96 | the matched ids have length one exactly when one entry is uniquely named, and are then that entry's id |
| `Ontology.ResolveAll` | src/audioset_downloader/main.py:87-90 | succeeds exactly when every name resolves, with one id per name in name order; otherwise `LabelNotUnique` |
| `Catalog.AssembleMembership` | src/audioset_downloader/main.py:73-85 | a row is in the catalog exactly when it is a segment of a non-excluded partition tagged with that partition |
| `Catalog.AssembleLayout` | src/audioset_downloader/main.py:73-85 | the catalog size is the sum of the included partitions; eval rows precede balanced rows, which precede unbalanced rows; an excluded partition contributes no row |
| `Query.RegexTextStructure` | src/audioset_downloader/main.py:91-93 | the joined pattern text equals its branches written out with a bar between them; with the double-bar separator every separator adds an empty branch |
| `Query.SearchMeansSomeBranch` | src/audioset_downloader/main.py:94 | a search succeeds exactly when, for some branch, every id of it occurs in the label string |
| `Query.IntersectionMeansAll` | src/audioset_downloader/main.py:91-94 | without union, a label string passes exactly when it contains every id |
| `Query.IntersectionOrderFree` | src/audioset_downloader/main.py:88-94 | the intersection filter depends only on the set of ids, not on their order |
| `Query.UnionMatchesEverything` | src/audioset_downloader/main.py:91-94 | with union and two or more ids, every label string passes |
| `Query.UnionOfOne` | src/audioset_downloader/main.py:91-94 | with union and at most one id, a label string passes exactly when it contains that id (every string passes when there is none) |
| `Query.UnionCoversAnyId` | src/audioset_downloader/main.py:91-94 | a label string containing at least one id always passes the union filter |
| `Query.UnionAdmitsOtherClasses` | src/audioset_downloader/main.py:91-94 | the union of the Speech and Snoring ids passes a label string containing neither id |
| `Query.FilterCount` | src/audioset_downloader/main.py:127 | the filtered rows hold each passing row as often as the catalog does, and no failing row |
| `Query.FilterAppend` | src/audioset_downloader/main.py:127 | filtering distributes over concatenation, so catalog order is kept |
| `Query.FilterAllPass` | src/audioset_downloader/main.py:127 | when every row passes, the filter returns the catalog unchanged |
| `Selection.InsertSpec` | src/audioset_downloader/main.py:130-132 | inserting into a descending sequence keeps it descending and adds exactly the new row |
| `Selection.SortDescendingSpec` | src/audioset_downloader/main.py:130-132 | the descending sort is ordered by the metric and is a permutation of its input |
| `Selection.TopNSize` | src/audioset_downloader/main.py:130-132 | `iloc[:n]` keeps min(n, rows) rows for n >= 0, and drops the last -n rows for n < 0 |
| `Selection.TopNOrdered` | src/audioset_downloader/main.py:130-132 | the top rows are descending in the metric and are a sub-multiset of the filtered rows |
| `Selection.TopNBest` | src/audioset_downloader/main.py:130-132 | no row left out of the top rows has a larger metric than a row kept |
| `Selection.Sample` | src/audioset_downloader/main.py:134 | a sample exists exactly when 0 <= n <= rows, with n rows drawn without replacement; otherwise the matching sampling error |
| `Selection.Select` | src/audioset_downloader/main.py:128-134 | no count gives every row; `most_viewed` wins over `most_liked`, each giving an admissible top-n (`TopRows`: slice size, descending, drawn from the input, nothing left out beats a row kept, ties open); otherwise a random sample with its errors; the result never holds more of a row than the input |
| `Selection.TopNIsTopRows` | src/audioset_downloader/main.py:130-132 | sorting descending and slicing yields rows meeting the top-n relation |
| `Dispatch.TimedeltaWithinDay` | src/audioset_downloader/main.py:102 | `str(timedelta)` of a time within a day is an `H:MM:SS` clock (one or two hour digits without a leading zero, two-digit minutes and seconds) that reads back as the same number of seconds |
| `Dispatch.TrimArgsSpec` | src/audioset_downloader/main.py:110-111 | the downloader arguments end in `-loglevel panic`; without `full_source` they are `-ss start -to end` first, as clocks that read back as the segment's times |
| `Dispatch.OutputTemplateSpec` | src/audioset_downloader/main.py:108 | the output template starts with `<output_dir>/<partition>/`, and different partitions give different templates |
| `Dispatch.BuildOptions` | src/audioset_downloader/main.py:104-115 | the options dict has the six fixed entries, and `cookiefile` is present exactly when the cookie path is truthy |
| `Dispatch.Download` | src/audioset_downloader/main.py:99-115 | a row is fetched exactly when `mixed` is set or its labels equal `cls_id` (never when `cls_id` is a list), with its video id and options |
| `Downloader.BuildQuery` | src/audioset_downloader/main.py:87-97 | an empty name list without `mixed` is `NoClassName`; an unresolvable name is `LabelNotUnique`; otherwise the ids, the row test and `cls_id` the code builds |
| `Downloader.SubmitAll` | src/audioset_downloader/main.py:136 | one job per selected row, in order, each as `_download` decides it |
| `Downloader.AudiosetDl` | src/audioset_downloader/main.py:57-136 | the fatal errors in the order the code meets them, including pandas' negative-size and larger-than-population sample errors; a run succeeds exactly when a random sample's size is in range; the jobs are the selection of the filtered catalog, each dispatched by `_download` |
| `Downloader.RunRowsFromCatalog` | src/audioset_downloader/main.py:127-136 | every submitted row is a catalog row that passes the filter |
| `Downloader.RunSkipsAllForSeveralNames` | src/audioset_downloader/main.py:87-101 | with several names and no `mixed`, every submitted job returns without downloading |
| `Downloader.RunFetchesExactLabels` | src/audioset_downloader/main.py:95-101 | with one name and no `mixed`, every submitted row has exactly that class's id as its labels and is fetched |
| `Downloader.RunRowsContainAllIds` | src/audioset_downloader/main.py:87-94 | on the intersection path every submitted row's labels contain the id of every class name |
| `Downloader.RunUnionFetchesWholeCatalog` | src/audioset_downloader/main.py:91-94 | `mixed` with union of two or more names and no count submits the whole catalog, and fetches every row |
| `Downloader.UnionKeepsWholeCatalog` | src/audioset_downloader/main.py:91-94 | the union filter of two or more ids returns the catalog unchanged |

## Left out

- The click command-line decorators and `print_classes` (lines 20-54): argument plumbing and a file read.
- Reading the ontology JSON and the three CSV files with pandas: the model takes the parsed rows as inputs. Header skipping, quoting and parse errors are not modelled.
- Missing values in `positive_labels`, `views` or `likes` (pandas NaN): every field is assumed present.
- `os.path.abspath(output_dir)`: the output directory is taken as already absolute.
- The `YoutubeDL(opts).extract_info` call, `ffmpeg`, the `stderr` redirect and the swallowed exceptions (lines 117-124). A `Fetch` records the video id and options the call receives; its network and transcoding effects are not modelled.
- The thread pool of 200 workers, `as_completed` and the tqdm progress bar with its `total` (lines 126, 136-139). Jobs are listed in submission order; completion order and concurrency are not modelled.
- Selection.Sample: the draw is an arbitrary choice of n rows without replacement. Its uniform distribution is not modelled.
- Selection.TopNBest: no tie order is claimed, because pandas' default sort is not stable.
- Fractional seconds: start and end times are whole seconds, so `str(timedelta)` never has a microseconds part.
- The `__main__` block (lines 142-161). Its call (several names, union, no `mixed`) is the case `Downloader.RunSkipsAllForSeveralNames` covers.
- Regular-expression metacharacters in ids or names, and newlines in label strings: assumed absent, as stated above. Names with parentheses, such as "Rattle (instrument)", make the source's name lookup raise; the model resolves them.
