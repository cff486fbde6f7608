# broadside slide catalog and file-name patterns, in Dafny

This project models two parts of the broadside CyCIF stitching pipeline.

**The slide catalog** (`Slide.java`, module `Catalog` in `slide.dfy`). A slide
is a directory with a `.slide.json` file. Its scenes are the directory entries
that contain a `tiles` entry. Building a slide does the following:

- It fails when the directory or its `.slide.json` is missing.
- It warns when the scene names declared in `.slide.json` differ from the
  scenes on disk. The scenes on disk are used either way.
- When a scene selection is given, it keeps only the selected scenes that
  exist on disk. It warns about selected names that are not on disk.
- It builds one scene per kept name, sorted by name.

A built slide answers these lookups:

- a scene by name (`NoSuchElement` when no scene has that name);
- its scene names;
- its round names, each listed once, in the order first met;
- the tile paths of one round across all scenes, in scene order. When no scene
  has the round, the result is empty and a warning is returned.

The Java `Slide` class is immutable, so the model's `Slide` is a datatype. The
constructor is the method `NewSlide`. The getters that loop in Java are
methods with loops, each proved against a specification function (`FirstSeen`,
`AllRounds`, `TilesAcross`). The lemmas in `seqs.dfy` and `slide.dfy` prove
what those functions promise.

The disk is an input. A `FileSystem` value answers `Files.exists` and
directory listings. The polygon names from `.slide.json` are a set. Reading
one scene is an injected `SceneLoader`. Each scene is named after its
directory. The scene's round names and per-round tile paths come from the
loader, which also receives the round selection. Log messages are returned
as `Warning` values.

`.sorted()` in Java sorts by `String.compareTo`. The model's version is
`StringOrder.Less` (`string_order.dfy`). It is proved to be a strict total
order. `SortedSet` lists a set in that order, and `AscendingUnique` shows that
this listing is the only strictly ascending one.

**The file-name patterns** (`config.py`, module `Config` in `config.dfy`).
These are `re_filter`, `re_wavelength` and `re_dark_timestamps`, read the way
Python's `re` reads them:

- `[0-9]` matches ASCII digits only.
- `.` matches any character except a newline.
- In `[A-Za-z0-9-+_]`, the `-` after `0-9` is a literal.

Each pattern has two definitions. A ghost predicate states the strings and
captures that the pattern's structure allows. A function computes the
captures. The function's contract proves that both definitions agree, in both
directions. For the unanchored dark-frame pattern, the contract also proves
Python's backtracking choice: the longest timestamp that lets the rest match,
then `tiff` over `tif`.

## Model

| member | source | states |
|---|---|---|
| `Catalog.NewSlide` | nextflow/src/main/java/edu/harvard/bwh/jonaslab/broadside/cycif/Slide.java:42-75 | fails with InvalidPath exactly when the slide directory or its `.slide.json` does not exist, then with NoFileName for the root path, then with ListingFailed when the directory cannot be listed, and succeeds otherwise, with no warnings on failure; a built slide is named after the last path component and its scenes are strictly ascending by name; their names are exactly the discovered scenes, intersected with the selection when one is given; the scenes are `ExpectedScenes` of the directory, the selections and the loader, which takes no `.slide.json` input, so the polygon names never affect which scenes are built; the mismatch warning is present exactly when the `.slide.json` names differ from the discovered set; the unrecognized-scenes warning is present exactly when a selection names scenes not on disk, and it carries those names; the warnings are exactly these, the mismatch first, and no others |
| `Catalog.SceneNamesFromFileSystem` | nextflow/src/main/java/edu/harvard/bwh/jonaslab/broadside/cycif/Slide.java:139-154 | an entry name is returned exactly when it is listed in the slide directory and `<entry>/tiles` exists; a directory that cannot be listed is an error |
| `Catalog.Slide.SceneNames` | nextflow/src/main/java/edu/harvard/bwh/jonaslab/broadside/cycif/Slide.java:165-170 | one name per scene, exactly the scenes' names; for a valid slide (every slide `NewSlide` builds) strictly ascending and free of duplicates |
| `Catalog.Slide.GetScene` | nextflow/src/main/java/edu/harvard/bwh/jonaslab/broadside/cycif/Slide.java:156-163 | fails with NoSuchElement(n) exactly when no scene is named n; otherwise returns the first scene named n, which in a valid slide is the only one |
| `Catalog.Slide.RoundNames` | nextflow/src/main/java/edu/harvard/bwh/jonaslab/broadside/cycif/Slide.java:172-183 | the result is the first-occurrence de-duplication of all scenes' round lists walked in scene order; it has no duplicates and holds exactly the round names some scene has |
| `Catalog.Slide.TilePathsForRound` | nextflow/src/main/java/edu/harvard/bwh/jonaslab/broadside/cycif/Slide.java:185-195 | when no scene has the round: no paths and a NoTilePathsForRound warning, never a failure; otherwise the concatenation, in scene order, of every scene's tile paths for that round, and no warning |
| `Catalog.AllRoundsMembers` | nextflow/src/main/java/edu/harvard/bwh/jonaslab/broadside/cycif/Slide.java:175-176 | a round name occurs in the scene-by-scene concatenation of round lists exactly when some scene has it |
| `Catalog.TilesAcrossAppend` | nextflow/src/main/java/edu/harvard/bwh/jonaslab/broadside/cycif/Slide.java:191-195 | the tiles of a round across two consecutive runs of scenes are the first run's tiles followed by the second's |
| `Catalog.TilesAcrossMembers` | nextflow/src/main/java/edu/harvard/bwh/jonaslab/broadside/cycif/Slide.java:191-195 | a path is among a round's tiles across the scenes exactly when one of the scenes has it among that round's tiles |
| `Seqs.FirstSeenSnoc` | nextflow/src/main/java/edu/harvard/bwh/jonaslab/broadside/cycif/Slide.java:177-179 | meeting one more name appends it exactly when it has not been seen yet |
| `Seqs.FirstSeenElems` | nextflow/src/main/java/edu/harvard/bwh/jonaslab/broadside/cycif/Slide.java:172-183 | de-duplication keeps exactly the elements of its input |
| `Seqs.FirstSeenNoDup` | nextflow/src/main/java/edu/harvard/bwh/jonaslab/broadside/cycif/Slide.java:172-183 | de-duplication leaves no element twice |
| `Seqs.FirstSeenOrder` | nextflow/src/main/java/edu/harvard/bwh/jonaslab/broadside/cycif/Slide.java:172-183 | de-duplicated elements appear in the order of their first occurrences in the input |
| `StringOrder.LessIrreflexive` | nextflow/src/main/java/edu/harvard/bwh/jonaslab/broadside/cycif/Slide.java:74 | no name sorts before itself under `compareTo` |
| `StringOrder.LessTransitive` | nextflow/src/main/java/edu/harvard/bwh/jonaslab/broadside/cycif/Slide.java:74 | the `compareTo` order is transitive |
| `StringOrder.LessTotal` | nextflow/src/main/java/edu/harvard/bwh/jonaslab/broadside/cycif/Slide.java:74 | any two different names are ordered one way or the other |
| `StringOrder.SortedSet` | nextflow/src/main/java/edu/harvard/bwh/jonaslab/broadside/cycif/Slide.java:71-75 | lists a set of names strictly ascending, holding exactly the set's names |
| `StringOrder.AscendingUnique` | nextflow/src/main/java/edu/harvard/bwh/jonaslab/broadside/cycif/Slide.java:71-75 | two strictly ascending lists with the same names are equal, so the sorted scene order is fully determined by the set of names |
| `Config.MatchFilter` | src/broadside/config.py:4 | returns Some(cube) exactly when the string is `Filter:` + cube + `-Emission` with cube non-empty and made only of ASCII letters, digits, `-`, `+` and `_`; every match begins with `Filter:` and ends with `-Emission` |
| `Config.MatchWavelength` | src/broadside/config.py:5-7 | returns the captures (w, b) exactly when the string is `Filter:` + w + `nm-` + b + `nm-Emission` with w one or more ASCII digits and b either `10` or `20` |
| `Config.WavelengthIsFilter` | src/broadside/config.py:4-7 | every name `re_wavelength` accepts is also accepted by `re_filter`, with cube `<wavelength>nm-<bandwidth>nm` |
| `Config.TailEnd` | src/broadside/config.py:3 | `.ome.tif{1,2}` matches from a position exactly when a result is returned; the result is the longest such match, ending in `tiff` when possible and `tif` otherwise |
| `Config.TryDigits` | src/broadside/config.py:3 | trying timestamp lengths from k down to 1 finds a match whenever one exists with a timestamp of at most k digits, and the one found has the longest timestamp, then the longest ending |
| `Config.MatchDarkAt` | src/broadside/config.py:3 | at a position: no result exactly when the pattern cannot match there; otherwise `dark-`, then `ts` (one or more ASCII digits), then a non-newline character, `ome`, a non-newline character and `tif` or `tiff`, where `ts` is the longest digit run that lets the rest match and the ending is the longer one |

## Left out

- JSON parsing of `.slide.json` with Gson (Slide.java:125-137). The polygon names are an input set. In Java a malformed file, a missing `polygons` array (`Arrays.stream(null)`) and a polygon without a name (`Collectors.toUnmodifiableSet()` rejects `null`) all make the constructor throw, before the directory is listed. `NewSlide` accepts any `polygonNames` set and never fails for these reasons.
- Real directory listing and `Files.exists` (Slide.java:45, 141-151). These are the injected `FileSystem`. The model treats an `IOException` from the listing as the `ListingFailed` error, where Java wraps it in a `RuntimeException`.
- Logging through SLF4J. Warnings are returned as data, and the message texts are not modelled.
- The `summary` and `nextflowSummary` strings (Slide.java:77-111). So is the list of all scene names, and the globally sorted round-name list the constructor computes only for them. They depend on Java's `toString` formatting and on `Scene`'s summaries.
- `Scene` is not part of this model. Round selection and tile enumeration are the injected loader. A scene's tile lookup for a round that the scene lacks is assumed to return no paths.
- The one-argument constructor `Slide(path)` (Slide.java:38-40). It is `NewSlide` with no scene selection and no round selection.
- Paths are lists of name components. Java's path-string forms, such as the message of `InvalidPathException`, are not modelled.
- `StringOrder.Less` compares characters as Unicode scalar values. Java compares UTF-16 code units. The two orders differ only for names with characters outside the Basic Multilingual Plane.
- `Config.MatchFilter` and `Config.MatchWavelength`: how `config.py`'s patterns are applied is not visible, so both model whole-string recognition. Python's `$` also matches before a final newline, so under `re.match` a name followed by one `\n` would be accepted. These functions reject it.
- `Config.MatchDarkAt` models a match at a given position. Searching for the leftmost position, as `re.search` does, is not modelled.
- The pipeline's joining, grouping by round, seeded tile sampling and output-existence gating are not part of this model. They live in workflow files that are not part of it either.
- The image-processing scripts are not modelled: `register_and_stitch.py`, `make_illum_profiles.py`, `make_zarr_pyramid.py`, both `tiff_to_zarr.py`, `convert_zarr_to_tiff.py` and `utils/parallel.py`. They wrap foreign libraries (ashlar, dask, zarr, tifffile, numpy) and use thread pools and floating point.
