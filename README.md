# aider-cli file picker, modelled in Dafny

aider-cli is a small interactive front end for the aider pair-programming
tool. It lists the files `git` knows about, adds one entry per top-level
directory, drops noise (cache files, dot-files, skip-listed directories),
sorts what is left, lets the user pick entries in `fzf`, expands picked
directories back into files and prints (and optionally runs)
`aider --file f1 --file f2 ...`.

This project models the list and path logic between those external program
calls, all of it in `aider-cli.py`:

- `strings.dfy` (`Strings`): `startswith`, `endswith`, ASCII `lower()`, and
  Python's code-point order on `str`.
- `paths.dfy` (`Paths`): `split('/')`, the `''.join(p + '/' ...)` parent
  prefix, `os.path.basename`, directory entries (a trailing `/`).
- `glob.dfy` (`Glob`): the subset of `fnmatch` the skip patterns use.
- `collections.dfy` (`Collections`): `list(some_set)` and Python's stable
  `sorted(..., key=...)`, modelled as an insertion sort over the key order.
- `filter.dfy` (`Filter`): `filter_files` and `should_keep`.
- `sorter.dfy` (`Sorter`): `sort_files` and `file_key`.
- `listing.dfy` (`Listing`): the `top_dirs` loop and the ordering in
  `get_git_files`, with the `git` output as an input list.
- `selection.dfy` (`Selection`): the closing `sorted(set(...))` of
  `interactive_file_selection`.
- `command.dfy` (`Command`): the tail of `main`: directory expansion (with
  `expand_directory` as a function parameter) and the aider argument list.
- `config.dfy` (`Config`): the skip lists and what filtering with them does.

The imperative parts of the source are methods with loops: the `top_dirs`
loop (`Listing.ListEntries`), the two loops of `main`
(`Command.ExpandSelection`, `Command.BuildAiderCommand`), and turning a set
into a list (`Collections.SetToSeq`). The list comprehension, the
early-return predicate and the key-based sort are functions.

Where the code and a plain reading of the tool differ, the model follows the
code:

- A directory entry is not sorted "before the files of its level". `"b/"`
  splits into `["b", ""]`. So it has as many segments as its own children,
  and one more than a top-level file. `sort_files` therefore puts `a.py`
  before `b/`, and `b/` before `b/x.py` (`Sorter.DirectoryEntryPlacement`).
- The dot-name check applies only to entries without a trailing `/`.
  Directory entries are judged by the skip-dir prefixes alone.
- Skip-dir entries are literal prefixes, not globs. So `*.egg-info` never
  skips `pkg.egg-info/`, and `build` also skips `buildtools/`.
- A file inside a skipped directory is judged by its basename only. So for
  the `git` output `a.py, b/__init__.py, b/x.py, node_modules/y.js`, the
  entries `b/__init__.py` and `node_modules/` go, but `node_modules/y.js`
  stays.

## Model

| member | source | states |
|---|---|---|
| `Strings.Lower` | aider-cli.py:222 | `lower()` keeps the length and lowers each ASCII capital, leaving every other character as it is |
| `Paths.Split` | aider-cli.py:215 | `split('/')` gives at least one segment, no segment contains '/', and there is more than one segment exactly when the path contains '/' |
| `Paths.SplitRoundTrip` | aider-cli.py:214-223 | the parent prefix (`''.join(p + '/' for p in parts[:-1])`) followed by the last segment is the original path |
| `Paths.Basename` | aider-cli.py:108 | `os.path.basename` is a slash-free suffix of the path, preceded by '/' when it is not the whole path |
| `Paths.BasenameIsLastPart` | aider-cli.py:108-112 | the basename used by the filter is the last `split('/')` segment used by the sort key |
| `Paths.DirParts` | aider-cli.py:214-223 | for an entry ending in '/', the last segment is empty and the parent prefix is the entry itself |
| `Paths.FirstSegmentIsPrefix` | aider-cli.py:88-90 | for a path with '/', `parts[0] + "/"` is a directory entry and a prefix of the path |
| `Glob.LiteralMatch` | aider-cli.py:112 | a pattern without `*` matches exactly the name it spells |
| `Glob.StarSuffixMatch` | aider-cli.py:112 | `*` followed by a literal matches exactly the names ending in that literal |
| `Glob.MatchShapes` | aider-cli.py:112 | the two facts above, for a pattern of either shape |
| `Glob.SlashPatternNeverMatches` | aider-cli.py:112 | a slash-free name never matches a literal pattern containing '/' |
| `Filter.StartsWithAny` | aider-cli.py:103-105 | the loop over `skip_dirs` finds a match exactly when the path starts with one of them |
| `Filter.MatchesAny` | aider-cli.py:111-113 | the loop over `skip_patterns` finds a match exactly when the name matches one of them |
| `Filter.ShouldKeep` | aider-cli.py:101-115 | a '/'-ending entry is kept exactly when it starts with none of the skip dirs; any other entry is kept exactly when its basename does not start with '.' and matches no skip pattern |
| `Filter.FilterCounts` | aider-cli.py:117 | each kept entry occurs in the output as often as in the input; each dropped entry does not occur |
| `Filter.FilterMembership` | aider-cli.py:117 | an entry is in the output exactly when it is in the input and `should_keep` accepts it |
| `Filter.FilterIsSubsequence` | aider-cli.py:117 | the output is a subsequence of the input, in the input's order |
| `Filter.FilterIdempotent` | aider-cli.py:99-117 | filtering the output again with the same lists returns it unchanged |
| `Filter.FilterAppend` | aider-cli.py:117 | the filter distributes over concatenation |
| `Filter.KeptFileAvoidsPatterns` | aider-cli.py:108-115 | a kept non-directory entry's basename does not start with '.', equals no literal pattern and ends with no `*`-suffix |
| `Collections.SetToSeq` | aider-cli.py:92 | `list(top_dirs)` holds every element of the set exactly once |
| `Collections.SortBy` | aider-cli.py:225 | `sorted` returns a permutation of its input |
| `Collections.SortBySorted` | aider-cli.py:225 | for a total, transitive key order the output is ordered by the key |
| `Collections.SortBySortedInput` | aider-cli.py:225 | a list already ordered by the key comes back unchanged |
| `Collections.SortByStable` | aider-cli.py:225 | entries with equal keys keep their input order |
| `Sorter.KeyOfParts` | aider-cli.py:214-223 | the key has more than one segment exactly when the path has '/'; `not is_dir` is false exactly for '/'-ending entries; parent prefix plus last segment rebuild the path; the last field is the lowered basename |
| `Sorter.PathLeIsTotalPreorder` | aider-cli.py:214-225 | comparing `file_key` tuples with `<` orders all paths totally and transitively |
| `Sorter.SortFiles` | aider-cli.py:204-225 | `sort_files` returns a permutation of its input ordered by `file_key` |
| `Sorter.SortFilesOrder` | aider-cli.py:214-225 | fewer segments never follow more; at equal segment count a directory entry never follows a non-directory; then parent prefixes ascend, then lowered last segments |
| `Sorter.SortFilesIdempotent` | aider-cli.py:225 | sorting the sorted list again changes nothing |
| `Sorter.SortFilesStable` | aider-cli.py:225 | entries with equal keys (such as `A.py` and `a.py` in one directory) keep their input order |
| `Sorter.DirectoryEntryPlacement` | aider-cli.py:214-225 | `a.py` sorts before `b/` and `b/` before `b/x.py`; `["b/", "a.py"]` sorts to `["a.py", "b/"]` |
| `Listing.ListingLeIsTotalPreorder` | aider-cli.py:92 | the key `(not x.endswith('/'), x.lower())` compared with `<` is total and transitive |
| `Listing.TopDirsMeaning` | aider-cli.py:86-90 | a string is a synthesized top-level entry exactly when it has a single '/', at its end, and some listed path starts with it |
| `Listing.ListEntries` | aider-cli.py:86-92 | the result is the listed paths plus each top-level directory entry once more; '/'-ending entries come first and each group ascends case-insensitively |
| `Selection.DedupSorted` | aider-cli.py:198 | `sorted(set(files))` holds the same strings as its input, strictly ascending, so without duplicates |
| `Command.ExpandedAppend` | aider-cli.py:258-263 | each selected entry is expanded in place: the expansion of a concatenation is the concatenation of the expansions |
| `Command.ExpandedPlainFiles` | aider-cli.py:262-263 | a selection without '/'-ending entries passes through unchanged |
| `Command.ExpandedHasNoDirs` | aider-cli.py:259-263 | when `expand_directory` returns plain files, `final_files` contains no '/'-ending entry |
| `Command.ExpandSelection` | aider-cli.py:258-263 | the loop leaves `final_files` equal to the in-place expansion of the selection |
| `Command.FileArgsShape` | aider-cli.py:270-271 | the file options hold `2n` words: "--file" then the file, for each final file in order |
| `Command.AiderArgvShape` | aider-cli.py:270-272 | the command has `1 + 2n` words: "aider", then "--file" before each final file, in order |
| `Command.ArgvRoundTrip` | aider-cli.py:270-272 | reading the `--file` options back from the command yields exactly the final files |
| `Command.BuildAiderCommand` | aider-cli.py:270-272 | the loop builds exactly the aider command for the final files |
| `Command.AssembleCommand` | aider-cli.py:258-272 | there is no command exactly when the expanded selection is empty (the program exits); otherwise the command is the aider command for it |
| `Config.SkipFilesAreSimple` | aider-cli.py:34-45 | every file pattern is a literal name or `*` followed by a literal |
| `Config.KeptFileNames` | aider-cli.py:108-115 | with the configured lists, a kept non-directory entry has a basename that does not start with '.', is no listed name and ends with no listed suffix |
| `Config.EggInfoDirIsKept` | aider-cli.py:29 | the glob-looking skip-dir `*.egg-info` is a literal prefix, so `pkg.egg-info/` is kept |
| `Config.BuildSkipsBuildtools` | aider-cli.py:25 | the skip-dir `build` has no trailing '/', so `buildtools/` is dropped too |
| `Config.SlashPatternIsInert` | aider-cli.py:41 | the pattern `.aider.tags..aider.tags.cache.v3/` contains '/', so no basename matches it |
| `Config.NestedFileOfSkippedDirIsKept` | aider-cli.py:108-115 | `node_modules/y.js` is kept: only its basename is tested |
| `Config.SkippedDirEntryIsDropped` | aider-cli.py:102-105 | the directory entry `node_modules/` is dropped |
| `Config.InitFileIsDropped` | aider-cli.py:35 | `b/__init__.py` is dropped by the literal pattern `__init__.py` |

## Left out

- The `git ls-files` calls (aider-cli.py:79-84, 230-231) are external programs. Their output is the `files` input of `Listing.ListEntries`, and `expand_directory` is a function parameter of `Command.ExpandSelection`. Its error path (print, return `[]`) is one possible value of that parameter.
- The file-type menu and the `*.<ext>` argument it adds to `git` (aider-cli.py:56-65, 81-82, 237-248) are interactive input and `git` arguments.
- `interactive_file_selection` (aider-cli.py:129-202) is left out except for its final `sorted(set(...))`. The rest runs `git rev-parse` and `fzf`, and uses `os.walk`, `os.path.isdir`, `relpath` and `abspath`, all of which depend on the filesystem or an external program.
- `build_reload_command` and the preview script (aider-cli.py:119-127, 142-157) only build shell text for `fzf` key bindings.
- Printing, the yes/no prompt, `sys.exit` and running `aider` (aider-cli.py:265-267, 274-279) are I/O and process control. The empty-selection exit is the `None` result of `Command.AssembleCommand`.
- Error handlers around the external calls (aider-cli.py:95-97, 200-202) are left out for the same reason.
- `Glob.GlobMatch` models only `*` and literal characters. `?`, `[...]` classes and escapes are treated as literal characters. The configured patterns use none of them.
- `Strings.Lower` lowers ASCII letters only. Python's `str.lower` also lowers other Unicode letters.
- `Collections.SortBy` is an insertion sort, not Timsort. Only the result is modelled: a stable, key-ordered permutation.
