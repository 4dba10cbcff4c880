# git-dive, modelled in Dafny

git-dive shows a file of a git repository with each line's origin beside it. The origin is
the commit that last changed the line, shown relative to the revision being viewed
(`HEAD`, `HEAD~3`, ...). The text is syntax-highlighted and sent through a pager. This
project models the logic of that program and proves properties of the model:

- **The layered configuration resolver** (`Git2Config`, from src/git2_config.rs).
  - Eight ranked sources are read in precedence order: GIT_PAGER, git-cli, git-config-env,
    the repository's config, global, XDG, system and PAGER.
  - The first typed read that succeeds wins. When none succeeds, the answer is the error of
    the first source.
  - In-memory sources keep every value pushed for a key and answer with the last one.
  - A field is either optional (`RawField`) or has a default (`DefaultField`). `color.ui`
    has a small parser.
  - `dump` lists fields under `[section]` headers.
- **The single-source configuration** (`LegacyConfig`, from src/config.rs). It uses
  `RawField`, and `FallbackField`, whose fallback is computed from the whole configuration.
- **Revision suffixes** (`Revset`, from `split_revset` in src/blame.rs). Trailing `~` and
  `~N` segments are folded into a step count.
- **The annotation engine** (`Blame`, from src/blame.rs).
  - Each blamed commit gets one table entry.
  - The first-parent walk gives each commit it reaches the label `head` or `head~i`.
  - The walk stops once every blamed commit has been seen.
- **The row renderer** (`BlameRender`, from src/blame.rs).
  - The terminal, gutter and code widths.
  - The highlighter, with its guard for lines over 16 KiB.
  - The loop that writes one row per line. A row repeats its origin only when the hunk
    changes; otherwise it shows `⋮`.
  - The decoding of the blob by content type.
- **The pager session** (`GitPager`, from src/git_pager.rs).
  - No pager for `cat` or an empty command.
  - The required and default environment variables.
  - The terminal gate and the fall-back to stdout when the pager cannot be spawned.
  - The choice of writer, and waiting for the child when the session ends.
- **Theme colours** (`Assets`): `to_anstyle_color` from src/assets/mod.rs.
- **The lazy theme set** (`LazyThemes`, from src/assets/lazy_theme_set.rs). Themes are
  deserialized on first use and memoised; the set can list theme names and convert to a
  full theme set.

`Base` holds `Option` and `Result`. `Text` writes out the parts of Rust's standard library
the program's decisions depend on:
- decimal formatting and `str::parse` for integers and `bool`;
- UTF-8 byte length (`str::len`);
- `{:w$}` padding;
- `split_once`/`rsplit_once`;
- the ordering of `String`.

Collaborators are inputs to the model: git2, syntect, textwrap, shlex, content_inspector,
the `encoding` decoders, bincode, the environment, the terminal and process spawning. Each
is given as a value (an ancestry walk as the sequence of ids it yields, configuration files
as git2's answers, environment pairs as a list) or as a function (a tokeniser, a wrapper, a
spawn, a deserializer).

At these points the code's behaviour differs from what one might expect, and the model
follows the code:
- `relative_origin` labels every commit the walk reaches. It adds a table entry for a commit
  that was not blamed. It overwrites a label set earlier in the same walk; nothing is
  skipped because it is already labelled.
- The code width saturates at 0; there is no larger minimum.
- The gutter width counts the separator `│` by its UTF-8 length, 3 bytes, though it takes
  one column. `GutterColumns` shows the gutter text is two columns narrower than
  `GutterWidth` reserves.
- A missing bool key in an in-memory source reads as `true`. `BoolsReadTrueBelowGitPager`
  proves the consequence: every bool key other than `core.pager` resolves to `true`.
- A `Parseable` field (`color.ui`) parses only the string of the first source that has
  one. It does not fall through to lower sources.

## Model

| member | source | states |
|---|---|---|
| Git2Config.ParseColorWhen | src/git2_config.rs:560-571 | "always" or "true" give Always, "auto" gives Auto, "never" or "false" give Never, each in both directions; any other text is an unsupported-colour error carrying the text |
| Git2Config.ColorAsStr | src/git2_config.rs:544-558 | parsing the name of any colour mode gives that mode back |
| Git2Config.Collect | src/git2_config.rs:310-323 | a key is in the map `from_env` builds exactly when values were pushed for it, and it holds all of them in push order |
| Git2Config.CollectKeys | src/git2_config.rs:310-323 | the map's keys are exactly the keys of the pairs, and no list in it is empty |
| Git2Config.FromEnv | src/git2_config.rs:310-323 | the push loop builds the source with the given name whose map is `Collect` of the pairs |
| Git2Config.CliPairsAppend | src/git2_config.rs:289-296 | the pairs of two runs of `-c` parameters are those of the first run, then those of the second |
| Git2Config.CliParamReads | src/git2_config.rs:289-296 | in the git-cli source, a last `-c key` without a value makes the key read as the bool `true`, and a last `-c key=v` makes it read as the string `v`, whatever came before |
| Git2Config.LastPushedWins | src/git2_config.rs:325-333 | `get_str` answers the last value pushed for a key, whatever was pushed for it before |
| Git2Config.ReadInt | src/git2_config.rs:357-364 | a present text reads exactly when it parses as an integer inside the type's range, as the parsed value; otherwise the error carries the text; a missing key's error passes through |
| Git2Config.ReadIntRoundTrip | src/git2_config.rs:357-364 | every integer of the range reads back from its decimal form |
| Git2Config.SourceRead | src/git2_config.rs:345-371 | answers have the getter's shape; a missing key reads as `true` for bools and as field-missing for every other getter; a present key answers the source's name, or its last value, and an i32 read succeeds exactly when that value parses; a git2 file reports `gitconfig` as its source exactly when it has the entry |
| Git2Config.InMemoryBoolRead | src/git2_config.rs:353-356 | a present key's last value reads as `true` exactly when it is "true", as `false` exactly when it is "false", and otherwise fails carrying the text |
| Git2Config.InMemoryIntRead | src/git2_config.rs:357-364 | `get_i32` and `get_i64` parse the present key's last value, each in its own range |
| Git2Config.GitFileReads | src/git2_config.rs:185-203 | a git2 file answers each typed getter exactly when git2's table for it has the key (an integer only when it fits the getter's range), with that value, and otherwise fails naming the key |
| Git2Config.FirstSuccess | src/git2_config.rs:104-176 | every source before the returned index fails the read, and the source at the index succeeds |
| Git2Config.Resolve | src/git2_config.rs:104-176 | the read succeeds exactly when some source succeeds; it answers the first successful source's value; when every source fails it answers the first source's error |
| Git2Config.LowerSourcesIrrelevant | src/git2_config.rs:104-176 | sources ranked below one that answers never change the result |
| Git2Config.InMemoryShadowsBools | src/git2_config.rs:353-356 | an in-memory source that lacks a key and ranks first makes a bool read of that key `true` |
| Git2Config.BoolsReadTrueBelowGitPager | src/git2_config.rs:298-302 | with the GIT_PAGER source first, every bool key other than `core.pager` resolves to `true`, whatever the other sources hold |
| Git2Config.GetField | src/git2_config.rs:373-418 | a read value has the field's type; for a non-`Parseable` type the read succeeds exactly when the getter succeeds, with its value; a failed getter becomes "failed to read" naming the key and carrying the cause |
| Git2Config.ParseableReadsWinningString | src/git2_config.rs:412-418 | a `Parseable` field's result is the parse of the first source's string, success or failure |
| Git2Config.RawGetFrom | src/git2_config.rs:475-477 | the optional value is present exactly when the typed read succeeds, and is that value |
| Git2Config.RawGetSource | src/git2_config.rs:479-481 | a source name is reported exactly when some source has the key |
| Git2Config.DefaultGetFromFallsBack | src/git2_config.rs:501-505 | a default field answers the read when it succeeds and its default otherwise; a well-typed field's answer has the field's type |
| Git2Config.DefaultGetSourceNames | src/git2_config.rs:507-509 | the source is "default" when no source has the key, and otherwise the name the first source with it reports |
| Git2Config.PagerDefaultsToLess | src/git2_config.rs:582-583 | `core.pager` is "less" when no source has a string for it |
| Git2Config.UnsupportedColorFallsToAuto | src/git2_config.rs:579-580 | an unsupported `color.ui` in the winning source gives Auto, even when a lower source holds a valid value |
| Git2Config.IntFallsThrough | src/git2_config.rs:129-140 | whenever the first source is in-memory and its last value for the key is not an `i32`, an `i32` read answers what the second source answers, when that succeeds |
| Git2Config.IntFallsThroughExample | src/git2_config.rs:129-140 | `dive.width = wide` in git-cli gives way to `72` in the source below |
| Git2Config.DumpRows | src/git2_config.rs:512-534 | one dump row per field, in order, each with its field's name, the display of the field's value (read or default) and the name of the source that supplies it |
| Git2Config.DumpFailsOnFirstUnsectioned | src/git2_config.rs:55-59 | `dump` fails exactly when some field name has no '.', and then with the first such name |
| Git2Config.DumpOneSection | src/git2_config.rs:60-66 | fields of one section get a single header, written only when the section differs from the previous one, then one entry line each, in order |
| Git2Config.DumpPagerDefault | src/git2_config.rs:46-70 | with no source holding `core.pager`, the dump of PAGER is `[core]` then `\tpager = less  # default` |
| Git2Config.Config.System | src/git2_config.rs:16-35 | the four in-memory sources are built from their pairs, the local source is absent, and the opened files are kept |
| Git2Config.Config.Sources | src/git2_config.rs:72-85 | GIT_PAGER, git-cli and git-config-env come first and PAGER last; absent files are skipped; there are always at least four sources |
| Git2Config.Config.SourcesInOrder | src/git2_config.rs:72-85 | the present files come between git-config-env and PAGER in the order local, global, XDG, system; with all four present the sources are exactly the eight in that order |
| Git2Config.Config.AddRepo | src/git2_config.rs:37-40 | the repository's config becomes the local source |
| Git2Config.Config.Read | src/git2_config.rs:104-176 | the early-return loop over the sources answers `Resolve` of the sources for the getter and key |
| Git2Config.Config.Dump | src/git2_config.rs:46-70 | the appending loop produces `DumpText` of the fields over the sources |
| LegacyConfig.Read | src/config.rs:31-51 | a getter forwarded to the repository's configuration answers a value of the getter's shape |
| LegacyConfig.FieldRead | src/config.rs:79-112 | each type reads through its own getter; the read succeeds exactly when that getter does, with its value; a failure is wrapped with the field name |
| LegacyConfig.RawGetFrom | src/config.rs:141-149 | the optional value is present exactly when the typed read succeeds, and is that value |
| LegacyConfig.FallbackOnlyWhenUnreadable | src/config.rs:165-169 | a readable field answers its value without the fallback; an unreadable one answers the fallback applied to the same configuration |
| LegacyConfig.FallbackToAnotherField | src/config.rs:152-169 | a fallback that reads another field gives that field's value, or its own default when that field is unset too |
| LegacyConfig.MissingEntryNamesField | src/config.rs:100-105 | a string field git2 has no entry for fails with the key, wrapped with the field name |
| Revset.StripOnce | src/blame.rs:303-312 | a stripped segment leaves a strictly shorter revision |
| Revset.SplitRevset | src/blame.rs:301-315 | the stripping loop returns the head and offset of `StrippedRevset` |
| Revset.StripStep | src/blame.rs:303-313 | stripping one segment of k steps leaves the rest to normalise, with k more steps |
| Revset.NoTildeIsItsOwnHead | src/blame.rs:301-315 | a revision without `~` is its own head, with offset 0 |
| Revset.StripsBareTilde | src/blame.rs:304-306 | a trailing `~` adds one step |
| Revset.StripsNumberedTilde | src/blame.rs:307-309 | a trailing `~N`, N a `usize`, adds N steps |
| Revset.StrippedHeadIsNormal | src/blame.rs:301-315 | the head returned has nothing left to strip |
| Revset.NumberedSuffix | src/blame.rs:301-315 | `h~2` is h with offset 2 |
| Revset.DoubleTildeSuffix | src/blame.rs:301-315 | `h~~` is h with offset 2 |
| Revset.MixedSuffix | src/blame.rs:301-315 | `h~1~` is h with offset 2 |
| Revset.StopsAtOtherSuffix | src/blame.rs:310-311 | any non-empty last segment without `~` that is not a `usize` stops the loop: the revision is kept whole, with offset 0 |
| Revset.StopsAtLetterSuffix | src/blame.rs:310-311 | `main~2~x` is kept whole |
| Revset.LabelNamesItsStep | src/blame.rs:282-286 | a label `head~i` normalises back to the head and i |
| Blame.Origin | src/blame.rs:337-339 | the origin is the relative label when there is one, else the short id |
| Blame.MarkSpec | src/blame.rs:287-290 | labelling a commit adds it with the label and its short id, and leaves every other entry |
| Blame.RelabelKeys | src/blame.rs:279-290 | labelling adds exactly the walked commits to the table |
| Blame.RelabelUntouched | src/blame.rs:279-296 | an entry the walk does not reach is unchanged |
| Blame.RelabelKeepsShort | src/blame.rs:287-290 | every entry keeps its short id, and a walked commit not in the table gets a fresh one |
| Blame.RelabelLabelsStep | src/blame.rs:279-290 | the commit of step i carries `head` or `head~(i + offset)` when no later step yields it again |
| Blame.StepsFrom | src/blame.rs:292-295 | the walk goes on from step i to at most the end of the walk |
| Blame.StepsTaken | src/blame.rs:279-296 | a non-empty walk takes between one step and all of them |
| Blame.StepsFromSpec | src/blame.rs:292-295 | from step i, the walk stops at the first step after which every blamed id has been seen, or at the end |
| Blame.StepsTakenSpec | src/blame.rs:256-298 | the walk takes at least one step, stops at the first step after which every blamed id has been seen, and otherwise runs to the end |
| Blame.Annotations.New | src/blame.rs:246-254 | one unlabelled entry per distinct commit among the hunks, with its short id |
| Blame.Annotations.RelativeOrigin | src/blame.rs:256-298 | the table becomes the original one labelled along the first `StepsTaken` steps of the walk, with the head and offset of the stripped revision |
| Blame.RelabelAgain | src/blame.rs:279-290 | labelling an already labelled table again along the same steps changes nothing |
| Blame.StepsTakenAgain | src/blame.rs:292-295 | after a walk, every walked commit is in the table, so walking again takes the same number of steps |
| Blame.RelativeOriginIdempotent | src/blame.rs:256-298 | running `relative_origin` twice with the same walk and revision leaves the table of the first run |
| Blame.OriginsAfterWalk | src/blame.rs:279-296 | after the walk, a blamed commit it did not reach shows its short id, and the commit of a step no later step yields shows that step's label |
| BlameRender.ThemeDefaultsToMonokai | src/blame.rs:477-479 | the theme is "Monokai Extended" when no source names one |
| BlameRender.TotalWidth | src/blame.rs:17-20 | the terminal's width; else `COLUMNS` when it parses as a `u16`; else 80; never more than 65535 |
| BlameRender.OriginWidth | src/blame.rs:79-87 | the origin width bounds the byte length of every origin, is reached by one when the table is not empty, and is 0 for an empty table; it is `MaxOriginWidth` of the table |
| BlameRender.MaxOriginWidthIs | src/blame.rs:79-87 | a width that bounds every origin and is reached by one (or is 0 for an empty table) is the table's maximum origin width |
| BlameRender.GutterWidthSpec | src/blame.rs:75-88 | the gutter is the origin width plus the line count's digits plus 6, and the line count is below ten to the power of its digit count |
| BlameRender.CodeWidth | src/blame.rs:90 | the code width and the gutter add up to the terminal width, or it is 0 when the gutter does not fit |
| BlameRender.MakeLayout | src/blame.rs:98-107 | the gutter style and reset are empty unless stdout takes colour; the line-number column is as wide as the line count's digits |
| BlameRender.GutterColumns | src/blame.rs:155-158 | a gutter holds the padded origin, then the right-aligned line number, and is four characters wider than the two columns |
| BlameRender.LineText | src/blame.rs:120-124 | a leading byte order mark is dropped on line 1 and on no other line |
| BlameRender.EscapedFirst | src/blame.rs:419-430 | the escaped regions are the first region's style, text and reset, then the rest |
| BlameRender.HighlightKeepsText | src/blame.rs:405-435 | a disabled highlighter returns the line unchanged; a line over 16 KiB is tokenised as "\n" and comes back whole in the first region's colours |
| BlameRender.Highlighter.Enabled | src/blame.rs:348-354 | highlighting starts from the syntax's initial state |
| BlameRender.Highlighter.Disabled | src/blame.rs:356-399 | there is no highlighting state |
| BlameRender.Highlighter.HighlightLine | src/blame.rs:405-435 | the appending loop answers, and leaves the state, as `HighlightSpec` says |
| BlameRender.RowsFrom | src/blame.rs:116-162 | each line writes at most one row |
| BlameRender.Render | src/blame.rs:116-162 | the row loop answers `Rows` of the lines from the highlighter's state, hands back the rows it has written (`Written`), also when it fails, and leaves the highlighter in `StateAfter` of the lines |
| BlameRender.WrittenOnSuccess | src/blame.rs:116-162 | a loop that finishes has written exactly the rows it answers |
| BlameRender.WrittenStopsAt | src/blame.rs:126-158 | when the lines before line k render and line k fails, the loop fails with line k's error, and the rows written are exactly those of the lines before it |
| BlameRender.WrittenBeforeFailure | src/blame.rs:126-158 | a loop that fails does so at some line after the lines before it rendered, and the rows written are exactly those lines' rows |
| BlameRender.FailingLine | src/blame.rs:126-141 | the line at which a failing loop fails: the lines before it render, and it does not |
| BlameRender.PlainFailsAtMismatch | src/blame.rs:130-134 | without highlighting, a last line with no hunk makes the loop fail with `LineMismatch` of that line's number |
| BlameRender.PlainMismatchKeepsEarlierRows | src/blame.rs:126-158 | without highlighting, when line k + 1 has no hunk after annotated lines 1 to k, `blame` fails with `LineMismatch(k + 1)` after writing one row for each of lines 1 to k, in order |
| BlameRender.StateAfterRows | src/blame.rs:116-162 | when the loop writes all its rows, the state it leaves is that of highlighting every line one after the other |
| BlameRender.StateAfterPlain | src/blame.rs:116-162 | without highlighting the loop leaves no highlighting state, whether it fails or not |
| BlameRender.OneRowPerLine | src/blame.rs:116-162 | from any highlighter state, when every line highlights, every line writes exactly one row, in order: its line number, the first wrapped sub-line of its highlighted text, and its origin unless the previous line's hunk is the same |
| BlameRender.HighlightedPlain | src/blame.rs:432-434 | without highlighting every line highlights to its own text, less a leading byte order mark on line 1 |
| BlameRender.PlainRows | src/blame.rs:116-162 | without highlighting, every line writes exactly one row, in order: its first wrapped sub-line with its line number, and its origin unless the previous line's hunk is the same |
| BlameRender.RowTextUnpadded | src/blame.rs:155-158 | a row whose origin and line number fill their columns is written as the gutter style, origin, a space, line number, ` │ `, the reset, the text and a newline, with no padding |
| BlameRender.SingleLineRow | tests/testsuite/cli.rs:30 | without colour, the row `HEAD`, `1`, `test('arg1');` of a one-line file is written as `HEAD 1 │ test('arg1');` and a newline |
| BlameRender.SingleCommitFile | tests/testsuite/cli.rs:30 | a repository with one commit blamed for its one line renders the single row `HEAD`, `1`, the line |
| BlameRender.StartState | src/blame.rs:92-96 | the highlighter starts with a state exactly when stdout takes colour, and that state is the syntax's initial one |
| BlameRender.RowStep | src/blame.rs:116-162 | a row a line writes carries that line's number, and either `⋮` or the origin of the line's hunk in the table |
| BlameRender.RenderBlame | src/blame.rs:75-162 | the rendering half of `blame` answers `BlameText`: the rows of the loop run at the code width that `TotalWidth` leaves beside the gutter of the longest origin and the line count, from a highlighter enabled exactly when stdout takes colour, laid out at those same widths; what the pager received is `BlameShown`, the written rows' texts, equal to the answer on success |
| BlameRender.BlameShownOnSuccess | src/blame.rs:116-162 | when `blame` succeeds, the pager has received exactly the text it answers |
| BlameRender.RowStepFits | src/blame.rs:75-88 | the row of a line numbered within the file has a line number no longer than the line count's, and an origin no longer than the longest one |
| BlameRender.RowsFromFit | src/blame.rs:116-162 | every row the loop writes for lines numbered within the file fits its columns |
| BlameRender.BlameRowsFit | src/blame.rs:75-158 | every row `blame` writes has its line number within the line-number column and its origin, unless `⋮`, within the origin column, and the gutter width is those two columns plus 6 |
| BlameRender.OneRowText | src/blame.rs:116-162 | when the loop writes one row, `blame` writes exactly that row's text at its layout |
| BlameRender.SingleCommitOutput | tests/testsuite/cli.rs:30 | without colour, a one-line file whose one commit the walk from `HEAD` yields first is written as `HEAD 1 │ test('arg1');` and a newline, the origin column four wide |
| BlameRender.ConvertFile | src/blame.rs:212-239 | binary and UTF-32 content is refused; UTF-8 with or without BOM is decoded lossily; UTF-16 either way is decoded, and a decoding failure is its own error |
| GitPager.Parse | src/git_pager.rs:83-100 | the command built step by step is `CommandFor` of the words |
| GitPager.UnsetDefaultsOfPager | src/git_pager.rs:93-98 | `LESS=FRX` is kept unless LESS is set, then `LV=-c` unless LV is set |
| GitPager.PagerEnvironment | src/git_pager.rs:92-98 | the pager always gets `LESSCHARSET=UTF-8`, and gets `LESS=FRX` and `LV=-c` exactly when those are not set |
| GitPager.ParseCases | src/git_pager.rs:83-91 | no command exactly for an empty command line or `cat`; otherwise the first word is the program, the rest its arguments, and stdin is piped |
| GitPager.Stdout | src/git_pager.rs:9-15 | no command when stdout is not a terminal, else the parsed one |
| GitPager.ActivePager.Start | src/git_pager.rs:17-44 | a child only when there is a command and it spawns; stderr is locked only alongside a child on a terminal |
| GitPager.ActivePager.AsWriter | src/git_pager.rs:54-72 | stdout exactly when there is no child; the pager's stdin exactly when the child has one; a broken pipe exactly when it has not |
| GitPager.ActivePager.Drop | src/git_pager.rs:75-81 | the child, if any, is waited on |
| GitPager.Session | src/git_pager.rs:17-81 | the child is waited on exactly when one was spawned, and output goes to stdout exactly when none was |
| Assets.ToAnstyleColor | src/assets/mod.rs:16-53 | alpha 0 gives the named colour for palette numbers 0 to 7, in order, and the 256-colour entry above; alpha 1 gives none; any other alpha gives the true colour |
| Assets.ColorChannels | src/assets/mod.rs:16-53 | no colour exactly at alpha 1; green and blue matter only above alpha 1; distinct palette numbers give distinct colours; true colours are equal exactly when their channels are |
| LazyThemes.LazyThemeSet.constructor | src/assets/lazy_theme_set.rs:16-29 | a set starts with nothing deserialized |
| LazyThemes.LazyThemeSet.Get | src/assets/lazy_theme_set.rs:33-40 | the answer is the deserialization of the name's theme, none for an unknown name; a cached theme is answered without deserializing; otherwise the theme is deserialized once and cached only on success |
| LazyThemes.LazyThemeSet.Themes | src/assets/lazy_theme_set.rs:43-45 | the names, each once, in ascending order |
| LazyThemes.LazyThemeSet.IntoThemeSet | src/assets/lazy_theme_set.rs:65-73 | succeeds exactly when every theme deserializes, with one theme per name |
| LazyThemes.GetTwice | src/assets/lazy_theme_set.rs:33-40 | two `get`s agree; a success is deserialized once, a failure twice |

## Left out

- git2 itself is not modelled: repository discovery, `revparse_single`, `blame_file`, the
  revwalk, `find_object`/`short_id`, blob reads and path canonicalisation. Their results are
  inputs: the hunk ids, the walk's ids, a short-id function and git2's answers per file.
- `GitConfig::open_*`, `find_system`, `find_xdg` and `find_global` open files. An opened
  file is given as a source, and a file that did not open as an absent one.
- The environment and the terminal are parameters. This covers `var_os`, `terminal_size`,
  `COLUMNS`, `is_terminal` and the `git_config_env` readers.
- syntect's tokeniser, textwrap's first-fit wrapping, shlex's word splitting,
  content_inspector and the UTF-16 decoders are given as functions.
- Styling is left out: `body_style`, `gutter_style` and anstyle's rendering. The style is a
  type parameter with a rendering function, and the gutter style is a string.
- Operating-system effects are not modelled: process spawning, pipes, locking stdout and
  stderr, and the pager's `wait`. The decisions and a "waited" flag are kept.
- bincode, flate2 and `asset_from_contents` are a deserializing function.
- Error messages are kept only where the code fixes them ("could not access pager stdin",
  "lazy-loaded theme"). anyhow's context chains become nested error values, and panics
  become error values.
- `Blame.Annotations.RelativeOrigin`: the walk is a finite sequence, and a git2 error inside
  the walk is not modelled. The offset sum is an unbounded integer, so a `usize` overflow of
  `i + offset` is not modelled.
- `Blame.Annotations.New` and `BlameRender.OriginWidth`: `HashMap` iteration order is not
  modelled. Both results do not depend on it.
- `src/blame.rs:117`: `file.lines()` is modelled as an input sequence of lines, so its
  stripping of `\r\n` and its not yielding a final empty line are not modelled.
- `Revset.SplitRevset`: the offset sum of `split_revset` (src/blame.rs:306,309) is an
  unbounded integer, so its `usize` overflow is not modelled. Such a revision does not
  reach it: `revparse_single(head)` at src/blame.rs:263 fails on it first.
- `BlameRender.Render`: the rows are returned as a sequence rather than written to the pager
  one by one; on a failure the rows written before it are returned beside the error. A
  pager write error, which the code ignores, does not exist in the model.
- `BlameRender.RenderBlame`: the theme lookup, gutter colour and reset are inputs (the
  gutter style a string, `colored_stdout` a flag), starting the pager is not modelled, and
  `textwrap` is a function parameter; the text is returned as one string.
- `BlameRender.Highlighter.HighlightLine`: when syntect fails, the model leaves the
  highlighter's state unchanged. The state syntect leaves behind is not modelled.
- `LazyThemes.LazyThemeSet.Get`: the cache is a map from names to themes, not a `OnceCell`
  per theme. Returning a reference into the cell is not modelled.
- The `Debug`, `Serialize` and `Deserialize` derives, `Config::get` (a one-line delegation)
  and `src/main.rs`, `src/args.rs` and `src/assets.rs` are not part of this model.
