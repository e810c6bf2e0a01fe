# git: user-agent sanitiser and `interpret-trailers` option handling

A Dafny model of two small pieces of git.

- **version.c.** `git_user_agent` returns the user-agent string a git client announces. It is the
  `GIT_USER_AGENT` environment variable if that is set, and otherwise the compiled-in default. The
  result is cached after the first call. `git_user_agent_sanitized` takes a copy of that string and
  redacts it with `redact_non_printables`. The redaction trims white space from both ends, then
  overwrites every byte outside printable ASCII (33..126) with a dot. The redacted copy is cached as
  well.
- **builtin/interpret-trailers.c.** These are the option callbacks of `git interpret-trailers`:
  - `--where`, `--if-exists` and `--if-missing` set three file-level policy variables.
  - Each `--trailer` appends an item to an ordered list. The item holds the argument and a snapshot
    of the three policies.
  - `--no-trailer` empties the list.
  - `--parse` switches on `only_trailers`, `only_input` and `unfold`.
  - Two checks reject option combinations before any input is read. Then the command runs the
    trailer engine once per file argument, or once from standard input.

Modules:

- `Strbuf` (strbuf.dfy): the byte buffer `struct strbuf` as a class over an array. It covers
  building the buffer from a string and `strbuf_trim` (`strbuf_rtrim`, then `strbuf_ltrim`). The
  `memmove` in `strbuf_ltrim` is rendered as a front-to-back copy, which is exact because the
  destination lies below the source. `CString` is the one type for a C string's bytes. Specification functions `TrimEnd`, `TrimStart` and `Trimmed` go with
  it, and their properties are proved as lemmas. `RTrim`, `LTrim` and `MoveDown` follow git's
  `strbuf_rtrim` and `strbuf_ltrim` in strbuf.c, whose text is not part of this model; what
  version.c:16 relies on is only their combined effect, `Trimmed`. C's `isspace` is passed in as the
  parameter `isSpace`.
- `Version` (version.dfy): the redaction loop works in place on the buffer's array. It is proved
  equal to the specification function `Redacted`. The class `UserAgent` holds the two static caches
  as `Option` fields. Its invariant says that a cached sanitised agent is always the redaction of
  the cached agent.
- `InterpretTrailers` (interpret_trailers.dfy):
  - The class `ParseState` holds the policy variables, the list of new trailers and the processing
    options. It has one method per callback.
  - `Step` and `Run` are the pure specification of one option and of a sequence of options.
  - `LastWhere`, `LastIfExists`, `LastIfMissing` and `Queued` describe the final list declaratively,
    with no state threaded through.
  - `Command` and the method `CmdInterpretTrailers` cover what the command decides before the
    engine runs.

The C test `buf->buf[i] <= 32 || buf->buf[i] >= 127` reads the byte through `char`. Where `char`
is signed, bytes 0x80..0xFF read as negative, so they are caught by `<= 32` and not by `>= 127`.
`CharValue` models both signednesses. `GuardOnEitherSignedness` shows that the test selects the
same bytes either way.

The enums `Where`, `IfExists` and `IfMissing` also carry a DEFAULT value. The file-level statics
start with it, and the `--no-…` form of each option stores it. The trailer engine's placements
(end, start, after, before) and actions (add-if-different-neighbor, add-if-different, add,
replace, do-nothing; add, do-nothing) are the other values.

## Model

| member | source | states |
|---|---|---|
| `Strbuf.TrimEndShape` | version.c:16 | `TrimEnd`: the result is a prefix of the input. It is empty or ends in a non-white-space byte. Every byte it drops is white space. |
| `Strbuf.TrimStartShape` | version.c:16 | `TrimStart`: the result is a suffix of the input. It is empty or starts with a non-white-space byte. Every byte it drops is white space. |
| `Strbuf.TrimmedShape` | version.c:16 | `Trimmed`: trimming keeps one contiguous stretch `s[k..k+n]` of the input. Everything before and after it is white space, and the stretch neither starts nor ends with white space. |
| `Strbuf.StrBuf.FromBytes` | version.c:41-43 | `STRBUF_INIT` plus `strbuf_addstr`: a fresh buffer holding exactly the given bytes. |
| `Strbuf.StrBuf.RTrim` | version.c:16 | Shortening `len` over trailing white space leaves the buffer holding `TrimEnd` of its old contents. The array is the same one. |
| `Strbuf.StrBuf.LTrim` | version.c:16 | Skipping leading white space and moving the rest down leaves the buffer holding `TrimStart` of its old contents. |
| `Strbuf.StrBuf.MoveDown` | version.c:16 | The `memmove`, rendered as an in-place front-to-back copy (exact, since the destination lies below the source), drops exactly the first `b` bytes. |
| `Strbuf.StrBuf.Trim` | version.c:16 | After `strbuf_trim` the buffer holds `Trimmed` of its old contents, in the same array. |
| `Version.GuardOnEitherSignedness` | version.c:18 | With `char` signed or unsigned, `c <= 32` or `c >= 127` holds exactly for the bytes outside 33..126. |
| `Version.Redacted` | version.c:14-21 | Redaction keeps the length of the trimmed input: one dot per offending byte, runs not collapsed. No byte <= 32 or >= 127 remains. Each offending position holds '.'. Each byte in 33..126 keeps its value and position. |
| `Version.RedactedDropsOuterSpace` | version.c:16-19 | Leading and trailing white space is removed, not turned into dots: everything before and after a stretch `s[k..k+n]` is white space, the stretch is empty or starts and ends with a non-white-space byte, and the output is the sanitised image of that stretch, position by position. |
| `Version.RedactedIdempotent` | version.c:14-21 | Redacting a redacted string changes nothing. This needs only that `isspace` never classifies a printable byte as white space. |
| `Version.ReplaceNonPrintables` | version.c:17-20 | The loop overwrites in place each byte the C test selects with '.', and leaves every other byte as it was. |
| `Version.RedactNonPrintables` | version.c:14-21 | After trimming and the loop, the buffer holds `Redacted` of its old contents, in the same array. |
| `Version.UserAgent.constructor` | version.c:25 | Both caches start empty (NULL): the `agent` static here and its sanitised counterpart at version.c:38. |
| `Version.UserAgent.GitUserAgent` | version.c:23-34 | The first call returns the environment value if present, else the compiled default, and caches it. Every later call returns the cached value whatever the environment says. The sanitised cache is untouched. |
| `Version.UserAgent.GitUserAgentSanitized` | version.c:36-49 | The result is the redaction of the value `git_user_agent` caches, and it is cached. Once cached, later calls return it and change nothing. The cache invariant is preserved. |
| `InterpretTrailers.Step` | builtin/interpret-trailers.c:27-94 | Every option except `--no-trailer` keeps the existing list as a prefix and adds at most one item. Options other than `--trailer`/`--no-trailer` leave the list alone. Each policy variable changes only on its own option. The processing options change only on `--parse` or a boolean flag. |
| `InterpretTrailers.RunAppend` | builtin/interpret-trailers.c:140-141 | Options act in command-line order: running `a + b` is running `a`, then `b`. |
| `InterpretTrailers.RunPolicies` | builtin/interpret-trailers.c:23-46 | After any options, each policy variable holds the value of its last option, or its starting value. |
| `InterpretTrailers.TrailerAppendsSnapshot` | builtin/interpret-trailers.c:74-79 | `--trailer` appends exactly one item, at the tail. The item's text is the argument, and its policies are those in force at that moment. |
| `InterpretTrailers.RunTrailers` | builtin/interpret-trailers.c:60-81 | The final list is the starting list (dropped if any `--no-trailer` occurred), followed by the items of the `--trailer` options after the last `--no-trailer`, in order. Each item carries the policies set by the options before it. |
| `InterpretTrailers.EarlierItemsKept` | builtin/interpret-trailers.c:76-79 | Without `--no-trailer`, items already queued keep their place, text and policies, whatever policy options follow. |
| `InterpretTrailers.OnlyInputStays` | builtin/interpret-trailers.c:86-90 | Once set, `only_input` stays set unless `--no-only-input` follows. |
| `InterpretTrailers.Command` | builtin/interpret-trailers.c:143-180 | Rejected with "--trailer with --only-input" exactly when `only_input` is set and the list is non-empty. Otherwise, rejected for in-place editing exactly when there are no file arguments and `in_place` is set. Otherwise one engine run per file, in order, each written back to its own file under `--in-place` and to standard output otherwise. With no files there is one run from standard input to standard output. The engine gets the final options and list. |
| `InterpretTrailers.ParseWithTrailerRejected` | builtin/interpret-trailers.c:143-147 | `--parse` together with a `--trailer` that no later `--no-trailer` cancels is always rejected, unless `--no-only-input` follows the `--parse`. |
| `InterpretTrailers.ParseState.constructor` | builtin/interpret-trailers.c:23-25 | Parsing starts from the zero-initialised (DEFAULT) policies, an empty list and, as the declarations at builtin/interpret-trailers.c:113-114 give, all flags off. |
| `InterpretTrailers.ParseState.OptionParseWhere` | builtin/interpret-trailers.c:27-32 | Stores the placement, returns 0, and changes nothing else, the list included. |
| `InterpretTrailers.ParseState.OptionParseIfExists` | builtin/interpret-trailers.c:34-39 | Stores the if-exists action, returns 0, and changes nothing else. |
| `InterpretTrailers.ParseState.OptionParseIfMissing` | builtin/interpret-trailers.c:41-46 | Stores the if-missing action, returns 0, and changes nothing else. |
| `InterpretTrailers.ParseState.NewTrailersClear` | builtin/interpret-trailers.c:48-58 | Removing items one by one empties the list and touches nothing else. |
| `InterpretTrailers.ParseState.OptionParseTrailer` | builtin/interpret-trailers.c:60-81 | Unset: the list is emptied, whatever it held, and 0 is returned. No argument: returns -1, nothing changes. Otherwise: returns 0 and appends one item at the tail with the argument and the current policies. |
| `InterpretTrailers.ParseState.ParseOptParse` | builtin/interpret-trailers.c:83-94 | Sets `only_trailers`, `only_input` and `unfold`, returns 0, and changes no other field. |
| `InterpretTrailers.ParseState.OptBool` | builtin/interpret-trailers.c:117-132 | A boolean option sets or clears its own flag only. |
| `InterpretTrailers.ParseState.Dispatch` | builtin/interpret-trailers.c:116-136 | Handing an option to its callback changes the state exactly as `Step` says. |
| `InterpretTrailers.CmdInterpretTrailers` | builtin/interpret-trailers.c:108-185 | Running every callback, then the checks, then building the list of engine runs, gives exactly `Command`. |

## Left out

- The trailer engine (`trailer_config_init`, `trailer_process`): trailer.c is not part of this model. A `Job` records only which input an engine run reads and where its output goes.
- The string parsing in `trailer_set_where`, `trailer_set_if_exists` and `trailer_set_if_missing`, and its -1 result for an unknown word: their bodies are not part of this model. The callbacks take the already-parsed enum value.
- `parse_options` and `repo_config`: option events arrive already split and in order. A `--trailer` without an argument does not occur as an event, since `parse_options` always supplies one. The callback's -1 path for it is modelled in `OptionParseTrailer` only.
- The `BUG_ON_OPT_NEG` / `BUG_ON_OPT_ARG` checks in `parse_opt_parse`: `PARSE_OPT_NOARG | PARSE_OPT_NONEG` guarantees they never fire, so the method takes no argument.
- File and standard-input reading (`read_input_file`, `strbuf_complete_line`), `write_file_buf`, `fwrite` and the `die` when the engine fails: I/O and the engine.
- `usage_msg_opt` and `die` become the two `Rejected` outcomes. Exit statuses and the printing of the usage text are not modelled.
- `getenv`: the environment value is a parameter of each call, `None` when the variable is unset.
- Strbuf.StrBuf.RTrim, Strbuf.StrBuf.LTrim, Strbuf.StrBuf.MoveDown: their loops follow strbuf.c, which is not part of this model, so only their combined effect (`Trimmed`, the call at version.c:16) can be checked against the cited line.
- The NUL terminator a strbuf keeps after its bytes, its allocation and growth, and `strbuf_detach`/`free`: memory management. `FromBytes` allocates an array of exactly the right size.
- `git_version_string` and `git_built_from_commit_string`: build-time constants with no behaviour.
- `Version.RedactedIdempotent`: proved only when `isSpace` holds on non-printable bytes alone. An arbitrary classification that called a printable byte white space could trim the dots of a second pass.
