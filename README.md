# PHP Log class, modelled in Dafny

This project models the `Log` class of a small PHP file-logging utility. A `Log`
keeps three things:

- a registry that maps log names to file paths;
- a status code: inactive (0), active (1) or failed (2), or no value at all when
  construction returned early;
- the most recently formatted entry.

`entry` formats one line. It starts with an optional `[<time>]: ` prefix. Then
comes one `[m]` per meta item, followed by ` - ` when there is at least one item.
Then come the content and a newline. When the status is truthy, the line is
appended to the registered file. `clearLog` truncates a registered file.
`activateLog`, `deactivateLog` and `__destruct` only set the status.

Modules:

- `Wrappers`: the `Option` datatype.
- `FileStore`: the file system as a map from path to contents, plus a set of
  paths that cannot be opened. The `Disk` class holds both and is changed in
  place by appends and truncations.
- `EntryFormat`: the entry line as a function of the call's arguments (`Line`),
  lemmas stating its shape, and a parser (`ParseTags`) that reads the tag
  segment back.
- `Logging`: the status codes and the `Log` class, whose methods update its
  fields and the `Disk` they are given. Five scenario methods at the end
  (`TwoLogsScenario`, `FailureScenario`, `RecoveryScenario`, `ClearScenario`,
  `InvalidConstructionScenario`) show what callers can prove from the
  contracts alone.

The rendered time of an entry is a string parameter (`now`). The time-stamp
format is stored in a field, as in the source, but never applied.

Three behaviours of the code are easy to misread. The model keeps them as written:

- The status gate is PHP truthiness (src/class.log.php:100). A failed log
  (status 2) therefore keeps trying to write, and only an inactive log or an
  unset status suppresses writes.
- An unregistered log name has no check of its own. Its lookup yields null and
  the open fails, so the log becomes failed and throws "Can't open log file:
  <name>". It is not a separate error that leaves the state alone.
- A constructor argument that is neither a string nor an array makes the
  constructor return early without an error. The registry is never set. The
  status stays null, so no entry is ever written. The time-stamp format argument
  is also ignored, because the early return comes before line 51.

## Model

| member | source | states |
|---|---|---|
| `Logging.Log.constructor` | src/class.log.php:37-54 | a string gives the registry `{"default": path}` and an array is kept as given; both end with status active and take a truthy time-stamp format (not null, "" or "0"); any other argument leaves the registry empty, the status unset and the default format |
| `Logging.Log.Destruct` | src/class.log.php:62-65 | teardown sets the status to inactive and changes nothing else |
| `Logging.Log.Entry` | src/class.log.php:75-113 | the last entry becomes `Line(...)` whatever happens next; with a falsy status no file changes and nothing is thrown; with a truthy status and an openable path exactly the line is appended to that path and nothing else changes; with a truthy status and a failed open (including an unregistered name) the status becomes failed, "Can't open log file: <name>" is thrown and no file changes |
| `Logging.Log.Format` | src/class.log.php:77-98 | the `entry` field ends equal to the specified line and no other field changes |
| `Logging.Log.AppendTags` | src/class.log.php:90-95 | the foreach loop extends `entry` by one bracketed tag per item, in order |
| `Logging.Log.ClearLog` | src/class.log.php:121-125 | an openable path is left empty and no other file changes; otherwise "Can't open log file: <name>" is thrown and no file changes; the status and the last entry are never touched |
| `Logging.Log.LastEntry` | src/class.log.php:133-136 | returns the most recently formatted entry |
| `Logging.Log.DeactivateLog` | src/class.log.php:144-147 | sets the status to inactive (0) and changes nothing else |
| `Logging.Log.ActivateLog` | src/class.log.php:155-158 | sets the status to active (1) and changes nothing else |
| `Logging.WritesAttempted` | src/class.log.php:100 | writes are attempted for active and failed, and not for inactive or an unset status |
| `Logging.OpenFailure` | src/class.log.php:107 | the exception message ends with the log name after the fixed "Can't open log file: " text |
| `Logging.PathOf` | src/class.log.php:102 | a registered name resolves to its path; an unregistered name resolves to a path that no open accepts |
| `FileStore.Appended` | src/class.log.php:102-111 | append mode adds the data at the end of the file (a missing file counts as empty) and leaves every other file as it was |
| `FileStore.Truncated` | src/class.log.php:123 | write mode leaves the file empty and every other file as it was |
| `FileStore.Disk.Append` | src/class.log.php:102-111 | the open succeeds exactly when the path is openable; only then the files become `Appended(...)` |
| `FileStore.Disk.Truncate` | src/class.log.php:123-124 | the open succeeds exactly when the path is openable; only then the files become `Truncated(...)` |
| `FileStore.ClearThenAppend` | src/class.log.php:121-125 | clearing a file and then appending one line leaves exactly that line |
| `EntryFormat.TagsAppend` | src/class.log.php:91-93 | the tags of two item lists in sequence are the tags of the first followed by the tags of the second |
| `EntryFormat.TagsSnoc` | src/class.log.php:91-93 | one more loop iteration appends exactly that item's tag |
| `EntryFormat.TagsSplit` | src/class.log.php:90-95 | item k appears as its own `[m]` tag, after the tags of the items before it and before the tags of the items after it |
| `EntryFormat.PlainLine` | src/class.log.php:82-98 | with the time stamp off and no tags, the line is exactly the content and a newline |
| `EntryFormat.TaggedLine` | src/class.log.php:85-98 | a non-empty meta array gives the optional prefix, the tags in order, " - ", the content and a newline |
| `EntryFormat.UntaggedLine` | src/class.log.php:90-98 | an empty meta array adds neither tags nor " - " |
| `EntryFormat.FlagLine` | src/class.log.php:77-79 | a boolean meta replaces the time-stamp flag (the time-stamp argument is ignored) and produces no tag segment |
| `EntryFormat.SplitTag` | src/class.log.php:92 | the text up to the first "]" is split off, and it holds no "]" |
| `EntryFormat.TagsRoundTrip` | src/class.log.php:90-95 | when no item holds "]", parsing the tag segment gives back exactly the meta items, in order |
| `EntryFormat.BracketInItemIsAmbiguous` | src/class.log.php:92 | items are not escaped, so `["a][b"]` renders exactly like `["a", "b"]` |

## Left out

- Time zones and the clock (src/class.log.php:47-48, 86). The rendered time is an input string. The time-stamp format is stored but not applied, and the time-zone argument is not modelled.
- The `fopen`, `fwrite` and `fclose` mechanics. A successful open followed by a write is one step on the `Disk`, and a failed write after a successful open is not modelled. The handle `clearLog` leaves open is not modelled either.
- PHP 8 behaviour for the empty path. The model follows PHP 5 and 7, where `@fopen` of a null or empty path returns false. PHP 8 raises a `ValueError` instead, which would skip the failed status.
- PHP type juggling. Log names, registry paths and meta items are strings. The meta argument is a boolean, an array of strings or some other scalar (`Scalar`, ignored). Meta array keys are dropped and only their order is kept. The `is_string($log)` guard on line 100 always holds.
- Default arguments (`'temp.log'`, `array()`, `true`, `'default'`). Every call passes all of its arguments.
- Logging.Log.LastEntry: before the first entry the source returns null. The model returns "", because the field is a string that starts empty.
- `__destruct` running automatically when the object goes out of scope. `Destruct` is an ordinary method that callers invoke.
- The demonstration page index.php, which is a caller and not part of the logger.
