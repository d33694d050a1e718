# Album downloader: config parsing, track planning and tagging

This project models the deterministic core of `download_album.py`, a script that downloads the
audio of one YouTube video and cuts it into tagged MP3 tracks. The model covers:

- **`parse_config`**: reading `album.txt`. Each line is stripped. `url:`, `artist:`, `album:` and
  `year:` directives are kept, and a later one overwrites an earlier one. Lines of the form
  `m:ss Title` or `h:mm:ss Title` become tracklist entries, in file order. Comments, blank lines and
  anything else are dropped. At the end, the missing required fields are reported in a fixed order.
- **`timestamp_to_seconds`**: `m:s` means `m*60+s` and `h:m:s` means `h*3600+m*60+s`, with no bound
  on any field. Any other number of `:`-separated fields is an error.
- **`split_audio`** without its `ffmpeg` call: for each entry, numbered from 1, the file name
  `NN - Title.mp3`, the start and the duration. The duration looks ahead to the next entry's start,
  or uses the total duration for the last entry.
- **`add_metadata`** without the ID3 library: for each file, the tag values written: title, artist,
  album, `i/n` and, when given, the year.
- **`main`**: the data flow from the lines of the file and the probed total duration to the folder
  name `artist - album (year)`, the segments and the tag writes.

Modules:

- `Wrappers` holds `Option` and `Result`.
- `Sequences` holds three general facts about sequences that the proofs use.
- `Text` models the `str` behaviour used: `strip` with Python's whitespace set, `startswith`,
  `split`, one-character `replace`, `int()` on ASCII decimal literals, and `{n}` / `{n:02d}`.
- `Timestamp` models the conversion and the timestamp grammar.
- `AlbumConfig` models the parser.
- `Planner` models the loop of `split_audio`.
- `Tagging` models tag values and the folder name.
- `Pipeline` models `main`.
- Each loop of the source is a method with a loop: `ParseConfig`, `SplitAudio` and `AddMetadata`.
  Each method is proved equal to a function (`Validate(ParseLines(..))`, `PlanSegments`,
  `TagPlan`), and the properties are proved as lemmas about those functions.

The tracklist regular expression `^(\d+:\d+(?::\d+)?)\s+(.+)$` is written as a predicate over runs
of digits, not as a regex engine:

- `IsTimestampShape` is the timestamp group.
- `PatternMatches` says a line is timestamp, whitespace, title.
- `MatchEntry` is what the regex returns on a stripped line.

`MatchEntrySound` and `MatchEntryComplete` prove that `MatchEntry` gives an entry exactly when the
pattern matches, and that every way the pattern can divide the whitespace gives the same stripped
title. `ConvertsIffShape` proves that a string has the timestamp shape exactly when
`timestamp_to_seconds` accepts it. So, with `int()` taken to accept decimal literals of any
length, a parsed tracklist never raises during planning (`ParsedTracklistConverts`).

Two checks one might expect are not in the code, and the model does not add them:

- **Durations are not checked.** `split_audio` (lines 173-177) does not check that a duration is
  positive, and the model plans zero and negative durations too (`ShortAudioNotRefused`,
  `RepeatedStartNotRefused`). `PositiveDurations` gives the exact condition under which every
  duration is positive.
- **Starts are not checked.** The parser does not check that the starts increase.

## Model

| member | source | states |
|---|---|---|
| Text.Trim | download_album.py:49 | `line.strip()` gives a string that neither starts nor ends with whitespace (Python's `isspace` set), and is no longer than the input |
| Text.StartsWith | download_album.py:52-62 | the definition of `str.startswith`: the prefix is no longer than the line and equals its first characters; `PrefixesExclusive` and `ClassifyDirective` state what follows for the directive tests |
| Text.TrimSlice | download_album.py:49 | what `strip` keeps is one contiguous slice of the line, and what it drops on either side is all whitespace |
| Text.Split | download_album.py:95 | `split(':')` gives at least one field, and no field contains `:` |
| Text.JoinSplit | download_album.py:95 | joining the fields with `:` gives back the string, and there is one more field than colons |
| Text.SplitJoin | download_album.py:95 | splitting the `:`-join of colon-free fields gives back those fields |
| Text.AfterFirst | download_album.py:57 | `split(":", 1)[1]` is the text after the first colon: the character before it is a colon, and no earlier character is |
| Text.ReplaceChar | download_album.py:168 | `replace("/", "-")` keeps the length, turns every `/` into `-` and leaves every other character unchanged |
| Text.ParseNat | download_album.py:98 | `int(field)` succeeds exactly on non-empty strings of ASCII digits |
| Text.NatToString | download_album.py:220 | `f"{i}"` is a non-empty digit string, one digit long exactly when `i < 10`, with no leading zero unless `i` is 0; with `NatToStringRoundTrip` this fixes the text exactly |
| Text.NatToStringRoundTrip | download_album.py:220 | `int(str(n)) == n` |
| Text.NatToStringInjective | download_album.py:220 | different numbers have different decimal forms |
| Text.Pad2 | download_album.py:167 | `f"{i:02d}"` is all digits and at least two characters long |
| Text.Pad2RoundTrip | download_album.py:167 | the padded number is exactly two long when `i < 10`, otherwise as long as the decimal form, and `int()` reads it back as `i` |
| Text.LeadingDigits | download_album.py:66 | the `\d+` run at the front: all digits, and followed by a non-digit or the end |
| Timestamp.IntField | download_album.py:98-101 | `int()` of a field gives its decimal value, or a `ValueError` naming the field, exactly when the field is not a non-empty ASCII digit string |
| Timestamp.MinutesSeconds | download_album.py:97-98 | the definition of the two-field case, converting minutes then seconds; `MinutesSecondsOk` states its value |
| Timestamp.HoursMinutesSeconds | download_album.py:100-101 | the definition of the three-field case, converting hours, minutes, then seconds; `HoursMinutesSecondsOk` states its value |
| Timestamp.IsTimestampShape | download_album.py:66 | the definition of the timestamp group `\d+:\d+(?::\d+)?` of the pattern; `ConvertsIffShape` ties it to the conversion, and `ShapeChars` gives its characters |
| Timestamp.TimestampToSeconds | download_album.py:93-103 | the definition: split on `:`, two fields as minutes and seconds, three as hours, minutes and seconds, anything else the format error; its properties are `TwoFields`, `ThreeFields`, `WrongFieldCount` and `ConvertsIffShape` |
| Timestamp.MinutesSecondsOk | download_album.py:96-98 | two decimal literals as minutes and seconds give `m*60+s` |
| Timestamp.HoursMinutesSecondsOk | download_album.py:99-101 | three decimal literals as hours, minutes and seconds give `h*3600+m*60+s` |
| Timestamp.TwoFields | download_album.py:96-98 | `m:s` converts to `m*60+s` for digit strings `m` and `s` of any length |
| Timestamp.ThreeFields | download_album.py:99-101 | `h:m:s` converts to `h*3600+m*60+s` for digit strings of any length |
| Timestamp.WrongFieldCount | download_album.py:102-103 | any number of colons other than one or two raises the format error, whatever the fields hold |
| Timestamp.ShapeChars | download_album.py:66 | a string matching `\d+:\d+(?::\d+)?` is only digits and colons, and starts with a digit |
| Timestamp.ConvertedHasShape | download_album.py:93-103 | every string the conversion accepts matches the timestamp group of the tracklist pattern of line 66 |
| Timestamp.ShapeConverts | download_album.py:93-103 | every string matching the timestamp group of the pattern of line 66 converts without error |
| Timestamp.ConvertsIffShape | download_album.py:93-103 | the conversion succeeds exactly on the strings the tracklist pattern admits as timestamps |
| AlbumConfig.DirectiveValue | download_album.py:56-63 | the value of a `key:` line is the stripped text after the key's own colon |
| AlbumConfig.MatchEntry | download_album.py:66-69 | the definition of the tracklist match on a stripped line; `MatchEntrySound`, `MatchEntryComplete` and `MatchEntryValid` prove it against the pattern `PatternMatches` |
| AlbumConfig.PatternMatches | download_album.py:66 | the definition of the whole pattern as a reading of the line as timestamp, whitespace and title, independent of `MatchEntry`; `MatchEntrySound` and `MatchEntryComplete` prove `MatchEntry` against it |
| AlbumConfig.Classify | download_album.py:52-69 | the definition of the `if`/`elif` chain on a stripped line: blank or comment, the four directives in order, then the tracklist pattern; its properties are `PrefixesExclusive`, `ClassifyDirective`, `ClassifyOther` and `DirectiveValueKept` |
| AlbumConfig.ClassifyLine | download_album.py:49-69 | the definition: a raw line is stripped, then classified; `TrackLine` states when it is an entry |
| AlbumConfig.PrefixesExclusive | download_album.py:56-63 | at most one of the four directive prefixes fits a line, so the `elif` order never matters |
| AlbumConfig.ClassifyDirective | download_album.py:52-63 | a stripped line starting with `key:` sets that key to the stripped rest of the line |
| AlbumConfig.ClassifyOther | download_album.py:64-69 | a non-blank, non-comment line that no directive claims is an entry exactly when the pattern matches it |
| AlbumConfig.DirectiveValueKept | download_album.py:56-63 | `key:` + whitespace + a stripped value is read as exactly that value, even when it holds more colons (`url: https://...`) |
| AlbumConfig.SetField | download_album.py:57-63 | a directive sets its own field and changes neither the other fields nor the tracklist |
| AlbumConfig.ApplyLine | download_album.py:57-69 | the definition of the dictionary update for one classified line: a directive writes its field, an entry is appended to the tracklist, anything else changes nothing; `SetField` and `ApplyOther` state its effects |
| AlbumConfig.Present | download_album.py:73-79 | the definition of Python truthiness for an optional string, set and non-empty, as the tests at lines 73-79, 221 and 253 use it; `Validate` and `TagsFor` state what depends on it |
| AlbumConfig.ParseLines | download_album.py:48-69 | the definition of the dictionary after the lines in order, each applied as it is classified; its properties are `ParsedTracklist`, `TracksAppend`, `LastDirectiveWins`, `NoDirective` and `ParsedEntriesValid`, and `ParseConfig` is proved equal to it |
| AlbumConfig.MatchEntrySound | download_album.py:66-69 | an entry comes from a way of reading the line as timestamp, non-empty whitespace and a non-empty title without line feeds; the stored title is that group stripped |
| AlbumConfig.MatchEntryComplete | download_album.py:66-69 | whenever the pattern matches a stripped line, in whichever way it divides the whitespace, the entry is `(title.strip(), timestamp)` |
| AlbumConfig.MatchEntryValid | download_album.py:66-69 | an entry's timestamp has the timestamp shape, and its title is stripped and non-empty |
| AlbumConfig.TrackLine | download_album.py:49-69 | a line becomes an entry exactly when the pattern matches it after stripping, because a matching line starts with a digit, which no comment or directive does |
| AlbumConfig.ParsedTracklist | download_album.py:48-69 | the tracklist is exactly the entries of the track lines, in file order; no other line touches it |
| AlbumConfig.TracksAppend | download_album.py:48-69 | the entries of two runs of lines are the entries of the first followed by those of the second |
| AlbumConfig.LastDirectiveWins | download_album.py:56-63 | a field holds the value of the last line that sets it |
| AlbumConfig.NoDirective | download_album.py:38-63 | a field no line sets stays `None` |
| AlbumConfig.ParsedEntriesValid | download_album.py:64-69 | every tracklist entry has a well-formed timestamp and a stripped, non-empty title |
| AlbumConfig.MissingFields | download_album.py:72-80 | the missing list contains a required field exactly when it is unset or empty (the tracklist: when it is empty), each once, in the order url, artist, album, tracklist |
| AlbumConfig.Validate | download_album.py:72-86 | parsing succeeds exactly when url, artist and album are set and non-empty and the tracklist is non-empty (year is never required); on success the dictionary is returned unchanged, on failure the non-empty missing list |
| AlbumConfig.ReadLine | download_album.py:49-69 | one pass of the loop body updates the dictionary exactly as the classification of that stripped line says |
| AlbumConfig.ParseConfig | download_album.py:31-86 | the loop over the lines followed by the validation computes `Validate(ParseLines(lines))` |
| Planner.SafeTitleSpec | download_album.py:168 | the safe title has no `/`, keeps the length, and changes only the slashes, each into `-` |
| Planner.SafeTitle | download_album.py:168 | the definition, `replace("/", "-")` on the title; `SafeTitleSpec` states its properties |
| Planner.FileName | download_album.py:167-169 | the definition of `f"{i:02d} - {safe_title}.mp3"`; `FileNameParts`, `FileNamesDistinct` and `FileNameExample` state its properties |
| Planner.FileNameParts | download_album.py:167-169 | a file name is the padded number, then ` - `, the safe title and `.mp3`; the leading digits of the name read back as the track number |
| Planner.FileNamesDistinct | download_album.py:167-169 | different track numbers give different file names whatever the titles, so no track overwrites another |
| Planner.FileNameExample | download_album.py:167-169 | track 7 titled `A/B` is written to `07 - A-B.mp3` |
| Planner.Plan | download_album.py:166-177 | one segment per entry, in order: track `k+1` carries entry `k`'s title, its file name and its start |
| Planner.SegmentAt | download_album.py:167-177 | the definition of what one pass of the loop computes for an entry: track number, title, file name, start and duration; `PlannedStep` appends it, and `Plan` and `PlanDuration` state its fields |
| Planner.DurationOf | download_album.py:173-177 | the definition of the look-ahead duration; `PlanDuration`, `Contiguous`, `DurationsTelescope` and `PositiveDurations` state its properties |
| Planner.PlanSegments | download_album.py:164-200 | the definition of what `split_audio` yields: the plan, or the first conversion error; `SplitAudio` is proved equal to it, and `StepErrorIsFirst` and `FirstErrorAt` pin the error |
| Planner.PlanDuration | download_album.py:173-177 | the duration of entry `k` is the next start minus this one, or for the last entry the total minus its start |
| Planner.FirstBad | download_album.py:171-174 | the first entry from a position on whose timestamp does not convert: it fails, and all before it convert |
| Planner.FirstErrorAt | download_album.py:171-174 | the error reported is that of the first entry whose timestamp fails, whichever that is |
| Planner.PlanTrack | download_album.py:166-177 | iteration `i` converts its own start and, unless last, the next entry's start; it yields segment `i` or the error of the first of those that fails |
| Planner.StepErrorIsFirst | download_album.py:166-174 | an error raised in iteration `i`, after every earlier iteration went through, is the error of the first entry whose timestamp fails |
| Planner.PlannedStep | download_album.py:166-197 | iteration `i` appends the segment of entry `i - 1` to the list the earlier iterations collected |
| Planner.SplitAudio | download_album.py:155-200 | the loop yields `PlanSegments`: the plan when every timestamp converts, else the error of the first bad entry |
| Planner.IsPlan | download_album.py:166-197 | once every iteration went through, the collected list is the plan |
| Planner.Contiguous | download_album.py:173-177 | each segment ends where the next starts, and the last ends at the total duration |
| Planner.Telescope | download_album.py:173-177 | for segments laid end to end up to a total, the durations add up to the total minus the first start |
| Planner.DurationsTelescope | download_album.py:173-177 | the planned durations add up to the total minus the first entry's start |
| Planner.NeighboursIncreasing | download_album.py:173-175 | starts that increase from each entry to the next increase between any two entries |
| Planner.IncreasingFromPositive | download_album.py:173-177 | positive durations imply strictly increasing starts and a total beyond the last start |
| Planner.PositiveFromIncreasing | download_album.py:173-177 | strictly increasing starts and a total beyond the last start imply positive durations |
| Planner.PositiveDurations | download_album.py:173-177 | every planned duration is positive exactly when the starts strictly increase and the total exceeds the last start |
| Planner.ShortAudioNotRefused | download_album.py:176-177 | audio shorter than the last start still yields a plan, with a negative last duration |
| Planner.RepeatedStartNotRefused | download_album.py:173-175 | two entries with the same start still yield a plan, with a zero duration |
| Tagging.TrackNumberRoundTrip | download_album.py:220 | the `i/n` tag splits on `/` into two fields that read back as `i` and `n` |
| Tagging.TrackNumberInjective | download_album.py:220 | different positions or counts give different track-number tags |
| Tagging.TrackNumber | download_album.py:220 | the definition of `f"{i}/{n}"`; `TrackNumberRoundTrip`, `TrackNumberInjective` and `TrackNumberExample` state its properties |
| Tagging.TrackNumberExample | download_album.py:220 | track 7 of 12 is tagged `7/12`, with neither padding nor a leading zero |
| Tagging.AlbumInfoOf | download_album.py:235-239 | the definition of the `album_info` dictionary: artist, album and `config.get("year")`; `TagsFor` and `FolderNameInjective` use it |
| Tagging.TagsFor | download_album.py:217-222 | a file gets its title, the artist, the album and `i/n`; the year frame is set exactly when the year is set and non-empty, and then to the year |
| Tagging.TagPlan | download_album.py:211-222 | `zip` tags `min(len(files), len(tracklist))` files, file `k` with entry `k`'s title and number `k+1` out of the tracklist length |
| Tagging.AddMetadata | download_album.py:211-224 | the loop performs exactly the writes of `TagPlan`, in order |
| Tagging.TrackNumbersDistinct | download_album.py:211-220 | no two tagged files carry the same track number |
| Tagging.FolderNameInjective | download_album.py:253-256 | for one artist and album, the folder name shows whether a non-empty year was given, and which |
| Tagging.FolderName | download_album.py:253-256 | the definition of the folder name, with the year in parentheses only when it is set and non-empty; `FolderNameInjective` states its property |
| Pipeline.Run | download_album.py:230-274 | parsing, folder naming, splitting and tagging in sequence compute `RunAlbum` |
| Pipeline.RunAlbum | download_album.py:230-274 | the definition of the data flow of `main`; `Run` is proved equal to it, and `RunFailsOnlyOnMissing` and `RunTagsEveryFile` state its properties |
| Pipeline.ParsedTracklistConverts | download_album.py:64-69 | every timestamp the parser accepted converts when `split_audio` reads it (lines 171-174) |
| Pipeline.RunFailsOnlyOnMissing | download_album.py:82-84 | a run stops exactly when a required field is missing, with the missing list; a timestamp error never happens after a successful parse |
| Pipeline.RunTagsEveryFile | download_album.py:271-274 | after a successful run, the segments, the tracklist and the tag writes have the same length, and file `k` is `NN - title.mp3` for entry `k`, tagged with that entry's title and `k+1/n` |

## Left out

- Reading the file: `filepath.exists()` and `read_text` (lines 33-46) are I/O. The model takes the
  lines that `content.splitlines()` (line 48) returns, so no line contains a line boundary.
- The `yt-dlp`, `ffprobe` and `ffmpeg` subprocesses (lines 106-152, 181-195) are external tools.
  The total duration that `get_audio_duration` probes becomes a `real` parameter. No error of
  these tools is modelled.
- Float parsing of the `ffprobe` output (line 120) and float arithmetic in general. Starts are
  whole seconds (`nat`) and the duration is an exact `real`.
- The ID3 library: loading, replacing frames, `save` and the no-header fallback (lines 212-224).
  Only the values passed to each frame are modelled, as `TagWrite` records.
- Filesystem effects in `main`: `mkdir`, `unlink`, `rmdir` and the listing of the output folder
  (lines 257-263, 278-279, 287-288). Paths are reduced to file and folder names, and the
  `output/` prefix is dropped.
- Console output, the `{duration:.1f}` formatting, the messages on exit, and `sys.exit` (lines
  34-36, 83, 162, 179, 199, 209, 225-227, 243-250, 268, 277-298). A missing-field exit is the error
  result of `Validate`. The exceptions caught in `main` are the `Failure` result of `RunAlbum`.
- Exceptions of external tools caught in `main`, and the segments already cut when a later step
  fails. The model returns either a full result or an error, with nothing partial.
- Python `int()` leniency (signs, underscores, surrounding whitespace) and the Unicode digits that
  `\d` and `int()` accept. Fields are ASCII decimal strings.
- Text.ParseNat: accepts decimal literals of any length. CPython's `int()` raises `ValueError` on a
  decimal string of more than 4300 digits (the limit of `sys.get_int_max_str_digits()`, the default
  since Python 3.11 and backported to 3.10.7 and 3.9.14). The limit is adjustable at run time, so
  the model leaves it out.
- Timestamp.IntField: through `ParseNat`, converts a field of more than 4300 digits instead of
  raising the `ValueError` that `int(field)` raises at lines 98 and 101.
- Timestamp.ShapeConverts, Timestamp.ConvertsIffShape: hold for the model's `int()`. Under the digit
  limit, a timestamp-shaped string with a field longer than 4300 digits raises.
- Pipeline.ParsedTracklistConverts, Pipeline.RunFailsOnlyOnMissing: likewise. Such a field matches
  `\d+` at line 66, so it is parsed and then raises inside `split_audio`, which the model does not
  capture.
