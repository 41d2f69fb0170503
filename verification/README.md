# golog, modelled in Dafny

This project models the core of the Go logging library golog. It covers these parts:

- **Levels.** Debug to Fatal, their names, and `ParseLevel`.
- **The record `Log`.** Its fields, `WithField`/`WithFields`, and the caller position `callerPos`.
- **The two encoders.** The type encoder `TypeEncoder.EncodeVal` and its per-type writers. The text encoder, which writes `level=… time=… pos=… msg=… k=v` lines. The JSON encoder, which writes `{"level":…,"time":…,"pos":…,"msg":…,"k":v}` lines.
- **The record and buffer pools.**
- **The logger.** Its level filter, the closed flag, the flush request channel, fan-out to the writers in registration order, and the panic/exit behaviour of Panic and Fatal records.
- **The rotating file writers of the `log` package.**
  - `FileWriter` and `multifileWriter` keep one file per level and write cumulatively to the record's level and every level below it, from the writer's level up.
  - `singleWriter` keeps one file for every level.
- **The rotating file writers of the root package.**
  - `multiFileWriter` and `singleFileWriter` are built from merged `FileLogOptions`.
  - Once a day they remove log files whose date stamp is older than `ExpireDays`.

Modules:

- `Levels`: `Level`, `Name` (`Level.String`), `ParseLevel`.
- `Values`: the closed universe of record values, and the `Runtime` record of library routines that the model takes as given.
- `Decimal`: base-10 text of integers (`strconv.FormatInt`/`FormatUint`).
- `Dates`: calendar dates, the `20060102` stamp, `uniqueLogDay`, and subtraction of days.
- `Paths`: `filepath.Join`/`Base` for `/`, `strings.Split`, and the non-empty split.
- `Records`: `Log`, `Field`, the argument list of `WithFields`, `callerPos`, and the two pools.
- `TypeEncoding`: `bytes.Buffer`, the narrow string escaper, and `TypeEncoder`.
- `TextEncoding` and `JsonEncoding`: the two encoders.
- `Logging`: the logger. Writers are identified by number, and their calls are recorded in order in a `Sink`.
- `Files`: a file system as a map from names to contents, with the names that fail to open or write. It also holds the buffered file handle (`buffedFile`/`logBuffer`) with its pending bytes.
- `LevelFiles`: file names and the per-level handle array with the loops the writers share.
- `LogWriters`: the writers of the `log` package.
- `Rotation`: `FileLogOptions`, their merge, the file-name date parsers, and `cleanLogFiles`.
- `RotatingWriters`: the writers of the root package.

What the Go code leaves to its environment becomes parameters of the model:

- the clock: a `now` date or instant;
- the directory listing `ioutil.ReadDir`: an `Option` of entries;
- `runtime.Caller`: a file name and a line;
- `os.PathSeparator`: `osSep`.

A panic or `os.Exit` is an `Outcome` or `Status` value that the method returns.

## Model

| member | source | states |
|---|---|---|
| Levels.Name | log/log.go:27-44 | a level above Fatal is named "INFO" |
| Levels.NameTable | log/log.go:27-44 | each level has its upper-case name; every name is one of the six, and unknown levels are "INFO" |
| Levels.NamesDistinct | log/log.go:27-44 | on Debug..Fatal, two levels have the same name exactly when they are equal |
| Levels.TrimSpace | log/log.go:48 | the result neither starts nor ends with white space (the 25 characters of unicode.IsSpace), and it lies in the input between a prefix and a suffix made only of white space |
| Levels.SpaceThenSuffix | log/log.go:48 | one step of trimming on the left: dropping a leading white-space character keeps the result a suffix of the text preceded only by white space |
| Levels.PrefixThenSpace | log/log.go:48 | one step of trimming on the right: dropping a trailing white-space character keeps the result a prefix of the text followed only by white space |
| Levels.TrimLeft | log/log.go:48 | removes a prefix made only of white space; what is left does not start with it |
| Levels.TrimRight | log/log.go:48 | removes a suffix made only of white space; what is left does not end with it |
| Levels.TrimBothAround | log/log.go:48 | trimming the left and then the right leaves the part of the text between its leading and its trailing white space |
| Levels.TrimmedIsTrimSpace | log/log.go:48 | a text that neither starts nor ends with white space is left as it is |
| Levels.UpperRune | log/log.go:48 | a lower-case ASCII letter moves down by 32; any other character except dotless i and long s is kept |
| Levels.ToUpper | log/log.go:48 | same length; every character is upper-cased on its own (ASCII letters shift by 32) |
| Levels.FindLevel | log/log.go:49-55 | the scan from `from` returns the first level whose name matches, and Info when none matches |
| Levels.ParseLevel | log/log.go:47-56 | the result is a level ≤ Fatal whose name is the upper-cased trimmed input, or Info when nothing matches |
| Levels.ParseUnknownIsInfo | log/log.go:55 | an input matching no name parses to Info |
| Levels.ParseName | log/log.go:47-56 | parsing a level's own name gives that level back (round trip of String and ParseLevel) |
| Levels.ParseMatches | log/log.go:47-56 | any input whose trimmed upper-case form is a level's name parses to that level |
| Levels.NameIsTrimmed | log/log.go:27-44 | level names have no surrounding space |
| Levels.NameIsUpper | log/log.go:27-44 | level names are all upper-case letters |
| Levels.UpperOfUpper | log/log.go:48 | ToUpper leaves an upper-case text unchanged |
| Levels.ParseLowerPadded | log/log.go:46 | case and surrounding space do not matter: " warn " parses to Warn |
| Levels.ParseVerboseIsInfo | log/log.go:46 | an unknown name ("verbose") parses to Info |
| Levels.LongNameIsInfo | log/log.go:47-56 | a trimmed input longer than five characters never names a level, so it parses to Info |
| Decimal.DigitValue | log/encoder.go:135-137 | a digit's value maps back to the same digit |
| Decimal.NatText | log/encoder.go:139-141 | non-empty, all digits, no leading zero except for 0 itself |
| Decimal.IntText | log/encoder.go:135-137 | a leading '-' exactly for negatives, digits after it |
| Decimal.ParseNatText | log/encoder.go:139-141 | reading back the unsigned decimal text gives the number |
| Decimal.ParseIntText | log/encoder.go:135-137 | reading back the signed decimal text gives the number |
| Decimal.IntTextInjective | log/encoder.go:135-137 | distinct integers get distinct texts |
| Values.Sprintln | encoder_json.go:52-55 | Sprintln's output ends in a newline, and removing it leaves the space-joined operands |
| Dates.DaysIn | write_singlefile.go:176 | a month has between 28 and 31 days |
| Dates.Fixed | write_singlefile.go:17 | the zero-padded field has exactly the width asked and only digits |
| Dates.ParseFixed | write_singlefile.go:172 | reading a zero-padded field back gives the number |
| Dates.FixedInjective | write_singlefile.go:17 | two fields of one width are equal exactly when the numbers are |
| Dates.Stamp | write_singlefile.go:122 | the `20060102` stamp of a four-digit-year date is eight digits |
| Dates.UniqueLogDayOrder | write_singlefile.go:159-161 | the day key is equal for two valid dates exactly when they are the same date, and ordered as the calendar |
| Dates.UniqueLogDay | write_singlefile.go:159-161 | the day key year*10000 + month*100 + day (its properties: UniqueLogDayOrder, StampIsFixedDay) |
| Dates.StampIsFixedDay | write_singlefile.go:159-161 | the stamp is the day key written with eight digits |
| Dates.LexLessFixed | write_singlefile.go:185 | string order on equal-width digit fields is numeric order |
| Dates.LexLess | write_singlefile.go:185 | Go's `<` on strings: a proper prefix, or the first differing character smaller (its properties: LexLessFixed, StampOrder) |
| Dates.StampOrder | write_singlefile.go:185 | comparing two stamps as strings compares the dates on the calendar; equal stamps mean equal dates |
| Dates.ParseStamp | write_singlefile.go:172 | a parsed stamp is eight digits (a sign in the year is rejected) and gives a valid date |
| Dates.ParseStampOfStamp | write_singlefile.go:172 | parsing a date's stamp gives the date back |
| Dates.StampOfParseStamp | write_singlefile.go:172 | every text that parses is the stamp of what it parses to, so the parser accepts exactly the stamps of valid dates |
| Dates.PrevDay | write_singlefile.go:176 | the previous day is a valid date before the given one |
| Dates.PrevDayIsAdjacent | write_singlefile.go:176 | no date lies strictly between the previous day and the day |
| Dates.SubtractDays | write_singlefile.go:176 | going back n > 0 days gives an earlier valid date; 0 days gives the same date |
| Dates.BeforeTransitive | write_singlefile.go:185 | the calendar order is transitive |
| Paths.Join | write_singlefile.go:147 | the name under the directory's prefix: the name alone for "" and ".", "/" then the name for the root, otherwise the directory, one separator and the name |
| Paths.DirPrefix | write_singlefile.go:147 | what is put before the name is empty or ends with the separator, and is nothing for "" and ".", the root alone for "/" |
| Paths.AfterLastSepAfter | write_singlefile.go:151 | after a prefix that is empty or ends with the separator, a separator-free name is the last element |
| Paths.TrimTrailingSeps | write_singlefile.go:151 | removes exactly the trailing separators |
| Paths.AfterLastSep | write_singlefile.go:151 | the suffix after the last separator, containing none |
| Paths.Base | write_singlefile.go:151 | "." for the empty path and "/" for a path of separators only; otherwise the last element: a separator-free suffix of the path with its trailing separators removed, preceded by a separator or by nothing |
| Paths.BaseOfJoin | write_singlefile.go:151 | the base of dir joined with a plain name is the name |
| Paths.AfterLastSepOfJoin | write_singlefile.go:151 | the text after the last separator of dir/name is the name |
| Paths.Split | write_singlefile.go:152 | at least one part, none containing the separator |
| Paths.SplitNone | write_singlefile.go:152 | a text without the separator splits into itself alone |
| Paths.SplitAt | write_singlefile.go:152 | splitting a + c + b is a followed by the parts of b |
| Paths.SplitJoin | write_singlefile.go:152 | joining the parts with the separator gives the text back |
| Paths.NonEmpty | write_singlefile.go:152 | a text is kept exactly when it is a non-empty part; never more parts than given |
| Paths.NonEmptyConcat | write_singlefile.go:152 | dropping the empty parts distributes over concatenation |
| Paths.NonEmptySingle | write_singlefile.go:152 | one part is kept exactly when it is non-empty; with NonEmptyConcat this fixes the result as the non-empty parts in their order |
| Paths.SplitNonEmpty | write_singlefile.go:152 | every part is non-empty and free of the separator, and a text is a part exactly when it is a non-empty part of Split |
| Paths.SplitNonEmptyFirst | write_singlefile.go:152 | splitting at the first separator gives the first part, unless it is empty, then the parts of the rest |
| Paths.SplitNonEmptyFill | write_singlefile.go:152 | leading separators give no part |
| Paths.SplitNonEmptyNone | write_singlefile.go:152 | no part at all only for a text of separators alone |
| Paths.SplitNonEmptyPlain | write_singlefile.go:152 | a text without the separator gives itself, or nothing when it is empty |
| Paths.SplitNonEmptyHead | write_singlefile.go:152 | a non-empty split is some separators, the first part, and a rest that is empty or starts with a separator and gives the other parts |
| Records.CollectFieldsBound | log/log.go:86-104 | WithFields never yields more fields than arguments |
| Records.CollectFields | log/log.go:86-104 | the fields WithFields collects: a string with a successor is a key and its value, a Field is taken whole, anything else skips two places, a final lone string is dropped (its properties: the lemmas below) |
| Records.CollectFlatten | log/log.go:86-104 | an argument list of key/value pairs and prebuilt Fields gives those fields in order; a trailing lone key is dropped |
| Records.NonKeySkipsTwo | log/log.go:99-100 | a value that is neither a string nor a Field makes WithFields skip it and the next argument |
| Records.CollectStep | log/log.go:88-101 | one loop step: a string key takes the next value, a Field is appended, anything else skips two |
| Records.LastSep | log/log.go:173 | the index of the last separator ('/' or the OS separator), or -1 when there is none |
| Records.CountSepSplit | log/log.go:173-179 | separator counts add up over a split |
| Records.TrimCaller | log/log.go:173-179 | callerPos keeps a suffix of the file name: all of it without separators, the last element after one separator, the last two elements otherwise |
| Records.TrimCallerCut | log/log.go:173-179 | the cut lies after the second-to-last separator, or after the only one |
| Records.TrimCallerCutTwo | log/log.go:175-178 | when there are two or more separators, exactly one is left after the cut |
| Records.CallerPos | log/log.go:171-182 | the trimmed file name, ":" and the signed decimal line (the trimming: TrimCaller and its lemmas) |
| Records.Log.constructor | log/pool.go:24-26 | a new record is the zero Log |
| Records.Log.WithField | log/log.go:78-84 | appends one field and returns the same record |
| Records.Log.WithFields | log/log.go:86-104 | appends exactly the fields CollectFields reads from the arguments, in order, and returns the same record |
| Records.Log.WithFieldsStep | log/log.go:89-101 | one iteration advances by one or two and keeps fields + rest-to-collect unchanged |
| Records.LogPool.Alloc | log/pool.go:29-31 | a reset record: a fresh one from an empty pool, otherwise the most recently freed |
| Records.LogPool.Free | log/pool.go:33-43 | resets every field except Time (`Truncate(0)` discards its result) and puts the record back |
| Records.BufferPool.Alloc | log/pool.go:14-16 | an empty buffer, fresh or the most recently freed |
| Records.BufferPool.Free | log/pool.go:18-21 | empties the buffer and puts it back |
| TypeEncoding.Buffer.WriteString | log/encoder.go:136 | appends the text |
| TypeEncoding.Buffer.Reset | log/pool.go:19 | empties the buffer |
| TypeEncoding.ConcatAppend | log/encoder_text.go:58-61 | writing a list of pieces distributes over concatenation |
| TypeEncoding.EscapeRune | log/encoder.go:174-178 | '"' becomes backslash-quote; every other character is itself |
| TypeEncoding.EscapedCons | log/encoder.go:174-179 | escaping proceeds character by character |
| TypeEncoding.EscapedLength | log/encoder.go:174-179 | escaping adds exactly one character per '"' |
| TypeEncoding.UnescapeEscaped | log/encoder.go:174-179 | removing the inserted backslashes recovers the string |
| TypeEncoding.QuotesEscaped | log/encoder.go:175-177 | every '"' in the escaped text is preceded by a backslash |
| TypeEncoding.QuoteTextRoundTrip | log/encoder.go:173-180 | the quoted text is the string plus two quotes plus one backslash per '"', starts and ends with '"', and unescapes to the string |
| TypeEncoding.QuoteText | log/encoder.go:173-180 | the quoted string (its properties: QuoteTextRoundTrip, QuotesEscaped, QuoteTextIsNarrow) |
| TypeEncoding.EscapedSingle | log/encoder.go:174-179 | escaping a single character is escaping that rune |
| TypeEncoding.QuoteTextIsNarrow | log/encoder.go:174-179 | only '"' is escaped: a backslash and a newline pass through raw |
| TypeEncoding.BoolText | log/encoder.go:159-165 | "true" exactly for true, else "false" |
| TypeEncoding.TypeEncoder.StringText | log/encoder.go:167-181 | the String hook when set, otherwise the quoted text |
| TypeEncoding.TypeEncoder.TimeAndDurationAreStrings | log/encoder.go:151-157 | a time or a duration is encoded as the string of its formatted text; without a hook it opens with '"' |
| TypeEncoding.TypeEncoder.SliceHasNoSeparator | log/encoder.go:58-129 | a slice is its elements' texts run together with no separator; one element is that element's text; an empty slice writes nothing |
| TypeEncoding.TypeEncoder.EncodeInt | log/encoder.go:135-137 | appends the signed decimal text |
| TypeEncoding.TypeEncoder.EncodeUint | log/encoder.go:139-141 | appends the unsigned decimal text |
| TypeEncoding.TypeEncoder.EncodeBool | log/encoder.go:159-165 | appends "true" or "false" |
| TypeEncoding.TypeEncoder.EncodeString | log/encoder.go:167-181 | appends the hook's text or the quoted text |
| TypeEncoding.TypeEncoder.EncodeFloat | log/encoder.go:143-145 | appends the float's text (FormatFloat 'f', 4) |
| TypeEncoding.TypeEncoder.EncodeComplex | log/encoder.go:147-149 | appends fmt.Sprint of the complex value |
| TypeEncoding.TypeEncoder.EncodeTime | log/encoder.go:151-153 | appends the time formatted with the encoder's layout, as a string |
| TypeEncoding.TypeEncoder.EncodeDuration | log/encoder.go:155-157 | appends the duration's text, as a string |
| TypeEncoding.TypeEncoder.EncodeScalar | log/encoder.go:22-57 | appends the text of any scalar kind |
| TypeEncoding.TypeEncoder.EncodeVal | log/encoder.go:20-133 | appends the value's text: scalars by kind, slices element by element, anything else through Default |
| TypeEncoding.TypeEncoder.ValText | log/encoder.go:20-133 | the text EncodeVal appends for a value, by kind (its properties: EncodeVal, SliceHasNoSeparator, TimeAndDurationAreStrings) |
| TextEncoding.NewTextEncoder | log/encoder_text.go:13-32 | empty layout and separator default to "20060102150405" and "="; strings are written raw; other values through fmt.Sprint |
| TextEncoding.TextMessage | log/encoder_text.go:46-54 | with a format, Sprintf of prefix+format; otherwise the prefix and the space-joined operands without the final newline |
| TextEncoding.TextLineLayout | log/encoder_text.go:39-64 | the line is level, time, pos and msg as key=value separated by spaces, then the fields, then one newline |
| TextEncoding.TextLine | log/encoder_text.go:39-64 | the text line of a record (its properties: TextLineLayout, TextFieldsInOrder, TextLineEndsWithNewline, Encode) |
| TextEncoding.TextFieldsInOrder | log/encoder_text.go:58-61 | adding a field inserts " key=value" before the final newline |
| TextEncoding.TextLineEndsWithNewline | log/encoder_text.go:62 | every text line ends in a newline |
| TextEncoding.EncodeKeyValue | log/encoder_text.go:33-37 | appends key, separator and the value's text |
| TextEncoding.EncodeHead | log/encoder_text.go:40-56 | appends the four fixed pairs of the record |
| TextEncoding.EncodeFields | log/encoder_text.go:58-61 | appends every field in order, each after a space |
| TextEncoding.Encode | log/encoder_text.go:39-64 | appends exactly the record's text line and leaves the record unchanged |
| JsonEncoding.NewJSONEncoder | encoder_json.go:13-29 | empty layout defaults to "20060102150405"; strings are quoted; other values through json.Marshal |
| JsonEncoding.JsonFormat | encoder_json.go:46-49 | the stored format gains the prefix only when both format and prefix are non-empty |
| JsonEncoding.JsonMessageIsTextMessage | encoder_json.go:45-57 | the JSON msg text is the text encoder's msg text |
| JsonEncoding.JsonMessage | encoder_json.go:45-57 | the msg text of the JSON encoder (its property: JsonMessageIsTextMessage) |
| JsonEncoding.JsonLineBraces | encoder_json.go:38-65 | every JSON line opens with '{' and ends with "}\n" |
| JsonEncoding.KeysAreQuoted | encoder_json.go:31-35 | each pair is the quoted key, ':', then the value's text; string values are quoted |
| JsonEncoding.JsonLineLayout | encoder_json.go:37-67 | the line is {"level":…,"time":…,"pos":…,"msg":…} with the quoted values, then the fields, then "}\n" |
| JsonEncoding.JsonLine | encoder_json.go:37-67 | the JSON line of a record (its properties: JsonLineLayout, JsonLineBraces, JsonFieldsInOrder, Encode) |
| JsonEncoding.QuotedKey | encoder_json.go:31-35 | a key without '"' is written verbatim between quotes |
| JsonEncoding.EscapedNoQuote | log/encoder.go:174-179 | escaping leaves a text without '"' unchanged |
| JsonEncoding.JsonFieldsInOrder | encoder_json.go:61-64 | adding a field inserts ",key:value" before the closing "}\n" |
| JsonEncoding.SecondEncodingRepeatsPrefix | encoder_json.go:46-50 | because Encode stores prefix+format into the record, encoding it again formats the prefix twice |
| JsonEncoding.EncodeKeyValue | encoder_json.go:31-35 | appends the quoted key, ':' and the value's text |
| JsonEncoding.ComposeMessage | encoder_json.go:45-57 | computes the msg text and rewrites the record's format as JsonFormat says |
| JsonEncoding.EncodeHead | encoder_json.go:38-59 | appends '{' and the four fixed pairs, updating the format |
| JsonEncoding.EncodeFields | encoder_json.go:61-64 | appends every field in order, each after a comma |
| JsonEncoding.Encode | encoder_json.go:37-67 | appends exactly the JSON line of the record as it was, and updates its format |
| Logging.LineEndsWithNewline | log/logger.go:130 | either encoder produces a line that ends in a newline |
| Logging.EncodeRecord | log/logger.go:130 | the encoder appends its line; only the JSON one rewrites the record's format |
| Logging.WriteCalls | log/logger.go:132-134 | one write call per writer, in writer order, all with the same level and bytes |
| Logging.CloseCalls | log/logger.go:160-162 | one close call per writer, in writer order |
| Logging.FlushSeconds | log/logger.go:57-59 | 0 becomes 30; any other value is kept |
| Logging.Logger.constructor | log/logger.go:56-74 | no writers, no prefix, not closed; a flush channel and an interval of flushSeconds seconds only when level ≤ Fatal |
| Logging.Logger.AddWriter | log/logger.go:84-87 | the writer goes to the end of the list and the same logger is returned |
| Logging.Logger.Prefix | log/logger.go:89-97 | the same logger for the same prefix; otherwise a fresh copy differing only in the prefix |
| Logging.Logger.Copy | log/logger.go:94-96 | the copy has every field of the original except the prefix |
| Logging.Logger.Flush | log/logger.go:147-154 | a no-op when closed or channel-less; otherwise a request is pending, a duplicate request is dropped, and the channel stays open or closed as it was |
| Logging.Logger.MarkClosed | log/logger.go:80-82 | true exactly for the call that sets the closed flag |
| Logging.Logger.Close | log/logger.go:156-164 | only the first call closes the writers, in order, then the channel; no channel or an already closed one panics; a pending flush request is left as it was |
| Logging.Logger.CloseWriters | log/logger.go:160-162 | each writer is closed once, in order |
| Logging.Logger.FanOut | log/logger.go:132-134 | each writer receives the level and the bytes, in registration order |
| Logging.Logger.Render | log/logger.go:129-135 | the bytes are the encoder's line for the record; the buffer goes back to the pool |
| Logging.Logger.Write | log/logger.go:122-145 | a record below the level or sent after Close reaches no writer; otherwise every writer gets the same line in order; the record is always recycled; Panic panics with the line; Fatal closes the writers and exits with -1; the flush channel keeps its pending request, and stays as it was unless a Fatal record closes it. |
| Logging.Logger.Emit | log/logger.go:129-136 | the record's line is written to every writer, and the record returns to the pool |
| Logging.Logger.Finish | log/logger.go:138-144 | Panic panics with the bytes, Fatal closes and exits; other levels return; the flush channel keeps its pending request, and stays as it was unless a Fatal record closes it. |
| Logging.Logger.NewLog | log/logger.go:166-172 | a pooled, reset record carrying the time, the prefix and the logger |
| Logging.Logger.WithField | log/logger.go:174-176 | a new record with the logger's prefix and exactly one field |
| Logging.Logger.WithFields | log/logger.go:178-180 | a new record with the logger's prefix and the fields collected from the arguments |
| Logging.Logger.Depthf | log/logger.go:186-190 | below the logger's level nothing happens at all; otherwise, exactly as Write: after Close no writer is called; else every writer gets the record's line in order, Panic panics with it, Fatal also closes the writers and exits with -1; the flush channel keeps its pending request, and stays as it was unless a Fatal record closes it. |
| Logging.RecordDepthf | log/log.go:110-117 | sets level, position, format and arguments, then exactly Write's outcome for that record: no call when filtered or closed; else the line to every writer, Panic panics, Fatal closes and exits; the record is reset and back in the pool; the flush channel keeps its pending request, and stays as it was unless a Fatal record closes it. |
| Files.FileSystem.MkdirAll | write_singlefile.go:95 | succeeds exactly for directories that can be created |
| Files.FileSystem.Open | write_singlefile.go:61 | O_CREATE|O_APPEND: fails exactly on unopenable names; otherwise the file exists afterwards with its contents unchanged and no other file changes (Opened, OpenedFile) |
| Files.FileSystem.Append | write_singlefile.go:114 | fails exactly on unwritable names, changing nothing; otherwise the file holds its old contents followed by the data (Appended, AppendedFile) |
| Files.FileSystem.Remove | write_singlefile.go:186 | the file is gone and nothing else changes |
| Files.Appended | write_singlefile.go:114 | the named file exists afterwards and holds its old contents followed by the data |
| Files.AppendedFile | write_singlefile.go:114 | appending changes no other file |
| Files.Opened | write_singlefile.go:61 | the named file exists afterwards with its contents unchanged |
| Files.OpenedFile | write_singlefile.go:61 | opening removes no file, changes no contents and leaves every other name alone |
| Files.BufSize | write_singlefile.go:71 | bufio's size: the requested size when positive, a positive default otherwise |
| Files.WriteStep | write_singlefile.go:114 | bufio.Writer.Write: a nil writer panics, a sticky error fails again; the write succeeds exactly when the data fits or the descriptor takes the buffer and the data; the result is kept or written out; a failure sets the sticky error and changes no file |
| Files.WriteStepFile | write_singlefile.go:114 | on success the file followed by the buffer grows by exactly the data; no file is removed and no other file changes |
| Files.FlushStep | write_singlefile.go:136 | bufio.Writer.Flush: a nil writer panics; it succeeds exactly when everything held can be written out, emptying the buffer; otherwise the error sticks and what is held stays |
| Files.FlushStepFile | write_singlefile.go:136 | the file gains exactly what the flush wrote, so the file followed by the buffer is unchanged; no file is removed and no other file changes |
| Files.Reopen | write_singlefile.go:60-76 | the handle after init: open on the new name, empty, error-free, keeping its buffer size (or bufio's for bufsize the first time) when the name opens; otherwise exactly as it was |
| Files.InitStep | write_singlefile.go:60-76 | init succeeds exactly when the new name opens; a failure returns that error and changes nothing; on success the handle is Reopen's and the new file exists |
| Files.InitStepFile | write_singlefile.go:60-76 | the old file gains what its flush wrote; the new file followed by the buffer is what it was followed by what carries over; no file is removed; no other file changes |
| Files.FirstInitKeeps | write_singlefile.go:60-76 | the first init, of a handle never opened, keeps every existing file with its contents |
| Files.CloseStep | write_singlefile.go:77-82 | a never-opened handle is left alone; otherwise the handle is closed and emptied by the flush, or left holding its bytes with the error |
| Files.CloseStepFile | write_singlefile.go:77-82 | the file gains exactly what the flush wrote; no other file changes |
| Files.BufferedFile.constructor | write_singlefile.go:53-58 | the zero handle: no file, nothing pending |
| Files.BufferedFile.WriteOut | write_singlefile.go:114 | the bytes reach the file exactly when it is open and writable |
| Files.BufferedFile.Write | write_singlefile.go:114 | the handle, the files and the status are WriteStep's from the old state |
| Files.BufferedFile.Flush | write_singlefile.go:136 | the handle, the files and the status are FlushStep's from the old state |
| Files.BufferedFile.Init | write_singlefile.go:60-76 | the handle, the files and the status are InitStep's from the old state |
| Files.BufferedFile.Close | write_singlefile.go:77-82 | the handle and the files are CloseStep's from the old state |
| LevelFiles.NewHandles | log/writer_file.go:73 | six distinct fresh handles on the file system, all in the zero state |
| LevelFiles.LevelFileName | log/writer_file.go:126-128 | dir joined with LEVEL.date.log (its properties: LevelFileLevel, Rotation.LevelFileNameBase, Rotation.LevelFileNameRoundTrip) |
| LevelFiles.DayFileName | write_singlefile.go:146-148 | dir joined with date.log (its properties: Rotation.DayFileNameBase, Rotation.DayFileNameRoundTrip) |
| LevelFiles.UnopenedHandles | log/writer_file.go:73 | six zero handles, one per level |
| LevelFiles.LevelFileLevel | writer_multifile.go:88-90 | two levels' file names are equal only for the same level, whatever their dates |
| LevelFiles.LevelNamedDistinct | writer_multifile.go:88-90 | handles each on a file of its own level are on distinct files |
| LevelFiles.LevelNamesApart | writer_multifile.go:57-62 | today's names of the levels are distinct and never another level's file |
| LevelFiles.LevelFileNames | writer_multifile.go:88-90 | today's dir/LEVEL.date.log name for each level, indexed by level |
| LevelFiles.WriteRun | log/writer_file.go:93-95 | the cumulative write stops between its start and its end, and succeeds exactly when it reaches the end |
| LevelFiles.WriteRunStatus | log/writer_file.go:93-95 | on failure the status is the error of the handle where the loop stopped, a panic when its writer is nil |
| LevelFiles.WriteRunHandle | log/writer_file.go:93-95 | each handle that took the bytes was open and changed only its buffer; the one that failed changed at most its error flag; the others are untouched |
| LevelFiles.WriteRunFile | log/writer_file.go:93-95 | no file is removed, and a file no handle that took the bytes is on is left alone |
| LevelFiles.WriteRunGrows | log/writer_file.go:93-95 | on distinct names, each file that took the bytes, followed by its buffer, grows by exactly the bytes |
| LevelFiles.WriteRunGrowsFirst | log/writer_file.go:93-95 | the first handle of a cumulative write that got past it: its file followed by its buffer grows by exactly the bytes |
| LevelFiles.WriteRunFacts | log/writer_file.go:93-95 | all of WriteRunStatus, WriteRunHandle, WriteRunFile and WriteRunGrows for every handle and every name |
| LevelFiles.WriteRunLevelNamed | log/writer_file.go:93-95 | the write keeps every open handle on a file of its own level |
| LevelFiles.LevelFileNamesNamed | writer_multifile.go:88-90 | each of today's names is a file of its own level |
| LevelFiles.Reopened | writer_multifile.go:57-62 | each handle in the range is Reopen's of it on its new name; every other handle is as it was |
| LevelFiles.ReopenedLevelNamed | writer_multifile.go:57-62 | re-opening on today's names keeps every open handle on a file of its own level |
| LevelFiles.ReopenedDistinct | writer_multifile.go:57-62 | new names that keep the handles apart leave them on distinct names |
| LevelFiles.RotatedFile | writer_multifile.go:57-62 | the re-open removes no file; a file no handle in the range was on keeps its contents; one that is also no new name is left alone |
| LevelFiles.RotatedOpens | writer_multifile.go:57-62 | every new name that opened exists afterwards |
| LevelFiles.RotatedCarries | writer_multifile.go:57-62 | apart from the others, a re-opened handle's file followed by its buffer is what it was followed by what the handle carries over |
| LevelFiles.RotatedFlushesOld | writer_multifile.go:57-62 | apart from the others, a handle's old file gains what its flush wrote when the new name opened, and nothing otherwise |
| LevelFiles.RotatedFacts | writer_multifile.go:57-62 | the re-open as a whole: RotatedFile, RotatedOpens, ReopenedDistinct, RotatedCarries and RotatedFlushesOld for every handle and name |
| LevelFiles.FirstRotationKeeps | writer_multifile.go:34 | the first re-open, from zero handles, keeps every existing file and its contents |
| LevelFiles.WriteLevels | log/writer_file.go:93-95 | the handles, the files, the status and where the loop stopped are WriteRun's from the old state |
| LevelFiles.RotateLevels | writer_multifile.go:57-62 | the handles are Reopened and the files Rotated from the old state; `failed` holds exactly when some new name in the range cannot be opened |
| LevelFiles.FlushLevels | log/writer_file.go:111-115 | the handles, the files, the status and where a never-opened handle made it panic are FlushRun's from the old state |
| LevelFiles.FlushRun | log/writer_file.go:111-115 | the flushes stop between their start and their end, succeed exactly when they reach it, and otherwise panic |
| LevelFiles.FlushRunStatus | log/writer_file.go:111-115 | they complete exactly when every handle in the range was opened; a panic is at a handle never opened |
| LevelFiles.FlushRunHandle | log/writer_file.go:111-115 | each flushed handle is emptied, or keeps its bytes with the error; no other handle changes |
| LevelFiles.FlushRunFile | log/writer_file.go:111-115 | a file no flushed handle is on is left alone |
| LevelFiles.FlushRunDrains | log/writer_file.go:111-115 | on distinct names, each flushed file gains exactly what its flush wrote |
| LevelFiles.FlushRunFacts | log/writer_file.go:111-115 | all of FlushRunStatus, FlushRunHandle, FlushRunFile and FlushRunDrains for every handle and name |
| LevelFiles.FlushRunLevelNamed | log/writer_file.go:111-115 | the flushes keep every open handle on a file of its own level |
| LevelFiles.CloseLevels | log/writer_file.go:117-124 | the handles and the files are CloseRun's from the old state |
| LevelFiles.CloseRun | log/writer_file.go:117-124 | the closes always run to the end without an error |
| LevelFiles.CloseRunHandle | log/writer_file.go:117-124 | each opened handle in the range is flushed and closed; any other handle is untouched |
| LevelFiles.CloseRunFile | log/writer_file.go:117-124 | a file no handle in the range is on is left alone |
| LevelFiles.CloseRunDrains | log/writer_file.go:117-124 | on distinct names, each opened handle's file gains exactly what its flush wrote |
| LevelFiles.CloseRunFacts | log/writer_file.go:117-124 | all of CloseRunHandle, CloseRunFile and CloseRunDrains for every handle and name |
| LevelFiles.CloseRunLevelNamed | log/writer_file.go:117-124 | the closes keep every open handle on a file of its own level |
| LogWriters.FileWriter.constructor | log/writer_file.go:68-76 | day -1 and six fresh zero handles |
| LogWriters.FileWriter.CheckDaily | log/writer_file.go:100-109 | on a new day of the month the day is stored, the handles from the writer's level are Reopened on today's names and the files Rotated, failures ignored; on the same day nothing changes |
| LogWriters.FileWriter.Write | log/writer_file.go:84-98 | after checkDaily, the handles, files, status and stop are WriteRun's from the writer's level (the record's with singleOutput) to the record's; a failure returns that handle's error; on the same day each file that took the bytes, plus its buffer, grows by exactly them and no other file changes |
| LogWriters.FileWriter.WriteLevelsFrom | log/writer_file.go:89-95 | the loop of Write: WriteRun's handles, files, status and stop; each file that took the bytes grows with them; no other file changes; the day is kept |
| LogWriters.FileWriter.Flush | log/writer_file.go:111-115 | the result of FlushRun from the writer's level: it completes exactly when every handle was opened; each flushed file gains exactly what its flush wrote; every other file is left alone |
| LogWriters.FileWriter.Close | log/writer_file.go:117-124 | the result of CloseRun from the writer's level: each opened file gains exactly what its flush wrote; every other file is left alone |
| LogWriters.NewFileWriter | log/writer_file.go:62-80 | fails exactly when the directory cannot be created, changing nothing; otherwise the handles are Reopened from zero on today's names and the files Rotated, so every existing file is kept with its contents |
| LogWriters.Multifile | log/writer_multifile.go:20-36 | like NewFileWriter without singleOutput |
| LogWriters.SingleWriter.constructor | log/write_singlefile.go:64-69 | day -1 and a fresh zero handle |
| LogWriters.SingleWriter.CheckDaily | log/write_singlefile.go:84-90 | on a new day of the month the day is stored and the handle and the files are InitStep's on dir/date.log; on the same day nothing changes |
| LogWriters.SingleWriter.Write | log/write_singlefile.go:75-82 | after checkDaily, the handle, files and status are WriteStep's whatever the level; on the same day a successful write grows the file plus its buffer by exactly the bytes and no other file changes |
| LogWriters.SingleWriter.Flush | log/write_singlefile.go:92-97 | FlushStep's handle and files; panics exactly when the file was never opened; the file gains exactly what the flush wrote and no other file changes |
| LogWriters.SingleWriter.Close | log/write_singlefile.go:99-104 | CloseStep's handle and files; the file gains exactly what the flush wrote and no other file changes |
| LogWriters.Singlefile | log/write_singlefile.go:58-73 | fails exactly when the directory cannot be created, changing nothing; otherwise the handle and the files are InitStep's from zero on today's name, so every existing file is kept with its contents |
| Rotation.NewDefaultFileLogOptions | write_singlefile.go:41-51 | the options merged in order onto 14 days, "logs" and 40960; the result always has a directory, a positive buffer size and a non-zero expiry |
| Rotation.MergeAllKeepsSet | write_singlefile.go:29-39 | merging never unsets a set option |
| Rotation.MergedLogDir | write_singlefile.go:33-35 | the directory of the last option that sets one wins |
| Rotation.MergedBufsize | write_singlefile.go:36-38 | the buffer size of the last option with a positive one wins |
| Rotation.MergedExpireDays | write_singlefile.go:30-32 | the expiry of the last option with a non-zero one wins |
| Rotation.Merge | write_singlefile.go:29-39 | a set field of the option overrides (non-zero expiry, non-empty directory, positive buffer size); its properties: MergedLogDir, MergedBufsize, MergedExpireDays |
| Rotation.MergeAll | write_singlefile.go:47-49 | the options merged in order onto the start (its properties: MergeAllKeepsSet, FullOptionOverrides) |
| Rotation.FullOptionOverrides | write_singlefile.go:47-49 | an option that sets all three fields erases everything merged before it |
| Rotation.ParseLevelFileDate | writer_multifile.go:92-99 | an accepted name yields a non-empty, dot-free date |
| Rotation.ParseDayFileDate | write_singlefile.go:150-157 | a returned date is non-empty and dot-free (ParseDayFileDateShape says exactly which names give which date) |
| Rotation.ParseDayFileDateShape | write_singlefile.go:150-157 | the single-file parser gives a date exactly when the base name is some dots, the date (non-empty, dot-free), at least one dot, "log" and some dots |
| Rotation.DayPartsShape | write_singlefile.go:152-153 | two non-empty parts with "log" second come from such a name |
| Rotation.ShapeDayParts | write_singlefile.go:152-153 | such a name splits into the date and "log" |
| Rotation.SplitLevelFileBase | writer_multifile.go:94 | LEVEL.date.log splits into its three parts |
| Rotation.SplitDayFileBase | write_singlefile.go:152 | date.log splits into its two parts |
| Rotation.ParsedLevelFileShape | writer_multifile.go:92-99 | an accepted name has the base prefix.date.log with a non-empty, dot-free prefix |
| Rotation.ParseLevelFileDateShape | writer_multifile.go:92-99 | the per-level parser accepts a name with a given date exactly when its base is prefix.date.log with non-empty, dot-free parts |
| Rotation.NameIsPlain | log/log.go:27-44 | level names are non-empty and contain neither '.' nor '/' |
| Rotation.LevelFileNameBase | writer_multifile.go:88-90 | the base of a level file's path is LEVEL.date.log |
| Rotation.DayFileNameBase | write_singlefile.go:146-148 | the base of a day file's path is date.log |
| Rotation.LevelFileNameRoundTrip | writer_multifile.go:88-99 | parsing a level file's name gives back its date |
| Rotation.ParseLevelFileBase | writer_multifile.go:88-99 | any path whose last element is PREFIX.date.log, with dot-free prefix and date, parses to that date |
| Rotation.DayFileNameRoundTrip | write_singlefile.go:146-157 | parsing a day file's name gives back its date |
| Rotation.LevelFileNotDayFile | write_singlefile.go:150-157 | the per-day parser rejects the per-level writers' files |
| Rotation.DayFileNotLevelFile | writer_multifile.go:92-99 | the per-level parser rejects the per-day writers' files |
| Rotation.DatedEntry | write_singlefile.go:178-184 | a single entry yields at most one dated file |
| Rotation.Dated | write_singlefile.go:177-184 | at most one dated file per entry |
| Rotation.DatedMembers | write_singlefile.go:177-184 | a file is dated exactly when a listed non-directory of that name parses to that date |
| Rotation.ExpiredPathsOne | write_singlefile.go:185-187 | one file is expired exactly when its date sorts before the cutoff |
| Rotation.ExpiredPathsAppend | write_singlefile.go:177-188 | expiry distributes over the listing |
| Rotation.Removed | write_singlefile.go:163-189 | nothing when retention is off, the listing failed or the file date does not parse; otherwise the joined names of listed non-directories whose date sorts before the cutoff (its properties: CleanLogFiles, DatedMembers, ExpiredPathsOne, TodaysFilesKept) |
| Rotation.CleanLogFiles | write_singlefile.go:163-189 | removes exactly the expired dated files, and nothing when retention is off, the listing failed or the date does not parse |
| Rotation.RemoveIfExpired | write_singlefile.go:178-187 | one entry: directories and undated names are skipped, an expired file is removed |
| Rotation.ExpiresIffOlder | write_singlefile.go:185 | for the writers' own stamps, the string comparison against the cutoff is calendar order |
| Rotation.TodaysFilesKept | write_singlefile.go:163-189 | with retention on, the files opened today parse as dated today and are never removed |
| RotatingWriters.MultiFileWriter.constructor | writer_multifile.go:28-33 | day -1, no file date, six fresh zero handles |
| RotatingWriters.MultiFileWriter.CheckDaily | writer_multifile.go:50-68 | on a new day of the month: handles Reopened and files Rotated on today's names, the file date moved to today only if every name opened, then exactly the expired per-level files (Removed from that file date) gone; on the same day nothing changes |
| RotatingWriters.MultiFileWriter.Rotate | writer_multifile.go:53-65 | the re-open loop of checkDaily: handles Reopened, files Rotated, and the file date moved to the given date exactly when every name opened |
| RotatingWriters.MultiFileWriter.Clean | writer_multifile.go:66 | cleanLogFiles from the file date: exactly the Removed files go; handles, day and file date are kept |
| RotatingWriters.MultiFileWriter.Write | writer_multifile.go:39-48 | after checkDaily, the handles, files, status and stop are WriteRun's from the writer's level to the record's; the file date is as checkDaily leaves it; a failure returns that handle's error; on the same day each file that took the bytes grows with them and no other file changes |
| RotatingWriters.MultiFileWriter.WriteLevelsFrom | writer_multifile.go:44-46 | the loop of Write: WriteRun's handles, files, status and stop; each file that took the bytes grows with them; no other file changes; day and file date are kept |
| RotatingWriters.MultiFileWriter.Flush | writer_multifile.go:70-77 | the result of FlushRun from the writer's level: it completes exactly when every handle was opened; each flushed file gains exactly what its flush wrote; every other file is left alone |
| RotatingWriters.MultiFileWriter.Close | writer_multifile.go:79-86 | the result of CloseRun from the writer's level: each opened file gains exactly what its flush wrote; every other file is left alone |
| RotatingWriters.MultiFile | writer_multifile.go:21-37 | merged options; fails exactly when the directory cannot be created, changing nothing; otherwise the first checkDaily from zero handles, so every existing file not removed as expired keeps its contents |
| RotatingWriters.SingleFileWriter.constructor | write_singlefile.go:100-103 | day -1, no file date, a fresh zero handle |
| RotatingWriters.SingleFileWriter.CheckDaily | write_singlefile.go:118-130 | on a new calendar date: the handle and the files are InitStep's on dir/date.log, the file date moves to today only if it opened, then exactly the expired per-day files (Removed from that file date) are gone; on the same date nothing changes |
| RotatingWriters.SingleFileWriter.Write | write_singlefile.go:109-116 | after checkDaily, the handle, files and status are WriteStep's; on the same date a successful write grows the file plus its buffer by exactly the bytes and no other file changes |
| RotatingWriters.SingleFileWriter.Flush | write_singlefile.go:132-137 | FlushStep's handle and files; panics exactly when the file was never opened; the file gains exactly what the flush wrote and no other file changes |
| RotatingWriters.SingleFileWriter.Close | write_singlefile.go:139-144 | CloseStep's handle and files; the file gains exactly what the flush wrote and no other file changes |
| RotatingWriters.SingleFile | write_singlefile.go:93-107 | merged options; fails exactly when the directory cannot be created, changing nothing; otherwise the first checkDaily from a zero handle: InitStep on today's name, the file date today exactly when it opened, expired files removed, every other existing file kept |
| RotatingWriters.SingleFileRotatesOnNewDate | write_singlefile.go:159-161 | the single-file writer's day key changes exactly when the calendar date changes |

## Left out

- Concurrency is not modelled: the logger's flush goroutine and ticker (log/logger.go:103-120), the writers' mutexes and the atomic closed flag. Each method is one atomic step, and a flush request is a one-slot flag that the goroutine would drain.
- The level shorthands `Debug`…`Fatalf` and `Depth` of `Log` (log/log.go:106-165) and of `logger`, and the package-level `DefaultLogger` functions (log/logger.go:182-305), are not separate members. Each calls `Depthf` with a fixed level and adds nothing else; they are covered by `Logging.Logger.Depthf` and `Logging.RecordDepthf`.
- `Logger.Level` is a field read and is not a separate member.
- The `backlog` argument of `New` is defaulted to 100 and then unused, so the model omits it.
- `fmt.Sprint`, `fmt.Sprintf`, `strconv.FormatFloat`, `time.Time.Format`, `time.Duration.String` and `json.Marshal` are taken as given functions of a `Runtime` value, and their output is not modelled.
- Floating point is not modelled: floats are their bit patterns.
- `runtime.Caller` is not modelled; the caller's file and line are inputs.
- The clock is an input.
- `ioutil.ReadDir` is an input: `None` when the directory cannot be read.
- File permissions are not modelled.
- `bufio.Writer` is modelled by the bytes it holds and a sticky error, with one write-through when a write does not fit. bufio's exact chunking of large writes (partial fills before a write-out) is not modelled; a write that fails leaves the buffer as it was.
- Reading files is not modelled.
- A file is identified by its name. When a file is removed while a handle is open on it, the model's next write through that handle re-creates the name; the real descriptor would write to the unlinked file. The files opened today are never removed (Rotation.TodaysFilesKept).
- The root package's `buffedFile` (write_singlefile.go:53-82) and the `log` package's `logBuffer` and `buffedFile` (log/writer_file.go:17-49, log/write_singlefile.go:16-46) are the same code and share the one `Files.BufferedFile` class.
- Levels.ToUpper: upper-cases ASCII letters and the two non-ASCII letters whose upper case is ASCII (dotless i and long s); every other character is kept. Full Unicode case mapping cannot change whether a text equals a level name, so it is not modelled.
- Levels.TrimSpace: removes the characters for which `unicode.IsSpace` is true.
- Paths.Join: models `filepath.Join` for a clean directory (including `.` and `/`) and a name without separators that is not `.` or `..`; `filepath.Clean` of `..`, inner `.` elements and repeated separators elsewhere is not modelled.
- Paths.Base: takes '/' as the only separator, as on Unix.
- The `Bytes` hook that encoder_json.go:24-26 sets belongs to the root package's `TypeEncoder`, which is not part of this model. The JSON encoder is built on the `log` package's `TypeEncoder` (log/encoder.go:14-18), which has no such hook. A `[]byte` value takes the `[]uint8` case: each byte is written as its decimal text with no separator (log/encoder.go:78-81). The root package's hook would write the raw bytes.
- The root package's `Level`, `Log`, `Logger`, `Writer` and `TypeEncoder` are not part of this model; they are taken to be those of the `log` package.
- The console writers (log/writer_console.go, writer_console.go) are not part of this model.
- LogWriters.FileWriter.Write: requires the record's level to be at most Fatal, so the model leaves out what the loop at log/writer_file.go:89-95 does for a higher level. With `singleOutput` the loop starts at the record's level and indexes the six-element file array out of range at once, which panics. Otherwise it starts at the writer's level. If that level is above the record's level, the loop does not run and Write returns nil. If a write to a lower file fails, the loop stops before index 6. Otherwise every file from the writer's level to Fatal receives the bytes, and only then does `files[6]` panic.
- RotatingWriters.MultiFileWriter.Write: requires the record's level to be at most Fatal, so the model leaves out what the loop at log/writer_multifile.go:44-45 and writer_multifile.go:44-45 does for a higher level. The loop starts at the writer's level. If that level is above the record's level, the loop does not run and Write returns nil. If a write to a lower file fails, the loop stops before index 6. Otherwise every file from the writer's level to Fatal receives the bytes, and only then does `files[6]` panic.
- Records.LogPool.Free: requires the record not already be in the pool. `sync.Pool` would accept a double Put; the model keeps the free list duplicate-free.
- Records.BufferPool.Free: requires the buffer not already be in the pool, for the same reason.
- Records.LogPool.Alloc: models `sync.Pool` as a last-in-first-out free list. The real pool may drop objects or hand them out in any order.
- Records.BufferPool.Alloc: models `sync.Pool` in the same way.
- Dates.SubtractDays: steps back whole calendar days. Time zones, daylight saving and the overflow of `time.Duration` for very large `ExpireDays` are not modelled.
- Logging.RecordDepthf: requires the record to belong to a logger. A `Log` made outside a logger has a nil `logger`, and `Depthf` on it panics with a nil dereference; the model leaves that case out.
- Logging.Logger.constructor: the flush interval is `flushSeconds` seconds as an unbounded integer. The wrap-around of the int64 `time.Duration` product for a huge `flushSeconds` is not modelled.
- TypeEncoding.TypeEncoder.EncodeString: strings are sequences of characters, so invalid UTF-8, which `range` over a Go string decodes to U+FFFD and `WriteRune` writes as such, cannot occur in the model.
- Logging.Logger.Write: for a Fatal record, `os.Exit(-1)` is modelled as the `Exited(-1)` outcome. The process ending is not modelled.
