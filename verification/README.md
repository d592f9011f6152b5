# Verification of the HTTP parser, the URL parser and the checksum

This Dafny project models three pieces of C code and proves what they promise:

1. the incremental HTTP parser, `http_parser_execute` with `http_parser_init` and
   `http_parser_pause`: a state machine of about sixty states that is fed buffers cut
   anywhere, keeps marks into them, skips over bodies in bulk, looks at some bytes more than
   once and calls an application back that may fail or pause it;
2. the URL parser, `http_parser_parse_url` with `http_parse_host`;
3. the table-driven CRC-32 of `src/crc32.h`.

`dafny verify dfyconfig.toml` checks everything.

## How the model is built

The parser is modelled in strict mode, which is the default
(`http-parser-master/http_parser.h:51-53`). `Arms` gives what the matching arm of the `switch`
does with one byte, as a function of the fields. `HttpParser` is the class: the fields of
`struct http_parser`, the loop over an array with `p` and the marks, `reexecute_byte`, the
callback macros and the call at the end of the stream. It is proved equal to the function
`Execute.Exec`, and what is proved about whole runs is proved about that function.

The application is a function from the callbacks made so far to a return value and a wish to
pause; nothing else is known about it. Where a lemma needs one that returns no errors, it says so
(`Bridge.Agrees`). `trace` lists the callbacks; the one at the end of the headers carries what the
application reads in the parser there: version, status code, method and upgrade. So it may decide
by these to skip a body, and whatever is said about a record says it about them.
`Reference.Joined` joins adjacent pieces of the same kind of data, since an application may get
any string in any number of pieces (`http-parser-master/README.md:140-142`).

`Reference.Feed` is the reference: a fold of one byte at a time without buffers, marks, bulk
skips or pauses. `Bridge` and `Refinement` prove that the parser refines it; `Cutting`, `Pausing`,
`PauseLimit` and `Resuming` say what the cutting into calls and the pauses can still change, and
`Failing` what an error from a callback does. Everything about
particular stretches of a message (`Methods`, `Numbers`, `RequestLine`, `ResponseLine`,
`HeaderMatch`, `HeaderNames`, `Headers`, `LineEnds`, `Bodies`) and about whole messages
(`RoundTrip`, `Connection`, `Truncation`, `EitherKind`, `Limits`) is proved on the reference and
carried to sequences of calls with `Refinement.CallsIs`. First lines, header lines and empty lines
may end in CR LF or in LF alone.

`Messages` says what a message is: its text, what its delivery looks like, and whether it keeps the
connection open. `CharSets` writes out the character classes. Neither looks at the parser, and what
is proved about the parser is stated with them.

For URLs, `UrlText` and `HostText` say by the text alone which URLs and which server parts there
are, and which piece each byte is in, and prove that the two automata find just these. `UrlFields`
says which field each byte belongs to, by the automata; `UrlSpans` ties that to offsets and
lengths; `UrlGrammar` brings both together; `UrlParser` is the class with the two loops; and
`UrlPartition` states more of what a caller gets. For the checksum, the reference in `Crc` is division
by the reflected polynomial one message bit at a time (section 8 of RFC 1952).

## What the code does that one might not expect

The model follows the code, and these facts show in the statements:

- A parse error returns without the last data callback, so what a call has read of a run that an
  error ends is not delivered (`http-parser-master/http_parser.c:1914-1919`). All cuttings of the
  input deliver the same record if and only if there is no parse error, or it is at the first
  byte, or the bytes before it do not end in the middle of a run: of a URL, a reason, a header
  name or value, or between the data of a chunk and its CR (`Cutting.CuttingMatters`). A single
  cutting delivers everything also when it cuts just before the byte of the error
  (`Cutting.CallsRecord`), and so it is with pauses (`Resuming.PauseMatters`).
  `Cutting.ErrorLosesRun` is a request line with a tab in its path.
- Trailers stay counted in `nread` when their message is complete, because only the end of the
  headers, a chunk size and the end of a chunk set the count back. A pipelined request can
  therefore be refused although its own head is short: `Limits.TrailersTakeRoom` gives two
  requests, and `Limits.PrintParseExactly` says exactly which ones are taken.
- A byte that a pause leaves unread counts again in `nread` when it is fed again. With pauses the
  count is ahead by just the header bytes left unread since it was last set back
  (`Pausing.DriveIs`). So a pause can make the parser meet the limit: `Limits.PauseTakesRoom` is a
  head that is refused only when it is paused. `PauseLimit.FeedPaused` is the reference that counts
  a byte once more after each callback made before the byte is read. Pauses change nothing but the
  count, for every application and every cutting, if and only if that reference does not meet the
  limit (`PauseLimit.PauseTransparency`, `PauseLimit.PausesAndCuts`, `Limits.PrintParsePaused`). No
  byte counts more than three times, so it does not where `nread` and three times the bytes are
  within the limit (`PauseLimit.ThreeTimesFit`).
- After the end of the stream `s_body_identity_eof` is not left, so a second call without data
  completes the message again, and one with data delivers more body. The callbacks keep to their
  order if and only if no such call is made (`Grammar.CallbackOrder`); `EndOfStream.SecondEof` is
  a session in which the second call without data breaks it.
- `s_start_res` calls `message_begin` for each CR or LF before a response, so the order proved
  for responses lets it repeat, and `Messages.LineEvents` has it for each byte of `lead`.
- Only if both numbers of the version are above 0 does the connection stay open unasked: after
  HTTP/2.0 keep-alive has to be asked for, and so it has after a request without a version, which
  is one of HTTP/0.9 (`Messages.Persistent`). The major number of a request may not begin with 0, that of a response
  may (`Numbers.MayBegin`).
- A header value that is folded over lines says neither close, keep-alive nor chunked, a folded
  Content-Length is refused, and a folded Upgrade counts (`Headers.Says`, `Headers.LengthOk`).
- A header line without a colon is taken, and its name delivered alone (`HeaderNames.NoColon`): the
  next callback is that of the next name.
- When an upgrade is asked for, it makes no difference that `on_headers_complete` returns 1
  (`RoundTrip.HandedOver`).
- `http_parser_parse_url` takes an empty URL, unless it is that of a CONNECT. Number signs at the
  beginning of a fragment do not belong to it, and a fragment cannot follow the server part at once.
  The URL automaton refuses two at-signs only if they stand side by side (`UrlText.Proper`,
  `UrlGrammar.Takes`).
- Trailers go through the same code as headers, so a trailer can still set the flags.
- `unhex` has 128 initialisers; bytes from 128 up read as the digit 0 in a chunk size, and
  `Lengths.SizeText` says so.
- `http_parser_parse_url` does not clear `field_data`, so the class asks for a cleared result, as
  `http-parser-master/test.c:2769` gives it, and it reads the port with `strtoul`, so the byte
  after the URL must not be a digit.

## Model

| member | source | states |
|---|---|---|
| HttpParser.HttpParser.constructor | http-parser-master/http_parser.c:1973-1982 | a fresh parser has its type, the start state of that type and all else zero, no callbacks, and satisfies the object invariant |
| HttpParser.HttpParser.Execute | http-parser-master/http_parser.c:576-1920 | the loop with marks leaves the fields, the callbacks and the returned count that the function of the call says, and keeps the invariant; before the last callbacks at most one mark is set |
| HttpParser.HttpParser.CountByte | http-parser-master/http_parser.c:643-660 | counts a header byte in 32 bits and sets HPE_HEADER_OVERFLOW just when the count exceeds the limit |
| HttpParser.HttpParser.ExecuteByte | http-parser-master/http_parser.c:662-1887 | the re-examinations of one byte end, and either leave the call with its outcome or go on at a later byte with marks that fit the state |
| HttpParser.HttpParser.ExecuteArm | http-parser-master/http_parser.c:662-1887 | one pass through the switch with its mark and callback: new fields, callbacks, marks, place and verdict, all of them |
| HttpParser.HttpParser.CallBack | http-parser-master/http_parser.c:60-103 | one callback is recorded, and its answer sets errno, pauses, or sets F_SKIPBODY after the headers |
| HttpParser.HttpParser.MakeCall | http-parser-master/http_parser.c:60-110 | a data callback is made only when its mark is set, with the bytes from the mark on |
| HttpParser.HttpParser.FlushMarks | http-parser-master/http_parser.c:1890-1912 | after the last byte the marked runs are delivered in the order of the source, until one fails |
| HttpParser.HttpParser.ExecuteEof | http-parser-master/http_parser.c:595-614 | the call without data: completes, does nothing, or sets HPE_INVALID_EOF_STATE, by state |
| HttpParser.HttpParser.SetPaused | http-parser-master/http_parser.c:2233-2245 | pauses and unpauses unless an error is set, and changes nothing else |
| Arms.Arm | http-parser-master/http_parser.c:662-1887 | every arm takes between one byte and what is left, never raises nread, leaves errno alone, and a byte looked at again is looked at in a state of lower rank: why the loop ends |
| Invariant.InitRests | http-parser-master/http_parser.c:1973-1982 | the initial parser of each type satisfies the invariant |
| Invariant.MethodGoesOn | http-parser-master/http_parser.c:949-1029 | a method name that goes on is not at its end, nor is one switched to in mid-word, so the index stays in bounds |
| Invariant.MatchFieldGood | http-parser-master/http_parser.c:1277-1383 | the header-name matcher never meets a header state it has no case for, and its index stays inside its keyword |
| Invariant.MatchValueGood | http-parser-master/http_parser.c:1491-1567 | the same for the header-value matcher, which never sees a state of the name matcher |
| Invariant.ChunkGood | http-parser-master/http_parser.c:1765-1881 | in chunk states F_CHUNKED is set, nread is 1 at a chunk start, the content length is neither 0 nor the sentinel in chunk data, and 0 after it |
| Invariant.ArmGood | http-parser-master/http_parser.c:662-1887 | every arm keeps the representation invariant, and none of the asserts can fail |
| Invariant.AfterCallGood | http-parser-master/http_parser.c:60-117 | no answer of the application spoils the invariant |
| Marking.MarksKept | http-parser-master/http_parser.c:111-117 | the state determines which mark is set, before and after every arm |
| Marking.OneMark | http-parser-master/http_parser.c:1890-1904 | at most one mark is left at the end of a buffer |
| Marking.PassGood | http-parser-master/http_parser.c:662-1887 | one pass with its callback, whatever the answer, keeps invariant and marks, and stops without an error only for an upgrade |
| Consumption.ExecEnds | http-parser-master/http_parser.c:590-663 | a call with data never reads more than it is given, reads less without an error only when it leaves for an upgrade, keeps nread at most one above the limit, and no assert fails |
| Consumption.ExecKeepsInv | http-parser-master/http_parser.c:576-1920 | every call keeps the object invariant, for every application |
| Bridge.PassFeeds | http-parser-master/http_parser.c:617-640 | a turn of the loop, with bulk skips and marks, is what the one-byte reference makes of the same bytes |
| Refinement.ExecFeeds | http-parser-master/http_parser.c:617-1920 | a whole call leaves the reference just the bytes it did not read, also when it is paused |
| Refinement.CallsIs | http-parser-master/http_parser.c:617-1920 | any sequence of calls is what the reference makes of the joined bytes: fields, count, end and joined callbacks |
| Refinement.SplitInvariance | http-parser-master/test.c:3100-3104 | however input is cut into calls, the fields, the count, the end and, without a parse error, the joined callbacks are the same; with one, the callbacks are the same up to one run, and the Cutting rows say exactly when they are the same |
| Cutting.FeedTakes | http-parser-master/http_parser.c:617-663 | a run takes all its bytes, or just those before the one it fails at |
| Cutting.LoopFails | http-parser-master/http_parser.c:1914-1919 | when a call ends in a parse error, bytes are marked and not delivered if and only if the error is not at its first byte and the state before it is in the middle of a run |
| Cutting.OneRecord | http-parser-master/http_parser.c:1914-1919 | one call delivers all that the reference does if and only if no error comes, after its first byte, in the middle of a run |
| Cutting.CallsRecord | http-parser-master/http_parser.c:1914-1919 | the same for every cutting: it delivers all if and only if there is no such error, or one of the cuts is just before the byte of the error |
| Cutting.CuttingMatters | http-parser-master/test.c:3100-3104 | all cuttings of the data deliver the same joined callbacks if and only if no parse error comes, after the first byte, in the middle of a run |
| Cutting.ErrorLosesRun | http-parser-master/http_parser.c:1914-1919 | on a fresh parser, a tab in the path of a request: two calls deliver the path before it, one call does not |
| Pausing.ArmLooks | http-parser-master/http_parser.c:662-1887 | every arm that looks at its byte again after a callback uses up one of at most two looks, and keeps the count: why going on after pauses ends |
| Pausing.ExecCounts | http-parser-master/http_parser.c:643-663 | a call that is paused has read a byte or used up a look, and counts at most one byte more than it reads |
| Pausing.FeedAhead | http-parser-master/http_parser.c:643-660 | a higher count changes nothing but the count, which stays ahead by as much until it is set back, as long as the limit is not met |
| Pausing.DriveIs | http-parser-master/http_parser.c:643-660 | an application that goes on after every pause gets what the reference says, and its count is ahead by just the header bytes left unread since the count was last set back, unless it meets the limit |
| Pausing.PauseAgrees | http-parser-master/test.c:3252-3254 | unless the run with pauses meets the limit, it has the same fields, bytes read, end and joined callbacks as the run without, up to the run a parse error ends, and the count that the count law says |
| PauseLimit.FeedBelow | http-parser-master/http_parser.c:643-660 | where the reference that counts again does not meet the limit from a higher count, it does not from a lower one, and only the count is lower |
| PauseLimit.PassPaused | http-parser-master/http_parser.c:617-663 | a turn of the loop, in the reference that counts again: the byte is counted once more just when a callback was made before it is looked at again |
| PauseLimit.DriveAllPaused | http-parser-master/http_parser.c:643-660 | going on after every pause, over calls cut anywhere, ends as that reference says with a count that is not higher, unless it meets the limit; an application that pauses at every callback ends just as it says |
| PauseLimit.NoPauseMeetsLimit | http-parser-master/http_parser.c:643-660 | no application meets the limit, wherever it pauses, if and only if counting each byte once more after each callback made before it is read does not |
| PauseLimit.PauseTransparency | http-parser-master/test.c:3252-3254 | all applications, wherever they pause, get the same fields, bytes read, end and joined callbacks as one that never pauses, up to the run a parse error ends, and the count that the count law says, and that one does not meet the limit, if and only if the reference that counts again does not meet it |
| PauseLimit.PausesAndCuts | http-parser-master/test.c:3252-3254 | the same over calls cut anywhere: neither cutting nor pausing makes a difference, but for a count that is not lower, if and only if the same condition holds |
| PauseLimit.ThreeTimesFit | http-parser-master/http_parser.c:643-660 | a corollary for small inputs: where the count and three times the bytes are within the limit, so is the reference that counts again |
| Resuming.SameState | http-parser-master/http_parser.c:617-640 | what a paused call has left is read in the states in which all of the data would be read: a call does not depend on what comes after the byte it is paused at |
| Resuming.DriveRecord | http-parser-master/http_parser.c:1914-1919 | a run with pauses delivers all that the reference does if and only if no error comes in the middle of a run, or the application has gone on just before the byte of the error |
| Resuming.PauseMatters | http-parser-master/http_parser.c:1914-1919 | where no pause can meet the limit: the record without pauses is complete if and only if no error comes in the middle of a run, and the one with pauses also if the application has gone on just before its byte |
| Failing.CallsFollow | http-parser-master/http_parser.c:60-103 | an application that answers as another one does until it reports an error gets the same, or stops at its first error with the errno of that callback and a beginning of the other's callbacks |
| Failing.FailureStops | http-parser-master/http_parser.c:60-117 | over calls cut anywhere, an error from a callback ends them with the errno that `Blames` lists for it, one for each callback, and the joined callbacks till then are a beginning of what the reference makes of the input without the error; if none is reported all is as the reference says |
| Grammar.ArmFollows | http-parser-master/http_parser.c:662-1887 | every arm's callback is allowed where the callbacks so far have got to in the order |
| Grammar.CallbackOrder | http-parser-master/http_parser.c:595-1881 | over every sequence of calls, with data or without, and of pauses, whatever the callbacks answer: the callbacks are a beginning of the order of requests or of responses if and only if no call is made, without an error set, after a call without data has completed a message in s_body_identity_eof |
| Grammar.AfterEof | http-parser-master/http_parser.c:595-602 | once that has happened every further call breaks that order |
| EndOfStream.SecondEof | http-parser-master/http_parser.c:595-602 | a session from a fresh parser: a response without headers, and two calls without data; the first delivers the message in order, the second breaks the order |
| Closing.PassCompletes | http-parser-master/http_parser.c:390-402 | after message_complete the parser is dead if http_should_keep_alive is false |
| Closing.DeadExec | http-parser-master/http_parser.c:665-673 | a dead parser makes no callback, takes CR and LF up to the header limit, and refuses the first other byte with HPE_CLOSED_CONNECTION unless the limit comes first: errno and count, exactly |
| Closing.ErrorExec | http-parser-master/http_parser.c:590-593 | once errno is set a call returns 0 and changes nothing |
| Closing.ErrorStays | http-parser-master/http_parser.c:2233-2245 | once an error is set, no sequence of calls and pauses changes anything |
| Closing.PauseBetween | http-parser-master/http_parser.c:2233-2245 | a pause between calls, with any calls during it, leaves the parser and the callbacks as they were once it is over |
| Closing.NothingAfterClose | http-parser-master/http_parser.c:665-673 | when a message is completed by bytes on a connection that is not kept alive, no sequence of calls and pauses ever makes a callback again |
| Connection.StaysOpenIff | http-parser-master/http_parser.c:1947-1963 | after messages that keep the connection open, any whole message in calls cut anywhere is delivered, and the parser stands before a next message if and only if the version and the headers and trailers of this one keep the connection open, and is dead otherwise; http_should_keep_alive answers just that |
| Connection.ClosedAfter | http-parser-master/http_parser.c:665-673 | after a message that does not keep the connection open, which is all delivered, line ends are skipped and the first other byte is refused with HPE_CLOSED_CONNECTION at its offset, whatever follows and however it is cut |
| Connection.DeliveredUpToClose | http-parser-master/http_parser.c:390-402 | any list of whole messages that fit the limit is delivered up to the first one that closes the connection, that one included; if it is not the last, the next one is refused at its first byte |
| Truncation.BrokenOff | http-parser-master/http_parser.c:604-613 | when a message breaks off, anywhere after its first byte and before its last, the calls read all there is and the call without data makes no callback, returns 1 and sets HPE_INVALID_EOF_STATE; of a message that only the end of the stream ends, or that hands the connection over, this holds within the head |
| Truncation.CleanEnd | http-parser-master/http_parser.c:604-608 | before the first message, between messages and after the last, open or closed, and after line ends there, the call without data returns 0, makes no callback and changes nothing |
| Truncation.FeedWithin | http-parser-master/http_parser.c:662-1887 | bytes that are taken and complete neither headers nor a message leave the parser within the message |
| EitherKind.KindFound | http-parser-master/http_parser.c:675-710 | a parser for both kinds, on any text: line ends are skipped, HT begins a response, H with any other byte but E is refused with HPE_INVALID_CONSTANT, and all else is what the parser for requests makes of it |
| EitherKind.PrintParseEither | http-parser-master/http_parser.c:675-710 | so it reads messages of one kind, in calls cut anywhere, as the parser for that kind does |
| Methods.SwitchKeeps | http-parser-master/http_parser.c:962-1026 | a switch of the method in mid-word keeps the letters that have been read |
| Methods.NameHeld | http-parser-master/http_parser.c:908-1030 | what has been read of a word is always the beginning of the name of the method held, or the word is refused |
| Methods.MethodRecognised | http-parser-master/http_parser.c:908-1030 | after any CR and LF, a word and a space lead to the URL with method m if and only if the word is the name of m; a word that is the name of none is refused with HPE_INVALID_METHOD |
| RequestLine.UrlReads | http-parser-master/http_parser.c:1032-1103 | the stream goes through the states of the URL automaton and delivers the bytes it accepts |
| RequestLine.UrlAgreement | http-parser-master/http_parser.c:1032-1103 | a request line gets past its URL if and only if the automaton, started as http_parser_parse_url starts it, accepts the URL and may end there; the joined on_url bytes are the URL; otherwise it is refused with HPE_INVALID_URL |
| UrlGrammar.RequestUrlByText | http-parser-master/http_parser.c:1032-1103 | the same by the text: a request line gets past its URL if and only if that is put together from a schema, a server part, a path, a query and a fragment as they may follow one another |
| RequestLine.VersionReads | http-parser-master/http_parser.c:1105-1225 | the version that ends a request line is accepted if and only if both its numbers are at most 999, and they are then stored exactly; otherwise it is refused with HPE_INVALID_VERSION |
| RequestLine.VersionRecognised | http-parser-master/http_parser.c:1105-1225 | any text in the place of the version leads to the headers if and only if it is spaces, HTTP/, a number that does not begin with 0, a full stop and a number, both at most 999 |
| HeaderMatch.MatchStep | http-parser-master/http_parser.c:1277-1383 | after each letter the name matcher holds what the letters read so far say, for all keywords at once |
| HeaderMatch.ValueStep | http-parser-master/http_parser.c:1491-1567 | after each byte the value matcher holds whether the value is the keyword and then spaces, or may become it |
| HeaderMatch.WordAndSpacesIsTrim | http-parser-master/http_parser.c:1525-1561 | that is to say: the value without trailing spaces equals the keyword, ignoring case |
| Lengths.LengthStep | http-parser-master/http_parser.c:1500-1523 | a Content-Length digit is taken if and only if the number stays within 18446744073709551609, and the number stored is exact and not the sentinel |
| Lengths.SizeStep | http-parser-master/http_parser.c:1781-1816 | a chunk size digit is taken if and only if the number stays within 2^64 - 17, and the number stored is exact and not the sentinel |
| Headers.NamesMean | http-parser-master/http_parser.c:1253-1383 | the matcher's state after a name says which of the keywords it is, ignoring case |
| Headers.ValuesMean | http-parser-master/http_parser.c:1422-1561 | and its state after a value, whether it is chunked, keep-alive or close for a header of the right name |
| Headers.LengthReads | http-parser-master/http_parser.c:1446-1523 | a Content-Length is accepted if and only if it is digits with inner spaces and at most 18446744073709551609, and then stored exactly; otherwise it is refused with HPE_INVALID_CONTENT_LENGTH |
| Headers.LeadReads | http-parser-master/http_parser.c:1407-1420 | white space before a value, which may run over lines, is skipped |
| Headers.FoldsRead | http-parser-master/http_parser.c:1579-1584 | further lines of a value are delivered with it, their white space included and the line ends left out, and leave it without meaning |
| Headers.LengthFolds | http-parser-master/http_parser.c:1446-1453 | a Content-Length that goes on after its line is refused |
| Headers.LineReads | http-parser-master/http_parser.c:1227-1624 | a well-formed header line, folded or not, ended by CR LF or LF, delivers its name and value and changes flags and length as the specification of the line says, or is refused for its length |
| Headers.BlockReads | http-parser-master/http_parser.c:1227-1624 | a block of header lines, up to the byte after it, by the specification of the lines |
| Headers.FlagsMean | http-parser-master/http_parser.c:1579-1603 | at the end of the headers each flag is set if and only if some header asks for it, in any order and with any other headers |
| HeaderNames.NameRecognised | http-parser-master/http_parser.c:1227-1405 | text up to a colon is taken as a header name if and only if it is a token of visible bytes without separators, and is otherwise refused with HPE_INVALID_HEADER_TOKEN |
| HeaderNames.NoColon | http-parser-master/http_parser.c:1391-1401 | a name with no colon before the end of its line is delivered alone and says nothing |
| LineEnds.BareCr | http-parser-master/http_parser.c:1571-1577 | in a first line, headers, trailers or a chunk size, CR and then any byte but LF is refused, whatever has been read and whatever follows |
| LineEnds.LfMissing | http-parser-master/http_parser.c:1216-1225 | what is said of the missing LF: HPE_LF_EXPECTED after a request line, and HPE_STRICT elsewhere |
| LineEnds.DataEndMissing | http-parser-master/http_parser.c:1868-1881 | the data of a chunk is followed by CR LF |
| Numbers.NumberReads | http-parser-master/http_parser.c:755-868 | each number of a version, in requests and responses, and the status code is accepted if and only if it is at most 999, and then stored exactly; otherwise the errno is that of its kind |
| ResponseLine.StatusReads | http-parser-master/http_parser.c:712-906 | a status line, with any space before the code, with or without a reason, ended by CR LF or LF, is accepted if and only if its three numbers are at most 999; message_begin and the reason are delivered and the numbers stored |
| ResponseLine.StatusRecognised | http-parser-master/http_parser.c:712-906 | any other text in its place is refused: a line leads to the headers if and only if it is a status line with numbers of at most 999 |
| Bodies.EmptyLineReads | http-parser-master/http_parser.c:1227-1239 | the empty line may be LF alone: its byte is then looked at twice |
| Bodies.EndReads | http-parser-master/http_parser.c:1626-1715 | the empty line completes the headers, with version, status code and method as the application sees them, and leads to the body they announce, to a body that the end of the stream ends, or to the end of the message |
| Bodies.SkipReads | http-parser-master/http_parser.c:1652-1692 | when on_headers_complete returns 1 the message is complete at once, whatever its headers announce |
| Bodies.UpgradeReads | http-parser-master/http_parser.c:1638-1686 | the empty line of a message with CONNECT or Upgrade completes it and ends the call, whether its body is to be skipped or not |
| Bodies.BodyReads | http-parser-master/http_parser.c:1717-1763 | bytes of a body of known length are delivered as they are, what remains goes down by their number, and the message completes exactly when nothing remains |
| Bodies.SizeReads | http-parser-master/http_parser.c:1765-1816 | a chunk size of hex digits in any case with leading zeros is accepted if and only if it is at most 2^64 - 17, and then stored exactly; otherwise it is refused with HPE_INVALID_CONTENT_LENGTH |
| Bodies.SizeLineReads | http-parser-master/http_parser.c:1765-1843 | the same with any extension without CR, and the last chunk leads to the trailers |
| Bodies.SizeLineRecognised | http-parser-master/http_parser.c:1765-1827 | any other text in the place of a size line is refused |
| Bodies.ChunksRead | http-parser-master/http_parser.c:1765-1881 | the joined on_body bytes of any list of chunks are their joined data, and the parser stands where it stood |
| Bodies.EndingReads | http-parser-master/http_parser.c:1829-1843 | the last chunk and its trailers are delivered as headers, and the message completes; the trailers stay counted |
| RoundTrip.ChunkedReads | http-parser-master/http_parser.c:1765-1881 | a whole chunked body: the joined chunks are delivered and message_complete comes once |
| RoundTrip.MessageReads | http-parser-master/http_parser.c:712-1881 | one printed request or response, of any version, with line ends before it, folded headers, a plain or a chunked body or one that the application asks to skip, is delivered and leaves the parser where its version and headers say |
| RoundTrip.PipelineReads | http-parser-master/http_parser.c:712-1881 | any list of printed messages of one type that fit the header limit, on one connection |
| RoundTrip.PrintParse | http-parser-master/http_parser.c:712-1881 | the same over calls cut anywhere: the record is exactly, for each message in turn, its URL or reason, its header pairs, its method, its version, its status code, its body and its trailers; all bytes are read |
| RoundTrip.HeadResponses | http-parser-master/http_parser.c:1652-1692 | responses to HEAD, whose headers announce bodies that do not follow: an application that answers 1 at the end of all headers gets them all, over calls cut anywhere |
| RoundTrip.PrintParseUntilEof | http-parser-master/http_parser.c:595-602 | the same for responses, versions and status codes and all, when nothing gives the length of the last one: the call without data completes it |
| RoundTrip.HandedOver | http-parser-master/README.md:112-118 | after a CONNECT or Upgrade head nothing more is read: the calls return the offset of the first byte after it, with upgrade set, whatever follows, however it is cut, and whatever the application says of the body |
| RoundTrip.BodyConserved | http-parser-master/http_parser.c:1717-1763 | over any calls, the body bytes delivered are the bytes given, delivered and remaining length add up to the declared one, and message_complete comes exactly when nothing remains |
| Limits.FrontCounts | http-parser-master/http_parser.c:643-660 | every byte of a head is counted, and the first one beyond the limit is refused |
| Limits.HeadOverflows | http-parser-master/http_parser.c:643-660 | a head longer than what is left of the limit ends in HPE_HEADER_OVERFLOW |
| Limits.PrintParseExactly | http-parser-master/http_parser.c:643-1881 | printed requests or responses in calls cut anywhere are all delivered if and only if each head fits into what the one before has left of the limit; otherwise the parser stops with HPE_HEADER_OVERFLOW |
| Limits.PrintParsePaused | http-parser-master/http_parser.c:643-1881 | printed messages are delivered to every application that pauses wherever it likes, over calls cut anywhere, if and only if the reference that counts again does not meet the limit |
| Limits.TrailersTakeRoom | http-parser-master/http_parser.c:1626-1635 | two requests with short heads, the second of which is refused with HPE_HEADER_OVERFLOW for the trailer of the first, however they are cut |
| Limits.PauseTakesRoom | http-parser-master/http_parser.c:643-660 | the beginning of a head and a last byte that is read without a pause, and refused with HPE_HEADER_OVERFLOW when a pause leaves it unread once |
| CharSets.Urls | http-parser-master/http_parser.c:199-234 | the bit table of URL bytes is all that is visible, but for # and ? |
| CharSets.Tokens | http-parser-master/http_parser.c:145-177 | the table of tokens is all that is visible, but for the separators of section 2.2 of RFC 2616 |
| CharSets.HexValues | http-parser-master/http_parser.c:180-197 | a hex digit reads as its place among the digits; bytes from 128 up read as 0 |
| UrlFields.UrlForward | http-parser-master/http_parser.c:428-574 | the URL automaton never goes back to a part it has left |
| UrlFields.HostForward | http-parser-master/http_parser.c:1996-2059 | nor does the host automaton |
| UrlText.UrlRecognised | http-parser-master/http_parser.c:428-574 | the URL automaton accepts a text and may end there if and only if it is put together from a schema of letters and ://, a server part, a path, a query after ? and a fragment after #, each of its own characters and as they may follow one another |
| UrlText.PartsAre | http-parser-master/http_parser.c:428-574 | each byte is read in the part whose piece it stands in, by the places of the pieces alone: the path ends at the first ? or #, the query at the first # |
| HostText.HostRecognised | http-parser-master/http_parser.c:1996-2059 | the host automaton accepts a server part if and only if it is user information and @, or neither, then a host name of letters, digits, full stops and hyphens or an address of hex digits, colons and full stops in brackets, then a colon and digits, or neither |
| HostText.PartsAre | http-parser-master/http_parser.c:2072-2116 | each byte of it is read in the part whose piece it stands in |
| UrlGrammar.FieldsStand | http-parser-master/http_parser.c:2142-2198 | each field stands just where its piece stands, holds its text, and is there if and only if that is not empty |
| UrlGrammar.PortIs | http-parser-master/http_parser.c:2206-2213 | the port is the decimal number after the colon of the server part, and 0 if there is none |
| UrlGrammar.AcceptedByText | http-parser-master/http_parser.c:2134-2216 | a URL is taken if and only if it is empty and not for CONNECT, or is put together from pieces with a host after a schema, a port of at most 65535, and after CONNECT a host and a port alone |
| UrlSpans.PartedStep | http-parser-master/http_parser.c:2147-2198 | one more byte keeps every part exactly in its counted span, lengthened or newly begun |
| UrlSpans.HostPartedStep | http-parser-master/http_parser.c:2072-2116 | the same in the scan of the server part |
| UrlSpans.PortNumber | http-parser-master/http_parser.c:2206-2213 | strtoul at the port reads the port's digits and nothing after them |
| UrlParser.HttpParserUrl.constructor | http-parser-master/http_parser.h:262-270 | a cleared result |
| UrlParser.HttpParserUrl.TakeByte | http-parser-master/http_parser.c:2147-2197 | one byte of the URL keeps the scan's invariant: for up to 65535 bytes every part so far is exactly in its span |
| UrlParser.HttpParserUrl.FindParts | http-parser-master/http_parser.c:2142-2198 | the loop over the URL fails if and only if the automaton dies; otherwise, for up to 65535 bytes, every part is exactly in its span, and found_at says whether the server part has an at-sign |
| UrlParser.HttpParserUrl.ParseHost | http-parser-master/http_parser.c:2061-2132 | the scan of the server part succeeds if and only if the host automaton reads it all and may end there; then, for up to 65535 bytes, user information, host and port are exactly in their spans, and no other field is touched |
| UrlParser.HttpParserUrl.ParseUrl | http-parser-master/http_parser.c:2134-2216 | for up to 65535 bytes it returns 0 if and only if the URL is one by its text, which is just when the two automata, the CONNECT rule and the port bound accept it; then the fields are the pieces it is put together from, those that are not empty, each with its offset and length, and the port is its number |
| UrlPartition.Delimiters | http-parser-master/http_parser.c:2155-2161 | a byte in no field is one of : / ? # @ [ ] |
| UrlPartition.FieldOrder | http-parser-master/http_parser.c:428-574 | fields come in the order schema, user information, host, port, path, query, fragment |
| UrlPartition.Partition | http-parser-master/http_parser.c:2134-2216 | on success the fields are not empty, in bounds, disjoint and in order, and every byte outside of them is a delimiter |
| UrlPartition.StreamedUrl | http-parser-master/http_parser.c:2147-2216 | a URL that the stream parser has let through can be rejected only by the host, port and CONNECT checks |
| Crc.TableRight | src/crc32.h:7-51 | all 256 entries of the table are the index after eight steps of the division |
| Crc.FeedAll | src/crc32.h:62-63 | adding n message bits at once and shifting n times is feeding them one at a time |
| Crc.TurnDivides | src/crc32.h:62-63 | one turn of the loop is the division by the byte's eight bits |
| Crc.Crc32 | src/crc32.h:53-65 | the table loop computes the bit-serial division of the buffer |
| Crc.Composes | src/crc32.h:53-65 | the checksum of a stream may be taken piece by piece |
| Crc.DivideLinear | src/crc32.h:53-65 | the difference of two registers divides the difference of the messages |
| Crc.WindowTells | src/crc32.h:53-65 | at most 32 message bits that are not the same leave different registers |
| Crc.BurstDetected | src/crc32.h:53-65 | two buffers that differ only inside 32 consecutive bits have different checksums, whatever came before |
| Crc.FourBytesDetected | src/crc32.h:53-65 | two buffers of one length that differ only inside four consecutive bytes have different checksums |
| Crc.CheckValue | src/crc32.h:53-65 | the checksum of the digits 1 to 9 in ASCII is CBF43926, the check value of this CRC |

## Left out

- The non-strict build, and the version, errno and method name strings: constant lookups, or a second case split of the same kind.
- A callback that is not set: it is a callback that returns 0 and does not pause.
- Callbacks that write to the parser's private fields or call http_parser_execute again: the application can only answer and pause.
- The application's data pointer, and printing in `http-parser-master/contrib`.
- Header lines without a colon in printed messages: `HeaderNames.NoColon` says what becomes of one when the next line does not begin with white space.
- UrlParser.HttpParserUrl.ParseUrl: for URLs beyond 65535 bytes the 16-bit wrap-around is in the model, and that no access is out of bounds is proved, but nothing is promised about the wrapped values; nor is the content of the result after a return of 1.
- strtoul is modelled on digits; white space and signs before them cannot stand at the port of a URL of up to 65535 bytes.
- Characters are Dafny characters; those from 128 up belong to no class, as in the tables, and each byte string is a string of the model.
- The server around the parser in `src/` (sockets, epoll, threads, XML and file access), its heap, queues, hash table and red-black tree.
- Conformance to RFC 2616 beyond what the code decides: a body after 204 or 304 with a Content-Length is read, and minor version 0 is not persistent.
