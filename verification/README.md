# Hackaday.io API client — a Dafny model

This project models the core of a small ESP8266 client for the Hackaday.io
REST API. `HackadayioApi::GetProject` formats the path
`/v1/projects/<id>?api_key=<key>`. It connects to `api.hackaday.io:443` when
the client is not yet connected and prints a GET request. It then scans the
response header lines. It rejects a declared `Content-Length` above 2000 and
stops at the blank `"\r"` line. If the body starts with `{`, it is decoded
and nineteen fields are copied into an `HProject` record. The main loop runs
this once per UTC hour, and only after the clock has been set.

Everything is modelled as pure functions over values:

- `ApiTypes` (`api_types.dfy`) holds the `API_Error` enumeration and its
  codes, the `HProject` record (`ProjectRecord`) and the fixed constants:
  host, path template, the 75-byte path buffer and the 2000-byte
  bound.
- `Decimal` (`decimal.dfy`) holds `%d` formatting (`FormatInt`) and the
  `atol` parse behind `String::toInt` (`AtoL`), with their round trip.
- `Http` (`http.dfy`) holds the C-string view of a buffer (`CStr`, the text
  before the first NUL byte), `String::indexOf` and `String::substring`, the
  header scan of `fetchURL` (`ScanHeaders`), the request path (`PathFor`)
  with its inverse (`ParsePath`), and the request text (`RequestText`) with
  the line split the server reads from it (`SplitLines`).
- `Json` (`json.dfy`) holds the parsed document, given as an oracle, and the
  field copy of `GetProject` (`ProjectFromDoc`).
- `Fetch` (`fetch.dfy`) holds an abstract `Client` record and `Connect`,
  `Close`, `FetchUrl` and `GetProject`. The client's fields are:
  - whether it is connected;
  - whether a connect would succeed;
  - the unread response lines;
  - the byte `peek` returns;
  - the parse outcome of the body;
  - the number of `stop` calls;
  - the text printed so far.
- `Schedule` (`schedule.dfy`) holds the gating rule of `loop` (`LoopStep`)
  and runs of it over a sequence of clock readings.

Some behaviour of the code is worth stating plainly, since a reader might
expect otherwise:

- On a body that does not start with `{`, `GetProject` returns `NoJSON`
  without calling `close` or `stop`, so the connection stays open
  (`Fetch.NotJsonLeavesConnectionOpen`).
- Only a line equal to `"\r"` ends the headers (`Http.BlankLineEndsHeaders`).
  An empty line, which is what a bare-LF blank line reads as, is an ordinary
  header (`Http.EmptyLineIsOrdinary`).
- The `Content-Length` value is sliced from column 16 up to the last
  character and read by `String::toInt`:
  - text without digits reads as 0 and the scan goes on
    (`Http.UnreadableLengthIsZero`);
  - a value beyond the 32-bit `long` saturates, as `strtol` does
    (`Http.DeclaredLength`);
  - a negative value wraps in the `uint32_t` and is rejected
    (`Http.NegativeLengthWraps`).
- A header line is searched and compared as a C string: `indexOf` is a
  `strstr` and `==` a `strcmp`, and both stop at the first NUL byte that
  `readStringUntil` kept in the line. A length field behind a NUL goes
  unnoticed, and `"\r"` followed by a NUL still ends the headers
  (`Http.NulHidesTheRest`). The key is printed with `%s` and is likewise cut
  at its first NUL (`Http.PathRoundTrip`).
- The field name is matched case-sensitively and anywhere in the line, while
  section 5.1 of RFC 9110 makes field names case-insensitive
  (`Http.LowerCaseLengthIgnored`).
- The request ends its lines with a bare LF, not the CRLF of section 2.2 of
  RFC 9112 (`Http.RequestLines`).
- A body that starts with `{` but does not parse leaves the record's initial
  `Empty` error (`Fetch.ParseFailureKeepsEmpty`).

## Model

| member | source | states |
|---|---|---|
| ApiTypes.Code | src/hackadayio_api.h:55-63 | every code is at most 5, and it is 0 exactly for None |
| ApiTypes.FromCode | src/hackadayio_api.h:55-63 | every value 0..5 names exactly the enumerator with that code |
| ApiTypes.CodeRoundTrip | src/hackadayio_api.h:55-63 | the codes are None=0, NoConnection=1, ResponseToLong=2, NoResponse=3, Empty=4, NoJSON=5, all at most 5 and decoded back to their enumerator |
| ApiTypes.CodeInjective | src/hackadayio_api.h:55-63 | no two enumerators share a value |
| ApiTypes.TruthyMeansFailure | src/hackadayio_api.cpp:34 | testing an error for truthiness is true exactly for the failures, because only None is 0 |
| ApiTypes.BlankRecordIff | src/hackadayio_api.cpp:26-27 | a record equals the blank record of its own error exactly when none of its data fields carries anything |
| Decimal.FormatNat | src/hackadayio_api.cpp:30 | `%d` of a non-negative id is a non-empty digit string without a leading zero, whose decimal value is the id |
| Decimal.FormatInt | src/hackadayio_api.cpp:30 | `%d` of any int is non-empty, starts with a minus sign exactly for negative values, and is all digits after that sign |
| Decimal.FormatNatWidth | src/hackadayio_api.cpp:30 | `%d` of a non-negative value writes exactly as many characters as the value has decimal digits |
| Decimal.SkipSpace | src/hackadayio_api.cpp:138 | skipping whitespace never lengthens the text, and what remains is empty or starts with a character that is not whitespace |
| Decimal.SkipSpaceSuffix | src/hackadayio_api.cpp:138 | what `toInt` skips is a prefix made only of whitespace, and the rest of the text is kept |
| Decimal.LeadingDigitsPrefix | src/hackadayio_api.cpp:138 | the digits `toInt` reads are a prefix of the text that ends at the first non-digit or at the end |
| Decimal.SaturateLong | src/hackadayio_api.cpp:138 | a value is kept when it fits the 32-bit `long` and otherwise replaced by the nearest bound |
| Decimal.ToInt | src/hackadayio_api.cpp:138 | `toInt` is the `atol` value when that fits a `long`, and the largest or smallest `long` when it lies above or below |
| Decimal.AtoLWithoutDigits | src/hackadayio_api.cpp:138 | `toInt` gives 0 when no digit follows the whitespace and optional sign |
| Decimal.AtoLNoDigits | src/hackadayio_api.cpp:138 | text without any digit reads as 0 |
| Decimal.AtoLFormatInt | src/hackadayio_api.cpp:30 | `toInt` reads back what `%d` printed, whatever non-digit text follows it |
| Decimal.AtoLFormatIntExact | src/hackadayio_api.cpp:30 | `toInt` inverts `%d` |
| Decimal.ToIntFormatInt | src/hackadayio_api.cpp:30 | `toInt` reads back exactly what `%d` printed, for every value of a 32-bit `long` |
| Decimal.FormatIntInjective | src/hackadayio_api.cpp:30 | distinct ids print as distinct decimal text |
| Http.IndexOf | src/hackadayio_api.cpp:135 | `indexOf` answers -1 exactly when the pattern occurs nowhere, and otherwise its first occurrence |
| Http.Substring | src/hackadayio_api.cpp:138 | `substring` is never longer than the line, and gives nothing when both bounds are at or past the end |
| Http.SubstringCases | src/hackadayio_api.cpp:138 | `substring` ignores the order of its bounds; in-range bounds give the slice between them, a right bound past the end reads to the end, bounds at or past the end give nothing, and the result is never longer than the line |
| Http.CStrFacts | src/hackadayio_api.cpp:135 | the text a C routine sees in a buffer is a prefix of it without NUL that ends at the end of the buffer or at a NUL |
| Http.CStrIsFirstNulPrefix | src/hackadayio_api.cpp:135 | that prefix is unique, and a buffer without NUL is seen whole |
| Http.CStrAfter | src/hackadayio_api.cpp:135 | a head without NUL is read through: the C string of head and tail is the head followed by the tail's C string |
| Http.IsLengthLineIff | src/hackadayio_api.cpp:135 | a line is a length line exactly when `Content-Length` occurs somewhere before its first NUL byte; for a line without NUL, anywhere in it |
| Http.ContentLength | src/hackadayio_api.cpp:138 | the declared length, stored in a `uint32_t`, is below 2^32 |
| Http.ClassifyCases | src/hackadayio_api.cpp:135-148 | for one header line: a length line stops the scan, with ResponseToLong, exactly when its length exceeds 2000; a line that reads as `"\r"` up to its first NUL is no length line and always ends the headers; only those two stop it |
| Http.NulHidesTheRest | src/hackadayio_api.cpp:135-145 | `Content-Length: 99999` behind a NUL byte does not stop the scan, and `"\r"` followed by a NUL ends the headers with None |
| Http.ScanWith | src/hackadayio_api.cpp:131-151 | the header loop over any per-line rule stops on the first line the rule stops on, with that verdict, and reads every line answering NoResponse when none stops |
| Http.ScanHeaders | src/hackadayio_api.cpp:131-151 | the scan stops on the first too-long length line with ResponseToLong, or on the first `"\r"` line with None, leaving all later lines unread; with neither it reads every line and answers NoResponse |
| Http.LengthLineValue | src/hackadayio_api.cpp:135-138 | a `Content-Length: v` line is a length line, and its length is the target's `toInt(v)` modulo 2^32 |
| Http.DeclaredLength | src/hackadayio_api.cpp:138-143 | a value that reads as a non-negative n is taken exactly up to the largest `long`, saturates there, and stops the scan exactly when n exceeds 2000 |
| Http.NegativeLengthWraps | src/hackadayio_api.cpp:110-143 | a value reading as -m, saturated at -2^31, wraps to 2^32 − min(m, 2^31), which is at least 2^31, in the `uint32_t` and is rejected as too long |
| Http.MinusOneIsTooLong | src/hackadayio_api.cpp:138-143 | `Content-Length: -1` yields ResponseToLong |
| Http.UnreadableLengthIsZero | src/hackadayio_api.cpp:138-140 | a value without digits reads as 0 and does not stop the scan |
| Http.NameIsCaseSensitive | src/hackadayio_api.cpp:135 | a line without a capital C is never taken for a length line |
| Http.ScanWithPassesOver | src/hackadayio_api.cpp:131-149 | under any per-line rule, lines the rule lets pass are read and passed over: the scan after them is the scan of the rest, shifted by their number |
| Http.ScanPassesOver | src/hackadayio_api.cpp:131-149 | lines that stop nothing are read and passed over: the scan after them is the scan of the rest, shifted |
| Http.DeclaredLengthBound | src/hackadayio_api.cpp:135-148 | after ordinary lines, a length above 2000 ends the scan with ResponseToLong on that line, and one at or below 2000 is passed over |
| Http.BlankLineEndsHeaders | src/hackadayio_api.cpp:131-147 | after lines that stop nothing, the bare `"\r"` line ends the scan with None on that line, leaving everything after it unread |
| Http.EmptyLineIsOrdinary | src/hackadayio_api.cpp:135-148 | an empty line does not stop the scan |
| Http.LowerCaseLengthLine | src/hackadayio_api.cpp:135-145 | a `content-length: <digits>` line stops nothing, however large the number |
| Http.LowerCaseLengthIgnored | src/hackadayio_api.cpp:135-147 | after a `content-length: <digits>` line the scan reaches the following `"\r"` line and ends there with None, whatever comes after |
| Http.PathFor | src/hackadayio_api.cpp:29-30 | the path is as long as the prefix, the printed id, `?api_key=` and the key up to its first NUL together |
| Http.PathFitsIff | src/hackadayio_api.cpp:29-30 | the path fits the 75-byte buffer exactly when 22 + digits(id) + the key's length up to its first NUL is at most 74 |
| Http.PathRoundTrip | src/hackadayio_api.h:44 | the path reads back as the id after `/v1/projects/` and, after `?api_key=`, the key up to its first NUL, which is the whole key when it holds no NUL |
| Http.PathInjective | src/hackadayio_api.h:44 | two paths are equal exactly when their ids are and their keys agree up to the first NUL |
| Http.FindChar | src/hackadayio_api.cpp:125-129 | in the line split of the printed request as the server reads it, the search for the line feed answers its first occurrence from the given position, or -1 exactly when there is none after it |
| Http.RequestText | src/hackadayio_api.cpp:125-129 | the printed request is 61 characters longer than the path |
| Http.SplitLines | src/hackadayio_api.cpp:125-129 | the server's line split of the printed request: splitting at line feeds gives lines without line feeds that join back to the text |
| Http.SplitJoin | src/hackadayio_api.cpp:125-129 | for the server's line split of the printed request, splitting undoes joining lines that hold no line feed |
| Http.JoinedRequestLines | src/hackadayio_api.cpp:125-129 | the five request lines joined by line feeds are the request line, the `Host` line and the `Cache-Control` line, each followed by a line feed, and one more line feed |
| Http.RequestTextPieces | src/hackadayio_api.cpp:125-129 | the five printed pieces make up that same text |
| Http.RequestTextJoins | src/hackadayio_api.cpp:125-129 | the printed request is its five lines joined by line feeds |
| Http.RequestLines | src/hackadayio_api.cpp:125-129 | the request is exactly `GET <path> HTTP/1.1`, `Host: api.hackaday.io`, `Cache-Control: no-cache` and a blank line, each ended by a bare line feed |
| Json.Member | src/hackadayio_api.cpp:58-76 | a missing key reads as null |
| Json.ProjectFromDoc | src/hackadayio_api.cpp:55-77 | a parsed body sets the error to None, copies each numeric and text key into its field, and counts the tags array |
| Json.KeysDistinct | src/hackadayio_api.cpp:58-76 | no two record fields are read from the same key |
| Json.FieldsDetermineRecord | src/hackadayio_api.h:65-88 | a record is determined by its error, its named numeric and text fields, and its tag count |
| Json.MissingKeysGiveDefaults | src/hackadayio_api.cpp:58-76 | a missing key gives 0, empty text or a tag count of 0, never a failure |
| Json.OnlyListedKeysMatter | src/hackadayio_api.cpp:58-76 | documents agreeing on the nineteen keys decode to the same record |
| Json.SampleDocument | src/hackadayio_api.cpp:55-76 | a body with id 163680, views 10 and two tags decodes with None, id 163680, views 10 and tag count 2 |
| Json.SampleWithoutSummary | src/hackadayio_api.cpp:62 | a body without `summary` decodes with an empty summary |
| Fetch.Stop | src/hackadayio_api.cpp:102 | `stop` disconnects, counts one more stop, and changes nothing else |
| Fetch.Connect | src/hackadayio_api.cpp:86-93 | connect answers None and connects exactly when the host is reachable, otherwise NoConnection with the client unchanged |
| Fetch.Close | src/hackadayio_api.cpp:98-105 | close always answers None, leaves the client disconnected, calls stop only if it was connected, and changes nothing else |
| Fetch.CloseIdempotent | src/hackadayio_api.cpp:98-105 | closing a closed client changes nothing |
| Fetch.FetchUrl | src/hackadayio_api.cpp:107-152 | NoConnection exactly when an unconnected client cannot connect, with nothing printed; otherwise the request is printed and the answer and the unread lines are those of the header scan |
| Fetch.GetProject | src/hackadayio_api.cpp:22-81 | a failed fetch carries only its error; NoConnection exactly when the client cannot connect; request text is written except on NoConnection; the client stays connected and stop is skipped exactly on NoJSON |
| Fetch.ProjectDependsOnAnswers | src/hackadayio_api.cpp:22-81 | the record depends only on whether the host is reachable and on the peer's answers, not on the client's history |
| Fetch.ConnectFailure | src/hackadayio_api.cpp:33-40 | a failed connect gives NoConnection, writes no request text, reads no line, and still calls stop once |
| Fetch.ConnectedSkipsConnect | src/hackadayio_api.cpp:114-122 | a connected client is not reconnected: the connect oracle does not affect the outcome |
| Fetch.HeaderFailure | src/hackadayio_api.cpp:33-40 | a header failure becomes the record's error, the client is stopped and the later lines stay unread |
| Fetch.NotJsonLeavesConnectionOpen | src/hackadayio_api.cpp:42-47 | a body not starting with `{` gives NoJSON and the connection stays open with no stop call |
| Fetch.Decoded | src/hackadayio_api.cpp:54-80 | a parsed body gives None and the document's fields, and the connection is closed |
| Fetch.ParseFailureKeepsEmpty | src/hackadayio_api.cpp:26-27 | a body that does not parse keeps Empty and the connection is closed |
| Fetch.OutcomeSources | src/hackadayio_api.cpp:26-80 | None comes exactly from a parsed body after good headers, and Empty exactly from an unparseable one |
| Fetch.RefetchSameRecord | src/hackadayio_api.cpp:22-105 | unless NoJSON, a fetch leaves the client disconnected and a second fetch against the same answers gives the same record |
| Schedule.UtcHour | src/main.cpp:103-105 | the UTC hour is in 0..23 |
| Schedule.ShouldFetch | src/main.cpp:108 | a fetch needs a set clock, and with a remembered hour that is no hour of the day a set clock always fetches |
| Schedule.Tick | src/main.cpp:108-110 | the remembered hour changes only on a fetch, and then becomes the current hour |
| Schedule.LoopStep | src/main.cpp:100-123 | an iteration fetches exactly when the clock is set and the hour differs from the last fetched one; it fetches project 163680 and reports success exactly when the error code is 0 |
| Schedule.WatchedPathFits | src/main.cpp:114 | the watched project's path fits the buffer exactly for keys of at most 46 characters before their first NUL |
| Schedule.NoFetchWhileClockUnset | src/main.cpp:108 | no fetch happens while the clock reads at most 86400 |
| Schedule.FirstSetClockFetches | src/main.cpp:95-110 | the first iteration with a set clock always fetches, since 99 is no hour |
| Schedule.SameHourFetchesOnce | src/main.cpp:108-110 | two consecutive iterations in the same UTC hour fetch at most once |
| Schedule.AtMostOncePerHour | src/main.cpp:108-110 | any run of iterations within one UTC hour fetches at most once, and never when that hour was already fetched |
| Schedule.NothingBeforeClockSet | src/main.cpp:108 | while the clock stays unset nothing is fetched and the initial hour is kept |
| Schedule.RememberedHourWasFetched | src/main.cpp:110 | after a run, the remembered hour is the initial one or the hour of a reading at which the iteration, given the hour remembered before it, fetched |

## Left out

- Wi-Fi setup and event handlers, NTP configuration and all serial output are platform I/O. The clock reading is a parameter of `Schedule.LoopStep`.
- Debug logging is left out because it has no effect on results.
- The embedded root certificate and TLS are foreign code, and so is the connection to `api.hackaday.io` on port 443. The client is an abstract record, and whether a connect succeeds is an oracle.
- The read timeout set in the constructor is left out, because timeouts only matter with real I/O. Running out of lines stands in for `available()` going false.
- JSON parsing is an oracle. `Json.ProjectFromDoc` follows the key-by-key copy.
- Json.AsInt: only a JSON integer converts to its value, and every other value gives 0. ArduinoJson's `as<int>()` also converts booleans, floats and numeric strings such as `"10"`, and gives 0 for an integer outside the target's `int`; the model keeps such an integer unbounded, and floats are not represented at all. These conversions are library code.
- Arduino's `String::substring` and `toInt` are library code. The model uses their documented behaviour: the bounds swap and clamp, and `atol` skips whitespace and takes an optional sign and digits.
- Http.ContentLength: `toInt` is modelled as the target's `atol`, which saturates at the bounds of its 32-bit `long` as `strtol` does, and the `long` is then reduced modulo 2^32 as the conversion to `uint32_t` requires. A platform whose `atol` behaves otherwise on overflow is not modelled.
- Fetch.GetProject: on error paths the C record's data fields are left uninitialised. The model fills them with zeros and empty text.
- String fields are modelled as owned values. The C record points into the parse buffer, which dies when `GetProject` returns.
- `gmtime_r` is reduced to the hour, as `(now / 3600) % 24`.
- The unused constants `MAX_SIZE_RETURN_STRING` and `MAX_SIZE_RETURN_SPIFFS` are left out.
- Fetch.GetProject: the path must fit the 75-byte buffer. A longer path overflows it, which is undefined behaviour.
- A server closing the connection on its own during a fetch is not modelled. `connected` changes only through `connect` and `stop`.
