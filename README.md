# ITunesEmbed core in Dafny

ITunesEmbed copies play counts and ratings from an iTunes library XML export
into the audio files themselves. It writes them as an ID3v2 Popularimeter
(POPM) frame for one user email. The POPM frame is defined in section 4.17 of
the ID3v2.4.0 native frames document. This project models the two parts of
`main.cpp` that make decisions, and proves what they guarantee.

- **The library scanner** (`write_popularimeter`) is in `scanner.dfy`.
  - `StreamReader` is a class whose `ReadNext` advances a position over the
    tokens that `QXmlStreamReader` would produce. Its `AtEnd` is true at the
    end of the stream or after an error.
  - `WritePopularimeter` is the scanner's `while` loop. It keeps the three
    accumulators: location, play count and rating. It returns the verdict and
    the list of calls it made to the tag writer. It is proved equal to the
    specification function `Run`, which is built from `Iterate` (one turn of
    the loop), `ReadPair` (the four-token look-ahead after `<key>`) and
    `ApplyPair` (the effect of one key/value pair).
  - `scanner_props.dfy` proves the scanner's properties about `Run`.
- **The tag writer** (`write_popularimeter_to_mp3`) is in `tag_writer.dfy`.
  - The in-memory ID3v2 tag is the class `Id3v2Tag`. Its frame list is edited
    in place by `RemoveFrame` and `AddFrame`.
  - The method `WritePopularimeterToMp3` runs the removal loop over a copy of
    the POPM list and then adds the new frame. It stores the result in an
    `AudioFile` only when the save succeeds.
  - The method is proved against the function `Retagged`. Lemmas then show
    that exactly one POPM frame remains, that other frames are kept in order,
    and that writing twice gives the same frame list.
- **Two Qt string operations** are in `qt_strings.dfy`. `ParseInt` models
  `QString::toInt` as a signed-decimal parser over the 32-bit range, and has a
  round-trip partner `Decimal`. `RemoveAll` models
  `QString::replace("/localhost", "")`.

Everything outside the model is a parameter. `Env` holds URL decoding to a
local file, file existence, the absolute path and the tag writer's verdict.
The writer takes the v1-to-v2 field copy and the outcome of `save()` as
parameters.

Four behaviours of `main.cpp` are easy to misread:

- The rating is `(int)(x / 100.0 * 255)`. This truncates, it does not round,
  so 50 becomes 127, not 128 (`RescaleTruncates`).
- An XML error does not always abort the scan. If the error is read inside the
  look-ahead after `<key>`, the `continue` skips the error test. The reader is
  then at its end, so the scan returns true (`ErrorInLookAheadIgnored`).
- The look-ahead after `<key>` checks the kinds of four tokens: text, end
  tag, start tag, text. It never checks the names of the two tags.
- The stale POPM frame is removed whatever its email. The code removes the
  first POPM frame and never compares emails.

## Model

| member | source | states |
|---|---|---|
| `QtStrings.ParseInt` | main.cpp:143-146 | a parsed count or rating is a 32-bit int, and a text with no digit never parses |
| `QtStrings.ParseDecimal` | main.cpp:143-144 | every 32-bit int written in decimal parses back to itself |
| `QtStrings.ParseDigits` | main.cpp:143-146 | a run of digits, bare or after `+` or `-`, parses to its value when that fits a 32-bit int and is refused otherwise: no wrap-around |
| `QtStrings.ParseRejectsGarbage` | main.cpp:144-146 | a non-digit after any non-empty text, or a character that is neither digit nor sign before any text, makes it unparsable |
| `QtStrings.ParseRejects` | main.cpp:144-146 | the empty text, a lone `-` or `+`, `12a` and `2147483648` are refused |
| `QtStrings.RemoveAll` | main.cpp:169 | `QString::replace(p, "")` with a non-empty `p`: the result is never longer than the input |
| `QtStrings.RemoveAllLeftmost` | main.cpp:169 | the text before the leftmost occurrence is kept, that occurrence is dropped, and removal goes on after it; with `RemoveAllAbsent` this fixes the result as the left-to-right, non-overlapping removal |
| `QtStrings.RemoveAllSkips` | main.cpp:169 | a prefix in which no occurrence starts is copied unchanged |
| `QtStrings.RemoveAllUnchangedIff` | main.cpp:169 | the `/localhost` strip leaves a path unchanged exactly when the path does not contain `/localhost` |
| `QtStrings.RemoveAllAbsent` | main.cpp:169 | a path without `/localhost` is returned as it is |
| `QtStrings.RemoveAllPresent` | main.cpp:169 | a path that contains `/localhost` gets strictly shorter |
| `QtStrings.LocalhostSurvivesRemoval` | main.cpp:169 | removal is one left-to-right pass: `/lo/localhostcalhost` becomes `/localhost` |
| `LibraryScanner.StreamReader.ReadNext` | main.cpp:127 | each read returns the next token and advances the reader; after an error, or past the end, it returns Invalid and the error stays set |
| `LibraryScanner.Rescale` | main.cpp:150 | the rating is 255·x/100 truncated toward zero: `100·r <= 255·x < 100·r + 100` for x ≥ 0, and the mirror image for x < 0 |
| `LibraryScanner.ReadPair` | main.cpp:132-140 | the look-ahead succeeds exactly when the next four tokens are text, end tag, start tag, text; it then yields the key and value texts and has consumed four tokens; otherwise the reader stands just past the first token of the wrong kind, with the error set when that token was Invalid or lay past the end |
| `LibraryScanner.ApplyPair` | main.cpp:142-158 | a pair fails exactly when its key is "Play Count" or "Rating" and its value does not parse; a key other than the three recognised ones leaves the record unchanged |
| `LibraryScanner.Iterate` | main.cpp:126-193 | each turn of the loop moves the reader forward, keeps every earlier writer call, and adds at most one, only on a `</dict>` that it reads alone |
| `LibraryScanner.CandidatePath` | main.cpp:168-169 | the file path of a Location is never longer than the decoded local file, and equals it exactly when that holds no `/localhost` |
| `LibraryScanner.Run` | main.cpp:126-195 | the loop from any point only appends writer calls, at most one per `</dict>` still to come |
| `LibraryScanner.ScanLibrary` | main.cpp:113-196 | an unopenable library gives false and no calls; an opened one makes at most one call per `</dict>` |
| `LibraryScanner.WritePopularimeter` | main.cpp:113-196 | the loop's verdict and writer calls equal those of the specification `Run`; an unopenable library gives false and no calls |
| `ScannerProperties.RescaleRange` | main.cpp:150 | a 0..100 rating maps into 0..255; 0, 80 and 100 map to 0, 204 and 255 |
| `ScannerProperties.RescaleMonotone` | main.cpp:150 | the rescale never decreases as the source rating grows |
| `ScannerProperties.RescaleTruncates` | main.cpp:150 | 50 maps to 127 and −50 to −127: truncation toward zero, not rounding |
| `ScannerProperties.PairStep` | main.cpp:128-160 | a well-formed pair consumes five tokens and either updates the record or stops the scan with false |
| `ScannerProperties.BadNumberAborts` | main.cpp:142-153 | a non-integer Play Count or Rating ends the whole scan with false, and no later record is dispatched |
| `ScannerProperties.LastValueWins` | main.cpp:142-158 | a repeated key keeps the last value |
| `ScannerProperties.KeyOrderIrrelevant` | main.cpp:142-158 | pairs with different keys give the same record in either order |
| `ScannerProperties.PairTouchesOneField` | main.cpp:142-158 | each recognised key sets only its own field, and an unrecognised key changes nothing |
| `ScannerProperties.MalformedPairSkipped` | main.cpp:132-140 | a malformed pair is skipped: the tokens read so far are consumed, and neither the record nor the calls change |
| `ScannerProperties.DictCloseSwallowed` | main.cpp:132-140 | a `</dict>` in any of the four slots after `<key>` is consumed by the look-ahead and makes no writer call; in slots 0, 2 and 3 the pair is skipped and the run goes on just past it, in slot 1 it passes as the key's end tag |
| `ScannerProperties.ErrorInLookAheadIgnored` | main.cpp:132-140 | an XML error read in any of the four slots of the look-ahead ends the scan with true and no further call, because the error test is skipped |
| `ScannerProperties.ErrorInMainLoopFails` | main.cpp:189-192 | an XML error read by the main read ends the scan with false and no further calls |
| `ScannerProperties.CloseWithoutLocation` | main.cpp:162-166 | closing a non-dict element, or a dict with no Location, dispatches nothing; count and rating carry over |
| `ScannerProperties.CloseWithLocation` | main.cpp:162-184 | closing a dict with a Location: a missing file is skipped and the record reset; an existing file gets one writer call; a failed write returns false, a successful one resets the record |
| `ScannerProperties.NoLocationNoCalls` | main.cpp:154-166 | a stream with no `<key>Location</key>` makes no writer call, whatever values hold the text "Location" |
| `ScannerProperties.LocationAsValueNoCalls` | main.cpp:154-166 | a track whose Name is "Location" and which has no Location key is not dispatched |
| `ScannerProperties.FailureHasCause` | main.cpp:126-195 | a false verdict has a cause: an error token, a `Play Count` or `Rating` pair whose value is not an integer, or a writer call that failed |
| `ScannerProperties.TrackExample` | main.cpp:142-181 | a track with Location, Play Count 12 and Rating 80, whose file exists, makes one writer call with (12, 204), and the scan returns true |
| `TagWriter.WithId` | main.cpp:89 | the frames with a given ID are exactly the tag's frames with that ID |
| `TagWriter.RemoveFirst` | main.cpp:92 | `removeFrame` takes out one copy of the frame and nothing else; the list is one shorter exactly when the frame was in it |
| `TagWriter.ToUnsigned` | main.cpp:97 | the counter is stored as an unsigned int: below 2^32 and congruent to the input |
| `TagWriter.NewPopm` | main.cpp:96-99 | the new frame is a POPM frame with the given email and rating, and the counter as an unsigned int: below 2^32 and congruent to the given one |
| `TagWriter.RemovePopm` | main.cpp:88-92 | the removal loop keeps every non-POPM frame in order; it drops the head of the POPM list when that frame decodes, and changes nothing otherwise |
| `TagWriter.Retagged` | main.cpp:69-100 | the v2 frame list after one write ends with the new POPM frame and is at most one frame longer than before |
| `TagWriter.Id3v2Tag.RemoveFrame` | main.cpp:92 | the tag's frame list loses the first occurrence of the frame |
| `TagWriter.Id3v2Tag.AddFrame` | main.cpp:100 | the frame is appended to the tag's frame list |
| `TagWriter.Id3v2Tag.Duplicate` | main.cpp:73-76 | an empty tag receives the frames copied from the v1 tag |
| `TagWriter.WritePopularimeterToMp3` | main.cpp:64-108 | the verdict is the save outcome; the v1 tag is untouched; after a successful save the v2 tag is `Retagged`, otherwise it is as before |
| `TagWriter.RemoveFirstPopm` | main.cpp:89-92 | removing the first POPM frame drops the head of the POPM list and keeps every other frame in order |
| `TagWriter.RetaggedHasOnePopm` | main.cpp:89-100 | with at most one decodable POPM frame before, exactly one POPM frame remains after the write; it is the last frame and holds the email, the rating and the counter |
| `TagWriter.RetaggedKeepsOtherFrames` | main.cpp:84-100 | frames that are not POPM frames stay, in their order |
| `TagWriter.NewTagFromV1` | main.cpp:69-79 | a file without a v2 tag gets the v1 copy, or nothing, followed by the new frame |
| `TagWriter.RetaggedIdempotent` | main.cpp:89-100 | writing the same values twice gives the same frame list |
| `TagWriter.UndecodedPopmKept` | main.cpp:91-92 | a POPM frame that TagLib could not decode fails the cast, is kept, and a second POPM frame is added |
| `TagWriter.CounterStored` | main.cpp:97 | a counter in 0..2^32−1 is stored unchanged; a negative one wraps around |

## Left out

- `main`, `validate_args` and `print_usage` (argument handling and exit codes) are not modelled.
- Logging is not modelled. Of the log calls, only the values returned by `return log_err(...)` and `return log_verbose(...)` matter. They are taken as false and true.
- Opening the library file is not modelled. A file that cannot be opened is `None`.
- The XML tokeniser is not modelled. The reader is given the token sequence it would produce. Element names are local names. Comments, the document start and end, and the like are all `OtherToken`.
- Reading past the last token is treated as a premature-end error. The scan's result does not depend on this choice: the look-ahead is the only place that can read past the end, and it then `continue`s into an ended reader.
- `QUrl::fromPercentEncoding` with `QUrl::toLocalFile`, `QFileInfo::exists` and `QFileInfo::absoluteFilePath` are calls into Qt. They are the functions `localFile`, `fileExists` and `absolute` of `Env`.
- The tag writer's verdict is also an `Env` function (`writeOk`). The scanner is not connected to an `AudioFile` model.
- `QtStrings.ParseInt`: the leading and trailing whitespace that `QString::toInt` skips is not accepted, and Qt's exact syntax is not modelled.
- `LibraryScanner.Rescale` uses integer arithmetic. The double-precision computation of `x / 100.0 * 255` is not modelled; for large inputs (far outside the 0..100 rating scale) its rounding can make the cast one less than the exact truncation. A result outside the int range is undefined behaviour in C++, and the model gives the exact value instead.
- The null test on the Location text is not modelled. The text of a characters token is never a null string, so in the model that branch cannot be taken.
- TagLib internals are not modelled. `Tag::duplicate` (the v1-to-v2 field mapping) is a parameter. The binary ID3 encoding is not modelled, for example a rating outside 0..255 being cut to one byte. `File::save` is a parameter (`saveOk`). A file that cannot be opened or written shows up as a failed save.
- `TagWriter.WritePopularimeterToMp3`: it requires at most one POPM frame, or a first POPM frame that does not decode. With two or more POPM frames whose first one decodes, the loop's second turn acts on a frame that was already removed and deleted, which is undefined behaviour.
- The debug listing of frames and the conversions `toLocal8Bit` of the path and the email are not modelled. Strings are passed through unchanged.
