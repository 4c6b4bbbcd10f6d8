# KakaoTalk transcript parser, modelled in Dafny

This project models the parsing pass of `KakaoTalkParser` from the KakaoTalk analyzer
and proves properties of that model. The pass reads an exported KakaoTalk chat
transcript line by line and turns it into a list of `Talk` records:
- messages
- continuation lines (`Append`)
- members entering and leaving
- shared posts
- the `Error` record of a line that could not be parsed

The parser skips the three header lines. Each later line is classified by the first of
eleven shapes that fits it:
- message header
- Korean date header
- English date header
- invite, join, leave, ban, share and shared notices
- the moderator's "message hidden" notice
- anything else, which is a continuation of the previous message

The pass threads a running context through the lines:
- the date of the last date header
- the speaker and time of the last message
- the line counter

It appends the records each line yields. The first line that throws gets one `Error`
record, one notification to the diagnostic sink, and the exception ends the pass.

Files:
- `wrappers.dfy`: `Option` and `Result`.
- `text.dfy`: the .NET string operations the parser uses. These are `Trim` (with the
  `char.IsWhiteSpace` set), `StartsWith`, `Contains`, `EndsWith`, `Split`, `Replace`
  with an empty replacement, and the integer parse of digit captures.
- `clock.dfy`: the `DateTime` constructor's range checks, the 12-hour to 24-hour
  conversion, and the `month_eng` table.
- `records.dfy`: `TalkState`, `Talk`, the failure causes and the record constructors
  the parser uses.
- `matching.dfy`: the outcome of the nine regular expressions on a line, and the `reg`
  helper as a loop.
- `classifier.dfy`: the if / else-if chain as `Classify`, and the effect of each shape
  as a function (`Step`). It also holds lemmas stating what each shape does and may
  touch.
- `parser.dfy`: the class `KakaoTalkParser`, with the title, `Talks` and `ParseStart`
  as a loop. It also holds the specification of the whole pass (`Drive`, `RunFrom`,
  `Run`) and the diagnostic sink `Monitor`.
- `properties.dfy`: properties of the whole pass.
  - Where Error records can be, and what a fatal error keeps and discards.
  - The line counter.
  - Every Append inherits its name and time from the latest Message.
  - The start-up clock reading never shows in the output.

`ParseStart`'s contract ties its list, its exception and its notification to `Run`. The
pass is proved against that specification. The properties are then proved about `Run`.
Some whole-pass lemmas are proved about `Drive` for any line step that meets a stated
per-line property, and are then applied to `Step`.

## Model

| member | source | states |
|---|---|---|
| Text.TrimStartSpec | kakaotalk-analyzer/Core/KakaoTalkParser.cs:113 | TrimStart removes exactly the leading white space: the result is a suffix of the input, the part cut off is all white space, and the result does not start with white space |
| Text.TrimEndSpec | kakaotalk-analyzer/Core/KakaoTalkParser.cs:113 | TrimEnd removes exactly the trailing white space: the result is a prefix, the part cut off is all white space, and the result does not end with white space |
| Text.Trim | kakaotalk-analyzer/Core/KakaoTalkParser.cs:113 | the trimmed string has no white space at either end, is no longer than the input, and has only characters of the input |
| Text.TrimKeepsCharacters | kakaotalk-analyzer/Core/KakaoTalkParser.cs:113 | trimming both ends leaves a trimmed string of input characters, no longer than the input |
| Text.TrimOfTrimmed | kakaotalk-analyzer/Core/KakaoTalkParser.cs:139-141 | trimming is idempotent: a trimmed string is unchanged by Trim |
| Text.TrimOfTrailingSpace | kakaotalk-analyzer/Core/KakaoTalkParser.cs:138 | Trim of a trimmed non-empty string followed by one white-space character gives the string back |
| Text.TrimSkipsSpace | kakaotalk-analyzer/Core/KakaoTalkParser.cs:139 | white space in front of a string does not change its Trim |
| Text.ContainsIff | kakaotalk-analyzer/Core/KakaoTalkParser.cs:132 | the left-to-right Contains scan holds exactly when the phrase occurs at some position |
| Text.Split | kakaotalk-analyzer/Core/KakaoTalkParser.cs:137 | Split gives at least one piece, no piece holds the separator, and joining the pieces with the separator gives back the input |
| Text.SplitJoin | kakaotalk-analyzer/Core/KakaoTalkParser.cs:137 | splitting a join of separator-free pieces gives the pieces back, empty pieces included |
| Text.RemoveAll | kakaotalk-analyzer/Core/KakaoTalkParser.cs:43 | deleting every occurrence of a non-empty pattern never lengthens the string |
| Text.RemoveAllAbsent | kakaotalk-analyzer/Core/KakaoTalkParser.cs:43 | a string without the pattern is left unchanged |
| Text.RemoveAllSuffix | kakaotalk-analyzer/Core/KakaoTalkParser.cs:43 | a pattern that occurs only at the very end is cut off, leaving the front part |
| Text.ToInt | kakaotalk-analyzer/Core/KakaoTalkParser.cs:97 | the numeric parse succeeds exactly on non-empty strings of decimal digits |
| Text.ToIntNatToString | kakaotalk-analyzer/Core/KakaoTalkParser.cs:121-123 | the parse reads back the decimal rendering of every natural number |
| Clock.DaysInMonth | kakaotalk-analyzer/Core/KakaoTalkParser.cs:107 | a month has 28 to 31 days, and 29 exactly for February in a Gregorian leap year |
| Clock.NewDateTime | kakaotalk-analyzer/Core/KakaoTalkParser.cs:107 | the DateTime constructor yields the value exactly when year, month, day, hour, minute and second are in range, and throws (None) otherwise |
| Clock.ZeroDateIsInvalid | kakaotalk-analyzer/Core/KakaoTalkParser.cs:71-73 | the initial running date 0-0-0 is rejected whatever the time |
| Clock.Hour24 | kakaotalk-analyzer/Core/KakaoTalkParser.cs:97-105 | an afternoon hour other than 12 gains 12; under any other marker 12 becomes 0; every other hour is kept |
| Clock.Hour24Range | kakaotalk-analyzer/Core/KakaoTalkParser.cs:97-105 | clock hours 1..12 convert into 0..23, and to at least 12 exactly under the afternoon marker |
| Clock.Hour24RoundTrip | kakaotalk-analyzer/Core/KakaoTalkParser.cs:97-105 | every 24-hour value is what the conversion gives for its own marker and 12-hour reading |
| Clock.Hour12RoundTrip | kakaotalk-analyzer/Core/KakaoTalkParser.cs:97-105 | under either marker and on hours 1..12 the conversion can be read back to the same marker and hour |
| Clock.MonthNumber | kakaotalk-analyzer/Core/KakaoTalkParser.cs:50-63 | the lookup succeeds exactly on the twelve English month names, and gives the month's position in the calendar |
| Clock.MonthNumberOfName | kakaotalk-analyzer/Core/KakaoTalkParser.cs:50-63 | each month number 1..12 is what the lookup gives for its own name |
| Matching.Groups | kakaotalk-analyzer/Core/KakaoTalkParser.cs:198-199 | a match always has group 0 |
| Matching.Reg | kakaotalk-analyzer/Core/KakaoTalkParser.cs:195-202 | reg gives the empty list for a failed match and groups 1.. in order for a successful one |
| Classifier.ClassifyIsFirstMatch | kakaotalk-analyzer/Core/KakaoTalkParser.cs:94-182 | a line has the k-th shape exactly when the k-th test of the chain holds and no earlier test does (first match wins) |
| Classifier.NatAt | kakaotalk-analyzer/Core/KakaoTalkParser.cs:121-123 | reading a numeric capture succeeds exactly when the capture exists and parses; otherwise it throws MissingCapture or NotANumber accordingly |
| Classifier.MessageHeader | kakaotalk-analyzer/Core/KakaoTalkParser.cs:94-117 | a message header succeeds exactly when well formed with a valid time. It then adds exactly one Message record with the current counter, the first capture as name, the trimmed last capture as content and the running date with the converted hour and minute as time, and sets the speaker and latest time to those. Otherwise it throws |
| Classifier.MessageBeforeDateHeader | kakaotalk-analyzer/Core/KakaoTalkParser.cs:107 | a message header before any date header always throws |
| Classifier.KoreanDateHeader | kakaotalk-analyzer/Core/KakaoTalkParser.cs:118-124 | a Korean date header adds no record and sets only year, month and day from captures 0, 1, 2; it throws exactly when one is missing or not a number |
| Classifier.EnglishDateHeader | kakaotalk-analyzer/Core/KakaoTalkParser.cs:125-131 | an English date header adds no record and sets year from capture 2, month through the table from capture 0, day from capture 1; a month name outside the table throws UnknownMonth |
| Classifier.DateHeaderFormsAgree | kakaotalk-analyzer/Core/KakaoTalkParser.cs:118-131 | a Korean and an English header naming the same date leave the same context, and that context holds the named date |
| Classifier.StripHonorific | kakaotalk-analyzer/Core/KakaoTalkParser.cs:138-141 | the corrected rule of the finding below, not used by the pass: the name is trimmed and made of the piece's characters; a piece whose trimmed form ends in 님 loses that character and is trimmed again, any other piece is just trimmed |
| Classifier.EnterAll | kakaotalk-analyzer/Core/KakaoTalkParser.cs:137-142 | one Enter record per piece, in order, each with the current counter and the name the parser computes from that piece (`StripHonorificAsWritten`) |
| Classifier.InviteNotice | kakaotalk-analyzer/Core/KakaoTalkParser.cs:132-146 | an invite leaves the context alone and throws exactly when the invited capture is missing. With a comma it adds one Enter record per comma-separated piece, in order, all with the current counter, each named by the piece stripped as the parser does it (comma-free and trimmed; a piece such as "Alice님 " keeps its 님). Without a comma it adds one Enter record holding the capture unchanged |
| Classifier.SingleNameNotice | kakaotalk-analyzer/Core/KakaoTalkParser.cs:147-171 | a join, leave, ban, share or shared notice adds exactly one record named by the first capture (join Enter, leave and ban Leave, both share forms Share), and throws exactly when that capture is missing |
| Classifier.HiddenNotice | kakaotalk-analyzer/Core/KakaoTalkParser.cs:172-175 | the moderator notice adds nothing, changes nothing and never throws |
| Classifier.Continuation | kakaotalk-analyzer/Core/KakaoTalkParser.cs:176-182 | an unclassified line succeeds exactly after a Message or Append record, adding an Append with the raw line, the running speaker and the latest time; after no record it throws NoPreviousTalk, after any other record NotAContinuation |
| Classifier.MessageStepFramed | kakaotalk-analyzer/Core/KakaoTalkParser.cs:107-116 | a message header's record is a valid-time Message with the new speaker and time, and it leaves the date alone |
| Classifier.MessageFramed | kakaotalk-analyzer/Core/KakaoTalkParser.cs:94-117 | the same frame, for a line of message shape |
| Classifier.DateFramed | kakaotalk-analyzer/Core/KakaoTalkParser.cs:118-131 | a date header adds no record and keeps speaker and latest time |
| Classifier.InviteFramed | kakaotalk-analyzer/Core/KakaoTalkParser.cs:132-146 | an invite's records are Enter records with the current counter, no time and no content, and the context is unchanged |
| Classifier.NoticeFramed | kakaotalk-analyzer/Core/KakaoTalkParser.cs:147-175 | the other notices add only non-Message, non-Append records with the current counter and no time or content, and change nothing in the context |
| Classifier.ContinuationFramed | kakaotalk-analyzer/Core/KakaoTalkParser.cs:176-182 | a continuation adds one Append with the running speaker and latest time and changes nothing in the context |
| Classifier.StepFrame | kakaotalk-analyzer/Core/KakaoTalkParser.cs:94-182 | every record a line adds carries its counter and is not an Error. Only a date header changes the date, and only a message header changes the speaker and latest time. Messages come only from message headers and have valid times, and Appends only from unclassified lines. Notice records carry no time and no content |
| Classifier.StepIgnoresClock | kakaotalk-analyzer/Core/KakaoTalkParser.cs:107-116 | apart from a continuation, no line reads the latest time: changing it changes neither the failure nor the records, and a message header overwrites it |
| Classifier.StripHonorificAsWritten | kakaotalk-analyzer/Core/KakaoTalkParser.cs:138-141 | the name the parser computes for an invited piece (test the trimmed piece for 님, cut the last character of the untrimmed one, trim) is trimmed and made only of the piece's characters |
| Classifier.HonorificKeptAsWritten | kakaotalk-analyzer/Core/KakaoTalkParser.cs:138-139 | for any trimmed non-empty name, the piece name + "님 " keeps its 님 as written, whereas the stripped name is the name |
| Classifier.StripAgreesWithoutTrailingSpace | kakaotalk-analyzer/Core/KakaoTalkParser.cs:138-141 | for a piece that does not end in white space, the computation as written and the corrected one agree |
| Parser.TitleOf | kakaotalk-analyzer/Core/KakaoTalkParser.cs:43 | the title is never longer than the first line |
| Parser.TitleOfExport | kakaotalk-analyzer/Core/KakaoTalkParser.cs:43 | a first line made of a name and " 님과 카카오톡 대화" gives the name as title, when the suffix does not also occur earlier |
| Parser.TitleWithoutSuffix | kakaotalk-analyzer/Core/KakaoTalkParser.cs:43 | a first line without the suffix is its own title |
| Parser.Thrown | kakaotalk-analyzer/Core/KakaoTalkParser.cs:188 | the pass throws exactly when it aborts |
| Parser.Notices | kakaotalk-analyzer/Core/KakaoTalkParser.cs:187 | the sink gets one notification exactly when the pass aborts, and none otherwise |
| Parser.Monitor.Push | kakaotalk-analyzer/Core/KakaoTalkParser.cs:187 | the sink records the notification it is given after the earlier ones |
| Parser.KakaoTalkParser.constructor | kakaotalk-analyzer/Core/KakaoTalkParser.cs:40-44 | the parser holds the lines and the title derived from the first line |
| Parser.KakaoTalkParser.ParseLine | kakaotalk-analyzer/Core/KakaoTalkParser.cs:92-183 | the body of the try block appends to Talks exactly the records Step gives and returns its context, or leaves Talks alone and returns its failure |
| Parser.KakaoTalkParser.ParseMessage | kakaotalk-analyzer/Core/KakaoTalkParser.cs:94-117 | the message branch, with the in-place hour conversion, does what MessageStep specifies |
| Parser.KakaoTalkParser.ParseDate | kakaotalk-analyzer/Core/KakaoTalkParser.cs:118-124 | the Korean date branch does what DateStep specifies |
| Parser.KakaoTalkParser.ParseDateEng | kakaotalk-analyzer/Core/KakaoTalkParser.cs:125-131 | the English date branch does what DateEngStep specifies |
| Parser.KakaoTalkParser.ParseInvite | kakaotalk-analyzer/Core/KakaoTalkParser.cs:132-146 | the invite branch does what InviteStep specifies |
| Parser.KakaoTalkParser.AddEnters | kakaotalk-analyzer/Core/KakaoTalkParser.cs:137-142 | the ForEach appends the Enter records of the pieces, one per piece, in order, after the existing records, each named as lines 138-141 compute it |
| Parser.KakaoTalkParser.AddNotice | kakaotalk-analyzer/Core/KakaoTalkParser.cs:147-171 | each single-name notice branch does what NoticeStep specifies |
| Parser.KakaoTalkParser.Continue | kakaotalk-analyzer/Core/KakaoTalkParser.cs:176-182 | the fallback branch, reading the last record, does what ContinueStep specifies |
| Parser.KakaoTalkParser.ParseStart | kakaotalk-analyzer/Core/KakaoTalkParser.cs:67-190 | the loop leaves in Talks the records of the whole pass, throws the pass's failure if any, and sends exactly the pass's notification to the sink |
| Properties.StepIsClean | kakaotalk-analyzer/Core/KakaoTalkParser.cs:94-182 | no line that succeeds adds an Error record, and all its records carry its counter |
| Properties.DriveOutcome | kakaotalk-analyzer/Core/KakaoTalkParser.cs:89-189 | the pass only appends. A completed pass holds no Error record. An aborted one stops at a consumed line and names it, and its records end with that line's single Error record |
| Properties.FatalErrorEndsPass | kakaotalk-analyzer/Core/KakaoTalkParser.cs:184-189 | a pass either completes with no Error record, or aborts at some line from position 3 on with exactly one Error record, the last, carrying that line's counter, and the sink gets that line |
| Properties.DriveKeepsPrefix | kakaotalk-analyzer/Core/KakaoTalkParser.cs:184-189 | dropping the Error record of an aborted pass gives exactly the completed pass over the lines before the offending one |
| Properties.AbortedPassKeepsPrefix | kakaotalk-analyzer/Core/KakaoTalkParser.cs:184-189 | a fatal error keeps every record produced before it, and nothing else |
| Properties.DriveStopsAtFailure | kakaotalk-analyzer/Core/KakaoTalkParser.cs:188 | two transcripts that agree up to the offending line give the same aborted pass |
| Properties.AbortedPassIgnoresLaterLines | kakaotalk-analyzer/Core/KakaoTalkParser.cs:188 | whatever follows the offending line is never looked at |
| Properties.AppendSorted | kakaotalk-analyzer/Core/KakaoTalkParser.cs:89 | appending records whose counter is at least every earlier one keeps the list ordered by counter |
| Properties.DriveIndices | kakaotalk-analyzer/Core/KakaoTalkParser.cs:70-89 | the line at position i carries counter i - 2, so records stay ordered by counter and within the counters of the consumed lines |
| Properties.CountersOrdered | kakaotalk-analyzer/Core/KakaoTalkParser.cs:70-89 | record counters start at 1 for line 3, never decrease, and never exceed the last line's counter |
| Properties.StepKeepsCoherent | kakaotalk-analyzer/Core/KakaoTalkParser.cs:107-116 | after every line, the running speaker and latest time are those of the last record when that is a Message or an Append |
| Properties.StepKeepsChained | kakaotalk-analyzer/Core/KakaoTalkParser.cs:176-179 | every line keeps each Append right after a Message or Append with the same name and time, and keeps Message and Append times valid and all other times MinValue |
| Properties.ContinuationKeepsChained | kakaotalk-analyzer/Core/KakaoTalkParser.cs:176-179 | the same, for a continuation line |
| Properties.AppendFramed | kakaotalk-analyzer/Core/KakaoTalkParser.cs:108-170 | records of any shape other than a continuation hold no Append and keep the chain |
| Properties.StepKeepsInvariant | kakaotalk-analyzer/Core/KakaoTalkParser.cs:94-182 | every line keeps the three facts above together |
| Properties.DriveChained | kakaotalk-analyzer/Core/KakaoTalkParser.cs:89-189 | the chain and the times hold of every record list a pass produces, the Error record of an aborted pass included |
| Properties.AppendTraceBack | kakaotalk-analyzer/Core/KakaoTalkParser.cs:178-179 | walking back from any Append over the Appends before it reaches a Message with the same name and time |
| Properties.AppendInheritsMessage | kakaotalk-analyzer/Core/KakaoTalkParser.cs:178-179 | every Append in the output has the name and time of the most recent Message: the one that starts its run of Appends |
| Properties.RecordTimes | kakaotalk-analyzer/Core/KakaoTalkParser.cs:107-186 | every Message and Append time in the output is a valid DateTime, and every other record holds MinValue |
| Properties.RunFromIgnoresClock | kakaotalk-analyzer/Core/KakaoTalkParser.cs:76-179 | two passes whose contexts differ only in a latest time no record has shown yet agree completely |
| Properties.OutcomeIgnoresClock | kakaotalk-analyzer/Core/KakaoTalkParser.cs:76 | the clock reading the pass starts with never shows in its records, its exception or its notification |

## Left out

- Reading the file (`File.ReadAllLines`, line 42). The parser takes the transcript as a
  sequence of lines.
- The constructor requires a non-empty transcript. On an empty file the source throws
  when it reads `lines[0]` for the title. The model does not form a parser in that case.
- Regular-expression matching (lines 78-87). Each line comes with the outcome of every
  pattern on it (`ScannedLine`). The `StartsWith` and `Contains` guards are modelled
  on the line's text (see the next lines on comparison); the captures are taken as given. The two date tests `Match(line).Success`
  become `Matched?` of the same outcome that `reg` then reads.
- Text.ToInt: the integer extension is not part of this model. The model parses
  non-empty decimal digit strings as unbounded naturals and rejects anything else. It
  does not model 32-bit overflow, signs or surrounding white space. The captures it
  reads are `\d+` groups.
- The exception messages, the stack trace and the log text sent to
  `Monitor.Instance.Push` (lines 186-187). An Error record's content is the failure
  cause (`Diagnostic`), and the sink records the offending line's text with that cause.
- `DateTime.Now` (line 76): the clock reading is the parameter `now` of `ParseStart`.
  `Properties.OutcomeIgnoresClock` shows the outcome does not depend on it.
- `DateTime` beyond the constructor's range checks. There is no tick arithmetic, no
  time zone and no culture.
- Culture-sensitive comparison. `String.StartsWith(string)` (lines 118 and 125) and
  `String.EndsWith("님")` (line 138) use the current culture; the model compares them
  ordinally, character by character. A culture-sensitive comparison ignores zero-weight
  characters anywhere in the line and matches composed against decomposed Hangul, so
  the two can differ: a soft hyphen (U+00AD) before the dashes makes the source's
  `StartsWith` true and the model's false. The model agrees with the source on lines
  without ignorable characters and without decomposed Hangul. `String.Contains(string)`,
  `Contains(char)` and `Split(char)` are ordinal in .NET, and the model's are exact.
- The `lines = null` release after a completed pass (line 192). `lines` is a constant
  field. What a second `ParseStart` call would then do (a null dereference) is not
  modelled.
- `Talks` is null until `ParseStart` runs. The model starts it empty.
- `Name` and `Content` of records the source leaves unset are `None` and `Absent`.
  `Time` left unset is `MinValue`.

## Findings

| source | as written | input that shows it | evidently intended | confidence | as-written member | corrected member |
|---|---|---|---|---|---|---|
| kakaotalk-analyzer/Core/KakaoTalkParser.cs:138-139 | the trimmed piece is tested for a trailing 님, but the last character of the untrimmed piece is removed, then the result is trimmed | the invited list "Alice님 ,Bob": its piece "Alice님 " ends in a space, so the space is removed and the name stays "Alice님" | remove the 님 from the trimmed piece, so the name is "Alice" | not executed | Classifier.HonorificKeptAsWritten | Classifier.StripHonorific |

`Classifier.StripHonorificAsWritten` models the computation as written.
`Classifier.HonorificKeptAsWritten` shows, for every trimmed non-empty name, that the
piece name + "님 " keeps its 님 under the code as written and loses it under the
corrected rule. The pass uses the computation as written (`Classifier.EnterAll` and
`Parser.KakaoTalkParser.AddEnters`), so its records are the source's; the corrected
`Classifier.StripHonorific` stands beside it only as the evidently intended rule.
`Classifier.StripAgreesWithoutTrailingSpace` proves that the two agree on every piece
that does not end in white space: the two differ only on lists written with white
space before a comma, such as "A님 ,B님", or after the last name.
