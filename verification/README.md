# Verified model of the iperf engine inside Sparxie

Sparxie runs a vendored iperf 3 behind a small Android and iOS layer. This Dafny project models the parts of it whose
correctness is hard to see from any one function, and proves what they promise.

| file | what it models |
|---|---|
| Bytes, JsonText, JsonGrammar | C strings; JSON trees, the text cJSON prints for them and the grammar its parser accepts |
| RoundTrip | printing and parsing undo each other |
| Numerals, JsonForms, JsonLanguage | the decimal numerals, the printed forms and the accepted language, stated apart from printer and parser |
| JsonParser | the parse buffer, and the two passes over a string |
| Unicode | what strings denote: UTF-8 and surrogate pairs |
| JsonPrinter | the print buffer, growing or fixed |
| JsonMinify | the in-place minifier |
| ChildList | items on the heap: the circular child list, the chains the parser builds, deep copies |
| Compare | cJSON_Compare against equality up to member order |
| Framing | length-prefixed JSON over a stream that cuts, interrupts and fails reads and writes |
| IperfTime, Timers, TimerRun | time stamps, the two timer lists, and tmr_run over callbacks that reset timers |
| Udp | sequence numbers and the three loss counters |
| Streams, Results | pairing of data streams, and the exchange of results |
| Protocol, ProtocolProof, Conversation | the control conversation as two processes over FIFO channels, all its runs, and the two ends as objects |
| NativeSession, SessionRuntime, SessionExecutor | ownership of native tests under the JNI layer, the Kotlin runtime and the Swift executor |

`dafny verify dfyconfig.toml` checks everything.

How to read the model. Code that changes things step by step is a class or a method with a loop, proved against a
function of the old state; what the source promises is then proved of that function. The control conversation and the
session layers are state machines over their critical sections and single reads and writes, so that "every run" means
every interleaving; the classes beside them are the handlers and sections as field updates, and their Drive methods take
such objects through any run. Two places write C bit masks as arithmetic; ContinuationMask and SurrogateMask justify that
on 32-bit words.

What the proofs found, with the condition under which the code does meet the property:

- Minifying the pretty text is not always the compact text: a string that ends in a backslash misleads minify_string when
  another quote follows (MinifyPretty, BackslashMisleads).
- A fixed print buffer needs exactly two bytes more than the text; the header advises five (PrintPreallocated).
- cJSON_Compare is neither reflexive nor sound on objects with repeated keys (RepeatedKeysMislead). Reflexivity has its exact
  condition (AlikeIsReflexive); what it decides is equality once repeated members are dropped (AlikeIsEquivOfFirsts),
  which is plain equality when keys are distinct (AlikeIsEquiv). It takes some different integers from 2^52 on for equal
  (NumbersToldApart).
- JSON_write takes any count for success, so an interrupted write can cut a frame, or its length, unreported
  (JsonWrite, CutFrameIsReported).
- A frame of 2^31 to 2^32 bytes is written whole but reported as a failure, and never read back, because the counts are
  ints (Writing, FrameRoundTrip).
- An omit timer that resets the timer next in line ends the turn of tmr_run with other timers due (Run says when, EndIsPassedOver).
- The ends of a data connection agree on its id exactly if connections are accepted in the order they are made (Establish).
- A duplicated datagram hides a loss when one is counted (StaysExact, DuplicateHidesLoss).
- A server that sends reports, after reading, the client's loss count as its own "errors"; the client ignores it (Exchange,
  LossIsEchoed).
- When the native run throws, the Android runtime leaves a prepared test and a stop request behind for the next session
  (StartIsClean, ThrowLeaks, StopLeaks).
- The retry loop of the iOS executor can outlive its session and interrupt the next one (LoopOutlivesSession, LoopLeftBehind).
- A stop that arrives after the worker has read the flag leaves the session Stopping and then Finished or Failed
  (StopIsHonoured).

The standards behind the string model are section 7 of RFC 8259, section 3 of RFC 3629 and section 2.2 of RFC 2781.

## Model

| member | source | states |
|---|---|---|
| RoundTrip.ParseUndoesPrint | native/iperf3/src/cjson.c:1323-1836 | the compact or the pretty text of a tree parses back to that tree and is consumed exactly when numbers are integers within 2^53, strings have no NUL and at most 1000 levels nest; among trees with such numbers this holds if and only if no string has a NUL and no more than 1000 levels nest |
| RoundTrip.ReparseIsStable | native/iperf3/src/cjson.c:1090-1836 | whatever text a tree was parsed from, printing and parsing it again in either form gives the same tree |
| RoundTrip.ParsesValue | native/iperf3/src/cjson.c:1323-1449 | the text of a value, wherever it stands in a buffer and at any depth that still fits, is parsed back whole |
| RoundTrip.ParsesString | native/iperf3/src/cjson.c:784-1032 | a printed string, with every escape the printer uses, is parsed back whole |
| RoundTrip.ParsesNumber | native/iperf3/src/cjson.c:316-623 | a printed integer within 2^53 is parsed back whole |
| RoundTrip.ParsedFits | native/iperf3/src/cjson.c:1323-1722 | what the parser returns nests no deeper than its limit and holds exact integers and NUL-free strings |
| Numerals.DigitsPlaced | native/iperf3/src/cjson.c:575-578 | the digits printed for n are those of its decimal numeral: the one at place i is n divided by the power of ten of that place, modulo ten, and no leading zero unless n is zero |
| Numerals.ValuePlaced | native/iperf3/src/cjson.c:316-371 | the value read from a run of digits is the one in whose numeral every digit has its place, and stays below the power of ten of its length |
| Numerals.DecimalWrites | native/iperf3/src/cjson.c:575-623 | the text printed for n writes n in decimal, with a minus exactly when n is negative |
| Numerals.NumberReads | native/iperf3/src/cjson.c:316-390 | a number the parser reads is the one its token writes in decimal |
| JsonForms.ScalarsSpelled | native/iperf3/src/cjson.c:1378-1432 | null, true and false are printed as these words, a string between quotes with its bytes escaped one by one |
| JsonForms.EscapesSpelled | native/iperf3/src/cjson.c:985-1027 | which bytes are escaped and how: quote, backslash, the five short escapes, other bytes below 32 as \u00 and two hexadecimal digits, all others as they are |
| JsonForms.EscapesJoin | native/iperf3/src/cjson.c:985-1027 | the escaped string is the join of the escapes of its bytes, in order |
| JsonForms.ArraySpelled | native/iperf3/src/cjson.c:1550-1609 | an array is printed as the texts of its items joined by commas, between brackets, with a blank behind each comma in the pretty form |
| JsonForms.ObjectSpelled | native/iperf3/src/cjson.c:1725-1836 | an object is printed as its quoted keys, colons and values joined by commas between braces, and in the pretty form with a tab behind each colon and each member on a line of its own, indented by its depth |
| JsonForms.UnescapesSpelled | native/iperf3/src/cjson.c:845-885 | the byte each short escape stands for; no other byte makes one |
| JsonForms.HexSpelled | native/iperf3/src/cjson.c:626-660 | the value of each hexadecimal digit in either case |
| JsonForms.PlainStrings | native/iperf3/src/cjson.c:784-898 | between quotes any bytes but quotes and backslashes stand for themselves, up to a NUL; without the second quote there is no string |
| JsonForms.UnknownEscapes | native/iperf3/src/cjson.c:845-885 | an escape of no known letter spoils the string, whatever follows |
| JsonForms.ShortHex | native/iperf3/src/cjson.c:663-677 | so does \u with fewer than four bytes before the quote |
| JsonForms.NotHex | native/iperf3/src/cjson.c:626-724 | \u with four bytes that are not all hexadecimal stands for U+0000, so the string ends there for its C readers |
| JsonForms.MarkIsSkipped | native/iperf3/src/cjson.c:1074-1088 | text behind a byte-order mark parses as it does without the mark, three bytes further on, if it does not itself begin with one |
| JsonLanguage.LanguageIsExact | native/iperf3/src/cjson.c:1090-1722 | the parser answers a value ending at k exactly if the text, after a mark and white space, spells that value up to k by the JSON grammar given as a relation, the nesting limit included |
| JsonLanguage.ReadIsSpelled | native/iperf3/src/cjson.c:1323-1722 | what is read as a value is spelled by the bytes consumed |
| JsonLanguage.SpelledIsRead | native/iperf3/src/cjson.c:1323-1722 | what spells a value within the nesting limit is read as that value to its end |
| JsonParser.ParseText | native/iperf3/src/cjson.c:1090-1183 | parsing a NUL-terminated text, byte-order mark and leading white space included, returns what the grammar says and stops where it says; a text that is a number gives the integer it writes in decimal |
| JsonParser.ParseBuffer.SkipWhitespace | native/iperf3/src/cjson.c:1049-1072 | the offset moves to the first byte that is not white space, or back onto the last byte |
| JsonParser.ParseBuffer.ParseItem | native/iperf3/src/cjson.c:1323-1375 | the offset and depth machine of parse_value refines the recursive grammar, and restores the depth on success |
| JsonParser.ParseBuffer.ParseElements | native/iperf3/src/cjson.c:1486-1524 | the element loop of parse_array gives the items of the grammar |
| JsonParser.ParseBuffer.ParseArray | native/iperf3/src/cjson.c:1452-1547 | parse_array refines the grammar, the nesting limit and the empty array included |
| JsonParser.ParseBuffer.ParseName | native/iperf3/src/cjson.c:1668-1684 | the name and the colon of a member are read as the grammar says |
| JsonParser.ParseBuffer.ParsePairs | native/iperf3/src/cjson.c:1644-1700 | the member loop of parse_object gives the members of the grammar, in order, repeated keys kept |
| JsonParser.ParseBuffer.ParseObject | native/iperf3/src/cjson.c:1612-1722 | parse_object refines the grammar, the nesting limit and the empty object included |
| JsonParser.ParseBuffer.ParseNumberToken | native/iperf3/src/cjson.c:316-390 | a token of digits and an optional minus becomes the integer it writes in decimal; other number tokens are outside the model |
| JsonParser.ParseBuffer.ParseStringLiteral | native/iperf3/src/cjson.c:784-910 | the two passes together give the decoded string, or fail as the grammar does |
| JsonParser.ParseBuffer.FirstPass | native/iperf3/src/cjson.c:797-828 | the first pass stops at the first unescaped quote and its count is the size it allocates |
| JsonParser.ParseBuffer.SecondPass | native/iperf3/src/cjson.c:830-888 | the second pass stays inside that allocation, writes the decoded bytes and their NUL, and fails exactly when decoding does |
| JsonParser.QuoteNotEscaped | native/iperf3/src/cjson.c:801-815 | the closing quote of the first pass never stands behind a backslash that escapes it |
| JsonParser.SecondPassFits | native/iperf3/src/cjson.c:797-885 | from every position the second pass may reach, also out of step with the first after a \u without hexadecimal digits, what it still writes fits what was reserved |
| JsonParser.OutputFitsAllocation | native/iperf3/src/cjson.c:821-888 | the output of parse_string and its NUL are smaller than the allocation, for every input |
| JsonParser.SecondPassStays | native/iperf3/src/cjson.c:830-885 | the second pass reads nothing behind the closing quote: contents that agree up to it, whatever follows, decode alike, from every position |
| JsonParser.WriteUtf8 | native/iperf3/src/cjson.c:726-775 | the backward loop writes exactly the UTF-8 bytes of the code point and nothing before them |
| JsonParser.ContinuationMask | native/iperf3/src/cjson.c:762 | the mask of a continuation byte, as arithmetic |
| JsonParser.SurrogateMask | native/iperf3/src/cjson.c:718 | the combination of a surrogate pair, as arithmetic |
| Unicode.StringsDecode | native/iperf3/src/cjson.c:663-896 | a literal of UTF-8 text, short escapes and \uXXXX is rejected exactly when a surrogate stands alone; otherwise the bytes written are well-formed UTF-8 (section 3 of RFC 3629) for exactly the scalar values denoted, pairs combined as in section 2.2 of RFC 2781 |
| Unicode.EncodingReadsBack | native/iperf3/src/cjson.c:726-775 | the bytes written for any scalar values are well-formed UTF-8 and read back as those values |
| Unicode.DecodingIsInjective | native/iperf3/src/cjson.c:726-775 | every well-formed byte sequence is the one written for its scalar values |
| Unicode.StandardExamples | native/iperf3/src/cjson.c:695-775 | the examples of section 7 of RFC 3629 and section 2 of RFC 2781 |
| JsonPrinter.Print | native/iperf3/src/cjson.c:1198-1271 | cJSON_Print and cJSON_PrintUnformatted return the text of the tree and its NUL in a block of exactly that size; for a number that is its decimal numeral, with a minus exactly when it is negative |
| JsonPrinter.PrintBuffered | native/iperf3/src/cjson.c:1273-1301 | every nonnegative starting size gives the same text; a negative one gives nothing |
| JsonPrinter.PrintPreallocated | native/iperf3/src/cjson.c:1303-1320 | a fixed buffer is enough exactly when it has two bytes more than the text; then it holds the text, and never is a byte behind the place of the NUL touched |
| JsonPrinter.PrintBuffer.Ensure | native/iperf3/src/cjson.c:450-533 | after success the bytes asked for and one more are free; what was printed is kept; only a growing buffer is replaced |
| JsonPrinter.PrintBuffer.UpdateOffset | native/iperf3/src/cjson.c:536-546 | the offset moves to the NUL behind what was printed |
| JsonPrinter.PrintBuffer.EscapedLength | native/iperf3/src/cjson.c:940-964 | the counting loop gives the exact length of the escaped string |
| JsonPrinter.PrintBuffer.WriteEscaped | native/iperf3/src/cjson.c:985-1027 | the copying loop writes exactly the escaped string, inside the room reserved |
| JsonPrinter.PrintBuffer.PrintStringPtr | native/iperf3/src/cjson.c:913-1032 | the quoted text of the string is appended behind what was there, or a fixed buffer is too small |
| JsonPrinter.PrintBuffer.PrintValue | native/iperf3/src/cjson.c:1378-1449 | the text of the value is appended behind what was there; each write stays inside what its ensure call reserved; a fixed buffer fails exactly when text and two bytes do not fit |
| JsonPrinter.PrintBuffer.PrintArray | native/iperf3/src/cjson.c:1550-1609 | the same for arrays |
| JsonPrinter.PrintBuffer.PrintItems | native/iperf3/src/cjson.c:1573-1597 | the element loop appends the items and their separators |
| JsonPrinter.PrintBuffer.PrintMember | native/iperf3/src/cjson.c:1754-1813 | one turn of the member loop appends indentation, key, colon, value and separator |
| JsonPrinter.PrintBuffer.PrintMembers | native/iperf3/src/cjson.c:1752-1816 | the member loop appends the members |
| JsonPrinter.PrintBuffer.PrintObject | native/iperf3/src/cjson.c:1725-1836 | the same for objects |
| JsonPrinter.TextNulFree | native/iperf3/src/cjson.c:1378-1836 | no printed text holds a NUL, so a C reader sees all of it |
| JsonMinify.MinifyPretty | native/iperf3/src/cjson.c:2800-2895 | minifying the pretty text of a tree gives its compact text exactly when no key and no string ends in a backslash, save one string that is printed last, inside arrays only |
| JsonMinify.BackslashMisleads | native/iperf3/src/cjson.c:2827-2847 | a two-element array for which it does not |
| JsonMinify.MinifyTwice | native/iperf3/src/cjson.c:2849-2895 | minifying twice is minifying once, for every input |
| JsonMinify.BytesMinified | native/iperf3/src/cjson.c:2852-2890 | the four white-space bytes go; any byte but a slash or a quote stays |
| JsonMinify.LineCommentGoes | native/iperf3/src/cjson.c:2800-2811 | a line comment goes with its newline, or with all that follows when there is none |
| JsonMinify.BlockCommentGoes | native/iperf3/src/cjson.c:2813-2825 | a block comment goes with its end, or with all that follows when it has none |
| JsonMinify.LoneSlashGoes | native/iperf3/src/cjson.c:2869-2880 | a slash that opens no comment goes alone |
| JsonMinify.StringStays | native/iperf3/src/cjson.c:2827-2847 | a string stays as it is up to its closing quote, white space and slashes included |
| JsonMinify.Minify | native/iperf3/src/cjson.c:2849-2895 | in place the C string becomes its minified form; the write index never passes the read index and nothing behind the string is touched |
| JsonMinify.MinifyString | native/iperf3/src/cjson.c:2827-2847 | a string is copied up to its closing quote by the rule of minify_string |
| JsonMinify.SkipSlash | native/iperf3/src/cjson.c:2869-2880 | a comment is skipped, or a lone slash |
| JsonMinify.SkipLine | native/iperf3/src/cjson.c:2800-2811 | a line comment is skipped behind its newline, or to the end |
| JsonMinify.SkipComment | native/iperf3/src/cjson.c:2813-2825 | a block comment is skipped behind its end, or to the end of input |
| Framing.Sending | native/iperf3/src/net.c:649-680 | however the kernel answers the writes, a result that is no error is the 32-bit int of the number of bytes out; with less than all out it is one only after an interruption |
| Framing.CountIsTold | native/iperf3/src/net.c:649-680 | below 2^31 bytes that result is the number itself, and all of them exactly if all are out |
| Framing.FirstFailure | native/iperf3/src/net.c:653-680 | the first answer that is no count ends the write: with the count when it is an interruption after the first byte, a soft error for a full buffer or nothing written, a hard error otherwise |
| Framing.NoFailure | native/iperf3/src/net.c:653-680 | without one the whole goes out and its count is returned |
| Framing.Nwrite | native/iperf3/src/net.c:649-680 | the write goes as Sending says, and what goes out is that prefix of the buffer |
| Framing.Nread | native/iperf3/src/net.c:415-505 | the bytes come in order, their number returned as a 32-bit int; fewer than asked for only when the peer closes first or a read is interrupted, times out or fails, and the error code only for a failure |
| Framing.LengthRoundTrip | native/iperf3/src/iperf_api.c:3008-3059 | the four length bytes give the length back |
| Framing.OctetsPlaced | native/iperf3/src/iperf_api.c:3014-3046 | the most significant octet of the length comes first, both ways |
| Framing.FrameSpelled | native/iperf3/src/iperf_api.c:3008-3029 | a frame is four such octets with the length of the text, and the text |
| Framing.Writing | native/iperf3/src/iperf_api.c:3008-3029 | a whole frame is reported as a success exactly if its length is below 2^31; with success a frame is cut only if a write was interrupted |
| Framing.LengthFails | native/iperf3/src/iperf_api.c:3019-3024 | a write that fails inside the length bytes is reported, and nothing of the text goes out |
| Framing.TextFails | native/iperf3/src/iperf_api.c:3019-3026 | one that fails inside the text is reported, unless it is an interruption after the first byte of the text |
| Framing.JsonWrite | native/iperf3/src/iperf_api.c:3008-3029 | the length of the compact text and the text itself are put on the stream, whole when no write fails and otherwise as Writing says |
| Framing.JsonRead | native/iperf3/src/iperf_api.c:3034-3091 | however the reads go, the answer is what the bytes say or a failure: zero and capped lengths, short reads, lengths from 2^31 on and bad texts are refused, and otherwise the tree of the text is returned |
| Framing.RefusedFrames | native/iperf3/src/iperf_api.c:3050-3090 | a frame over the cap is refused for its length, and its text stays on the stream |
| Framing.CutFrames | native/iperf3/src/iperf_api.c:3047-3080 | a frame of which the end never comes is refused |
| Framing.CutFrameIsReported | native/iperf3/src/net.c:653-680 | a write interrupted inside the length bytes: the frame is cut, the text follows, and success is reported |
| Framing.FrameRoundTrip | native/iperf3/src/iperf_api.c:3008-3091 | a framed value is read back and nothing behind it consumed, exactly when its length is below 2^31 and respects the cap |
| Framing.ManyFrames | native/iperf3/src/iperf_api.c:3008-3091 | any number of such frames in a row are read back one by one |
| ChildList.Item.GetItem | native/iperf3/src/cjson.c:1862-1879 | the walk gives the child at the index, or nothing |
| ChildList.Item.Append | native/iperf3/src/cjson.c:1967-1998 | the sequence of children gains the item at its end; the list stays linked, its first prev the last item, unless the item had a successor of its own, into which the chain then runs on |
| ChildList.Item.Detach | native/iperf3/src/cjson.c:2198-2232 | the sequence loses exactly that item, which is left without links |
| ChildList.Item.DetachAt | native/iperf3/src/cjson.c:2234-2242 | the same by index; a bad index changes nothing |
| ChildList.Item.InsertAt | native/iperf3/src/cjson.c:2274-2301 | the item is inserted at the index whatever its links were, or appended behind the last |
| ChildList.Item.Replace | native/iperf3/src/cjson.c:2303-2350 | the sequence has the replacement in the place of the item |
| ChildList.Item.ReplaceAt | native/iperf3/src/cjson.c:2352-2360 | the same by index |
| ChildList.Fill | native/iperf3/src/cjson.c:1323-1722 | what parsing a value leaves behind: a fresh, disjoint tree of linked items that stands for the value |
| ChildList.TreeMeans | native/iperf3/src/cjson.c:1862-1879 | the value a tree of items stands for: its children in order, with their names |
| ChildList.FillChain | native/iperf3/src/cjson.c:1486-1534 | the chain the parser loops build, closed by the head's prev, is the sequence of its items |
| ChildList.Duplicate | native/iperf3/src/cjson.c:2717-2798 | a recursive copy is a disjoint tree with the same value, kind and name; a shallow one is a bare item |
| ChildList.DuplicateChildren | native/iperf3/src/cjson.c:2756-2786 | the copying loop crosswires one copy for every child, in order |
| Compare.Compare | native/iperf3/src/cjson.c:2997-3120 | the walk answers yes wherever Alike holds or both are one item, and otherwise no, when the trees share no item or no object repeats a key |
| Compare.CompareArrays | native/iperf3/src/cjson.c:3055-3077 | arrays are compared item by item and by length |
| Compare.CompareObjects | native/iperf3/src/cjson.c:3083-3112 | either loop over two objects decides whether one covers the other, under the same condition |
| Compare.CompareMember | native/iperf3/src/cjson.c:3084-3096 | one turn: the value is compared with that of the first member with the same key |
| Compare.GetObjectItem | native/iperf3/src/cjson.c:1891-1921 | the first member with the key is found, case counting or not |
| Compare.Seek | native/iperf3/src/cjson.c:1900-1914 | the walk stops at the first match, or at a nameless child when case counts |
| Compare.CaseInsensitiveStrcmp | native/iperf3/src/cjson.c:144-165 | zero exactly for C strings equal up to case |
| Compare.LowerIs | native/iperf3/src/cjson.c:144-165 | two bytes count as equal without case exactly if they are equal or one is the capital of the other |
| Compare.NumbersToldApart | native/iperf3/src/cjson.c:549-553 | which integers within 2^53 the tolerance takes for equal: below 2^52 only equal ones |
| Compare.AlikeIsSymmetric | native/iperf3/src/cjson.c:2997-3120 | the comparison is symmetric, for all trees |
| Compare.AlikeIsEquiv | native/iperf3/src/cjson.c:2997-3120 | with pairwise distinct keys, trees equal up to a permutation of members and key case compare equal; when all numbers are below 2^52 only such trees do |
| Compare.EquivIsEquality | native/iperf3/src/cjson.c:2997-3120 | without objects that relation is plain equality |
| Compare.EquivOfMembers | native/iperf3/src/cjson.c:2997-3120 | on objects of such values it is that the members are the same multiset |
| Compare.EquivOfKeys | native/iperf3/src/cjson.c:2997-3120 | and keys may differ in case exactly when case does not count |
| Compare.AlikeIsReflexive | native/iperf3/src/cjson.c:2997-3120 | a value compares equal to a copy of itself exactly when, inside every array and object, the first member with each key does so and every later one with that key compares equal to the first |
| Compare.DistinctIsConsistent | native/iperf3/src/cjson.c:2997-3120 | distinct keys are enough for that |
| Compare.AlikeIsTransitive | native/iperf3/src/cjson.c:2997-3120 | with numbers below 2^52 the comparison is transitive, repeated keys or not |
| Compare.FirstsAreAlike | native/iperf3/src/cjson.c:3083-3112 | a value equal to its own copies compares equal to what is left when all but the first member of each key are dropped |
| Compare.AlikeIsEquivOfFirsts | native/iperf3/src/cjson.c:2997-3120 | what the comparison decides with repeated keys: such values, with numbers below 2^52, compare equal exactly if they are equal up to member order and key case once all but the first member of each key are dropped, at every level |
| Compare.RepeatedKeysMislead | native/iperf3/src/cjson.c:3083-3112 | with repeated keys a value may differ from its own copy, and a repeated member may go unnoticed |
| IperfTime.AddIsExact | native/iperf3/src/iperf_time.c:92-99 | the sum is that of the instants modulo 2^32 seconds, hence exact if and only if it stays below |
| IperfTime.WholeRanges | native/iperf3/src/iperf_time.c:92-99 | what a wrapped instant loses is a whole number of times 2^32 seconds |
| IperfTime.CompareIsOrder | native/iperf3/src/iperf_time.c:121-132 | on clock readings the comparison is the order of instants |
| IperfTime.DiffIsDistance | native/iperf3/src/iperf_time.c:143-174 | the difference is the distance of the instants, and the flag says which is later |
| Timers.Scheduler.ListAdd | native/iperf3/src/timer.c:61-96 | the timer goes behind every timer due no later, so the list stays linked and sorted and equal deadlines keep their order |
| Timers.Scheduler.ListRemove | native/iperf3/src/timer.c:100-108 | the list loses exactly that timer |
| Timers.Scheduler.Resort | native/iperf3/src/timer.c:112-118 | a timer with a new deadline moves to the slot of that deadline |
| Timers.Scheduler.Create | native/iperf3/src/timer.c:122-150 | a timer due in the interval, modulo 2^32 seconds, is active and in its slot; it comes from the free list when that is not empty |
| Timers.Scheduler.Timeout | native/iperf3/src/timer.c:154-173 | the wait is the least over all active timers of the time to their deadlines, zero for those past |
| Timers.WaitIs | native/iperf3/src/timer.c:158-168 | the wait for a deadline ends at the deadline, and is none for one that is past |
| Timers.Scheduler.Reschedule | native/iperf3/src/timer.c:191-195 | a periodic timer moves on by its interval, modulo 2^32 seconds, and to its new slot |
| Timers.Scheduler.Reset | native/iperf3/src/timer.c:203-211 | the timer is due one interval from now, modulo 2^32 seconds, and in its slot |
| Timers.Scheduler.Cancel | native/iperf3/src/timer.c:215-223 | the timer leaves the active list for the head of the free list |
| Timers.Scheduler.Cleanup | native/iperf3/src/timer.c:227-236 | the free list is emptied |
| Timers.Scheduler.Destroy | native/iperf3/src/timer.c:240-245 | both lists are emptied |
| Timers.Drive | native/iperf3/src/timer.c:122-245 | over any sequence of these operations every timer ever made is active, on the free list, or freed, and only one of these; destroyed at the end, all are freed |
| TimerRun.Run | native/iperf3/src/timer.c:177-199 | it ends; each callback is of the successor saved before; nothing fires early or out of deadline order; one-shots fire at most once and just they go to the free list; no timer is lost; what fired was due, and what was due fired, unless an omit callback reset it, or reset the timer next in line: then the walk stops there. Exactly the due timers fire when no omit timer is due or there is nothing for it to reset; only one fires when a due omit timer heads the list and one it resets is next. The test is done afterwards exactly if it was before or an end-of-test timer fired, and omitting exactly if it was and no omit timer fired |
| TimerRun.EndIsPassedOver | native/iperf3/src/timer.c:183-198 | a list on which it does stop there: the omit timer resets the statistics timer next in line, and the end of the test, due by now, does not fire; the next wait is zero |
| TimerRun.RunOne | native/iperf3/src/timer.c:186-197 | one turn: callback, then rescheduled or cancelled; the walk goes on at the saved successor with all later timers ahead but those reset, unless the successor is one of them |
| TimerRun.CostsFall | native/iperf3/src/timer.c:183-198 | each turn lowers a count, so the walk ends whenever intervals are at least a microsecond |
| TimerRun.Once | native/iperf3/src/timer.c:183-198 | a timer that fired twice is periodic |
| TimerRun.Fire | native/iperf3/src/iperf_server_api.c:328-381 | the callbacks clear the handle of the one-shot that fired, keep every other handle on an active timer, and move only the timers the omit callback resets; the test is done exactly if it was or this is its end, and omitting exactly if it was and this is not the end of the omit period |
| TimerRun.EndOmit | native/iperf3/src/iperf_client_api.c:255-270 | the omit callback ends omitting and moves both other periodic timers to one interval from now, loses none, and leaves the others in order |
| TimerRun.CreateTimers | native/iperf3/src/iperf_client_api.c:212-252 | the handles name active timers of their kind with the interval and deadline asked for, null exactly for a zero interval; the test is not done |
| TimerRun.CreateOmitTimer | native/iperf3/src/iperf_client_api.c:272-300 | the omit handle names an active one-shot due at the end of the period, null exactly for a zero period, and omitting says which |
| TimerRun.CancelTimers | native/iperf3/src/iperf_server_api.c:541-561 | exactly the timers of the test are cancelled, and all handles null |
| Udp.UdpStream.Recv | native/iperf3/src/iperf_udp.c:60-240 | every whole block of a read while the test runs, one or, with receive offload, many, changes the counters by the rule of Receive as long as a header fits; anything else does not |
| Udp.BlocksCount | native/iperf3/src/iperf_udp.c:110-150 | the blocks counted in a read lie in it whole, each with room for a header at its start, and no more do |
| Udp.BlocksAre | native/iperf3/src/iperf_udp.c:110-150 | that determines their number |
| Udp.OneBlock | native/iperf3/src/iperf_udp.c:110-150 | a read of one full block counts one number exactly if a header of 12 or 16 bytes fits it |
| Udp.UdpStream.Send | native/iperf3/src/iperf_udp.c:248-352 | a send that leaves takes the next number, modulo 2^32 with short counters; one that does not gives it back |
| Udp.SendAll | native/iperf3/src/iperf_udp.c:279-341 | whatever sends fail softly, the datagrams that leave carry 1, 2, 3, ... in order |
| Udp.RecvAll | native/iperf3/src/iperf_udp.c:60-240 | a stream that takes in any reads, short ones, early ones and coalesced ones among them, ends with the tally of the datagrams counted, and its loss counter is exact when they are numbered from 1 without duplicates; reads of one full block each, while running, are all counted |
| Udp.LossIsExact | native/iperf3/src/iperf_udp.c:172-203 | without duplicates packet_count is the highest number seen and cnt_error exactly how many below it are missing |
| Udp.LateIsCounted | native/iperf3/src/iperf_udp.c:172-203 | the out-of-order count is the number of arrivals not above every number seen before them |
| Udp.OrderDoesNotMatter | native/iperf3/src/iperf_udp.c:172-203 | both are the same for every order of arrival |
| Udp.LossBounds | native/iperf3/src/iperf_udp.c:172-203 | with duplicates the loss count lies between highest minus arrivals and highest minus distinct arrivals |
| Udp.StaysExact | native/iperf3/src/iperf_udp.c:172-203 | an exact loss count stays exact just when the next number is new or nothing is counted lost |
| Udp.DuplicateHidesLoss | native/iperf3/src/iperf_udp.c:172-203 | arrivals 1, m, m: one number of the gap is taken for arrived |
| Udp.LossesAddUp | native/iperf3/src/iperf_udp.c:172-341 | end to end, datagrams sent minus arrivals is the loss count plus what was sent after the highest number seen |
| Streams.Endpoint.SetReverse | native/iperf3/src/iperf_api.c:688-703 | the mode is that of the role and the flag |
| Streams.Endpoint.SetBidirectional | native/iperf3/src/iperf_api.c:840-847 | the mode is bidirectional, or that of the role and the reverse flag |
| Streams.Endpoint.Options | native/iperf3/src/iperf_api.c:1435-1451 | the client accepts every choice but both options together |
| Streams.Endpoint.TakeParameters | native/iperf3/src/iperf_api.c:2595-2600 | the server takes the flags and the count over and ends up in the mode they ask for, bidirectional when a message sets both |
| Streams.Endpoint.AddStream | native/iperf3/src/iperf_api.c:5039-5064 | the stream is appended with id 1 when it is the first and the number of streams plus one otherwise |
| Streams.IdsDiffer | native/iperf3/src/iperf_api.c:5039-5064 | two places have the same id only if they are the same |
| Streams.Endpoint.CreateStreams | native/iperf3/src/iperf_client_api.c:100-178 | as many streams as asked for, all in one direction, are added in the order of their connections |
| Streams.Endpoint.CreateAll | native/iperf3/src/iperf_client_api.c:341-351 | the directions of the client: senders first when bidirectional |
| Streams.Endpoint.AcceptAll | native/iperf3/src/iperf_server_api.c:766-907 | the server has its streams, receivers first, on the connections it accepted and in that order, exactly when enough of them bear the cookie, whatever foreign ones come between |
| Streams.DirectionsOppose | native/iperf3/src/iperf_server_api.c:766-888 | at every place one end sends and the other receives |
| Streams.Establish | native/iperf3/src/iperf_client_api.c:100-351 | from the options to both ends' streams: k-th streams have the same id, ids are distinct, directions opposite, retransmits flagged exactly where something is sent and they can be told; and the two ends of every connection meet in this way exactly if the connections are accepted in the order they are made |
| Results.SendResults | native/iperf3/src/iperf_api.c:2705-2809 | the text printed is that of a message with one report per stream: on a sending stream bytes sent less those omitted and retransmits as the flag of this end says, on a receiving one bytes received; errors, packets and their omitted parts as counted |
| Results.GetResults | native/iperf3/src/iperf_api.c:2814-3003 | exactly a message with its fields whose reports all belong to streams of this end is accepted; a stream reported on once takes that report over, one not reported on stays, and the flag of retransmits goes by the mode of this end |
| Results.TakeAll | native/iperf3/src/iperf_api.c:2882-2969 | the loop goes on past bad items and is good exactly if there are none; a stream reported on once takes that report, one reported on not at all stays as it is |
| Results.TakeOne | native/iperf3/src/iperf_api.c:2885-2966 | one item: the stream it names takes it over, every other stays, and it is bad exactly if it is no report or names none |
| Results.Lookup | native/iperf3/src/iperf_api.c:2916-2921 | the stream with the id is found, or none |
| Results.Take | native/iperf3/src/iperf_api.c:2922-2966 | what a sender and what a receiver take over from a report |
| Results.ReadsBack | native/iperf3/src/iperf_api.c:2886-2915 | a report read from its JSON object is the report |
| Results.KeysSpelled | native/iperf3/src/iperf_api.c:2718-2800 | the JSON keys of a report and of a message, and the field behind each |
| Results.RefusedReports | native/iperf3/src/iperf_api.c:2886-2915 | a report is refused exactly for a missing or mistyped field, or one of the omitted counts without the other; what is read is what stands under these keys |
| Results.NumberFound | native/iperf3/src/iperf_api.c:2898-2912 | a number is the one under the first member with the key, up to case |
| Results.MessageReadsBack | native/iperf3/src/iperf_api.c:2859-2915 | so is a whole message |
| Results.MessageTravels | native/iperf3/src/iperf_api.c:2705-2859 | a message of exact counts survives printing and parsing |
| Results.Exchange | native/iperf3/src/iperf_api.c:2406-2424 | after the exchange both ends hold, of every stream, the bytes its sender sent less those omitted, the bytes and the losses its receiver counted, and each other's packet counts, and each knows the other's retransmit flag if its mode asks for it; reading first, which overwrites that flag, changes nothing the server says, retransmits and packet counts included, but the loss counts of streams it sends on |
| Results.LossIsEchoed | native/iperf3/src/iperf_api.c:2406-2424 | such a change: no error before reading, one after |
| Conversation.Drive | native/iperf3/src/iperf_client_api.c:303-815 | a client and a server object taken through any interleaving: neither fails, the client goes by the states the server says, in order, every octet is read as what it was written as, and when neither can go on both are done, in the state IPERF_DONE, with all streams accepted, and each has read all the other wrote |
| ProtocolProof.ConversationIsSafe | native/iperf3/src/iperf_client_api.c:303-815 | in every run each octet is read as what it was written as, the client hears a prefix of what the server says in its order, TEST_END goes out at most once, and neither end fails |
| ProtocolProof.NoDeadlock | native/iperf3/src/iperf_server_api.c:631-1008 | until both ends are done one of them can move |
| ProtocolProof.ConversationEnds | native/iperf3/src/iperf_server_api.c:631-1008 | every run is bounded by the streams and the foreign connections, and one that cannot go on has both ends done, in the state IPERF_DONE, all states heard, all streams accepted, and each end has read exactly what the other wrote |
| ProtocolProof.ScriptsSay | native/iperf3/src/iperf_client_api.c:303-815 | what that is, octet by octet: cookie, parameters, TEST_END, results and IPERF_DONE one way; the states 9, 10, 1, 2, 13, the results and 14 the other |
| ProtocolProof.HandlersSpelled | native/iperf3/src/iperf_client_api.c:309-357 | where each state octet takes either end, octets that are no state of its own included |
| ProtocolProof.StepKeeps | native/iperf3/src/iperf_api.c:2067-2424 | every step of either end keeps what is under way equal to the part of the script between reader and writer |
| ProtocolProof.ClientHearKeeps | native/iperf3/src/iperf_client_api.c:303-357 | a client that waits for a state gets the one the server says next |
| ProtocolProof.ServerHearKeeps | native/iperf3/src/iperf_server_api.c:249-325 | a server in its main loop hears TEST_END or IPERF_DONE, each in its turn |
| ProtocolProof.StepSpends | native/iperf3/src/iperf_client_api.c:303-815 | every step but a foreign connection brings the conversation nearer its end |
| NativeSession.Globals.Interrupt | native/android/iperf3-native/src/main/cpp/iperf3_jni.c:379-392 | the stop is noted, and the active test is interrupted under the mutex |
| NativeSession.Globals.Reset | native/android/iperf3-native/src/main/cpp/iperf3_jni.c:224-235 | the stop request is cleared exactly when nothing is prepared and nothing active |
| NativeSession.Globals.Publish | native/android/iperf3-native/src/main/cpp/iperf3_jni.c:203-213 | a test becomes the prepared one exactly when nothing is prepared and nothing active |
| NativeSession.Globals.Enter | native/android/iperf3-native/src/main/cpp/iperf3_jni.c:326-346 | a run is refused unless its handle is the prepared test; otherwise it is no longer prepared, and becomes active unless a stop was asked |
| NativeSession.TestsAreOwned | native/android/iperf3-native/src/main/cpp/iperf3_jni.c:121-392 | over all interleavings of any threads: never a prepared and an active test at once, every use and interrupt on a live test, no test freed twice, none left behind but the prepared one |
| NativeSession.Drive | native/android/iperf3-native/src/main/cpp/iperf3_jni.c:121-392 | new globals taken through any interleaving by their mutex sections never hold a prepared and an active test at once; what the threads do by the answers touches live tests only and frees none twice |
| NativeSession.StepKeeps | native/android/iperf3-native/src/main/cpp/iperf3_jni.c:121-392 | every step keeps each live test with exactly one owner |
| NativeSession.TestIsPrepared | native/android/iperf3-native/src/main/cpp/iperf3_jni.c:121-214 | from an idle session a thread that creates and configures a test leaves it prepared |
| NativeSession.TestIsRun | native/android/iperf3-native/src/main/cpp/iperf3_jni.c:326-392 | a prepared test with no stop asked is run as the active one, and an interrupt then reaches it |
| NativeSession.TestIsLeft | native/android/iperf3-native/src/main/cpp/iperf3_jni.c:348-377 | the run over, the session is idle again and the test freed |
| NativeSession.StopBeatsRun | native/android/iperf3-native/src/main/cpp/iperf3_jni.c:326-341 | a stop before the run: the test is freed without being run |
| NativeSession.TestIsGivenUp | native/android/iperf3-native/src/main/cpp/iperf3_jni.c:48-64 | a run without a listener discards the prepared test, and leaves any other |
| SessionRuntime.SessionObject.StartSession | android/app/src/main/java/me/phecda/sparxie/runtime/IperfSessionRuntime.kt:135-149 | a start is refused while a session is active; otherwise it resets the native session and is Starting |
| SessionRuntime.SessionObject.Stop | android/app/src/main/java/me/phecda/sparxie/runtime/IperfSessionRuntime.kt:124-133 | the first stop of a session makes it Stopping and interrupts |
| SessionRuntime.StepKeeps | android/app/src/main/java/me/phecda/sparxie/runtime/IperfSessionRuntime.kt:124-260 | every step keeps the fields and the state in agreement, and the native session in step with the worker |
| SessionRuntime.StateTellsKind | android/app/src/main/java/me/phecda/sparxie/runtime/IperfSessionRuntime.kt:124-260 | activeKind is set exactly in Starting, Running and Stopping, to their kind |
| SessionRuntime.Drive | android/app/src/main/java/me/phecda/sparxie/runtime/IperfSessionRuntime.kt:124-260 | a new session object, with its native session, taken through any run of its synchronized sections: its state says what its fields say; while the native run has not thrown, both know of the same stop and an idle session leaves nothing behind |
| SessionRuntime.SessionEnds | android/app/src/main/java/me/phecda/sparxie/runtime/IperfSessionRuntime.kt:135-260 | a session from start to end with no stop ends Finished exactly if its run did not fail, Failed exactly if it did, with an idle native session |
| SessionRuntime.TestEnds | android/app/src/main/java/me/phecda/sparxie/runtime/IperfSessionRuntime.kt:219-245 | the same from any reachable state in which a test runs and no stop has been asked |
| SessionRuntime.ReturnedEnds | android/app/src/main/java/me/phecda/sparxie/runtime/IperfSessionRuntime.kt:219-260 | what each result of the native run ends in: Stopped whenever a stop was asked or it says so, Finished or Failed by the result otherwise |
| SessionRuntime.StoppedTestEnds | android/app/src/main/java/me/phecda/sparxie/runtime/IperfSessionRuntime.kt:219-260 | a test asked to stop ends Stopped, whether or not its run failed |
| SessionRuntime.StoppedBeforeTest | android/app/src/main/java/me/phecda/sparxie/runtime/IperfSessionRuntime.kt:197-245 | a stop before the native run begins: no test becomes active and the session ends Stopped |
| SessionRuntime.StoppingNeverRuns | android/app/src/main/java/me/phecda/sparxie/runtime/IperfSessionRuntime.kt:124-260 | within a session, refused starts included, Running never follows Stopping |
| SessionRuntime.RunningComesFromStarting | android/app/src/main/java/me/phecda/sparxie/runtime/IperfSessionRuntime.kt:197-201 | Running is entered only from Starting, of the same session |
| SessionRuntime.StartIsClean | android/app/src/main/java/me/phecda/sparxie/runtime/IperfSessionRuntime.kt:139-149 | a start finds the native session idle, so that no stop request leaks into it, exactly if the native run has never thrown |
| SessionRuntime.ThrowLeaks | android/app/src/main/java/me/phecda/sparxie/runtime/IperfSessionRuntime.kt:203-217 | when it throws, the next session starts with the old stop request and cannot prepare |
| SessionRuntime.StopLeaks | android/app/src/main/java/me/phecda/sparxie/runtime/IperfSessionRuntime.kt:203-260 | a run from the start in which it does |
| SessionRuntime.FinishIsItsOwn | android/app/src/main/java/me/phecda/sparxie/runtime/IperfSessionRuntime.kt:247-260 | the session that ends is the active one |
| SessionRuntime.StopIsHonoured | android/app/src/main/java/me/phecda/sparxie/runtime/IperfSessionRuntime.kt:219-245 | a stop decides the terminal state exactly when it comes before the flag is read |
| SessionExecutor.InterruptsHitLiveTests | ios/Sparxie/runtime/IperfSessionRuntime.swift:331-492 | in every run each interrupt hits a live test, and at most one test is live |
| SessionExecutor.StopIsNotLost | ios/Sparxie/runtime/IperfSessionRuntime.swift:330-366 | after any run, as long as a session asked to stop is active a retry loop is about, and once the test of the session is published the next turn of that loop interrupts it |
| SessionExecutor.StopIsTakenUp | ios/Sparxie/runtime/IperfSessionRuntime.swift:330-349 | the first stop of an active session interrupts a published test at once and starts a loop |
| SessionExecutor.LoopsEnd | ios/Sparxie/runtime/IperfSessionRuntime.swift:351-366 | with no session active every loop ends at its next turn, and nothing is interrupted |
| SessionExecutor.Drive | ios/Sparxie/runtime/IperfSessionRuntime.swift:305-492 | a new executor taken through any run of its locked sections interrupts live tests only and, unless a start overtakes an old retry loop, only tests whose session was asked to stop |
| SessionExecutor.OnlyStoppedAreInterrupted | ios/Sparxie/runtime/IperfSessionRuntime.swift:331-366 | as long as no session starts before the last retry loop has ended, only sessions asked to stop are interrupted |
| SessionExecutor.LoopOutlivesSession | ios/Sparxie/runtime/IperfSessionRuntime.swift:351-366 | and no less: a start that succeeds can be followed by an interrupt of a session nobody asked to stop exactly if a retry loop is about, whether the worker waits or is still freeing the old test |
| SessionExecutor.LoopLeftBehind | ios/Sparxie/runtime/IperfSessionRuntime.swift:330-492 | a run from the start that reaches such a state, the old test not yet freed |
| SessionExecutor.UnaskedInterruptHappens | ios/Sparxie/runtime/IperfSessionRuntime.swift:330-492 | so some run from the start interrupts a session nobody asked to stop |

## Left out

- Number tokens other than an optional minus and digits, and printing of doubles that are not integers within 2^53: floating point.
- Error positions (`return_parse_end`, cJSON_GetErrorPtr), cJSON_ParseWithLength, the require-null-terminated option and locale decimal points.
- Allocation failure, allocator hooks, INT_MAX limits on the sizes of printed texts, cJSON_Raw, reference items and constant keys, cJSON_Delete.
- JsonParser.ParseBuffer.ParseItem: builds the value, while ChildList.Fill says what items on the heap that parse leaves; the two are joined by the value, not run in one method.
- RoundTrip.ReparseIsStable: only for texts whose number tokens are plain integers within 2^53; what strtod makes of others is floating point.
- RoundTrip.ParsedFits: the same; the source also returns other doubles.
- JsonParser.ParseBuffer.ParseNumberToken: answers Beyond for a token that is not a plain integer within 2^53, where strtod would round it or read part of it.
- Compare.Compare: when overlapping trees with repeated keys are compared, an item met on both sides is taken for equal without a look; there only that it answers yes wherever Alike holds is stated.
- Compare.CompareArrays: the same for overlapping arrays.
- Compare.CompareObjects: the same for overlapping objects.
- Compare.CompareMember: the same for one member.
- ChildList.Fill: starts from the value that parsing gives, not from the text.
- ChildList.Item.Replace: leaves the replaced item unlinked but not freed.
- ChildList.Item.ReplaceAt: the same.
- Framing.Nread: that time passes is not modelled; a time-out is one of the ways a read may go.
- Timers of several tests on one list; the model has one test, as the app runs one at a time.
- TimerRun.Run: time stamps are asked to stay below 2^32 seconds, and intervals of periodic timers to be at least a microsecond.
- What statistics and reporter callbacks compute, and the send timers of throttling.
- Udp.UdpStream.Send: without generic segmentation offload, when the loop of the source runs once and is written without a loop.
- Udp.UdpStream.Recv: blocks of at least one byte, and headers wherever a block is looked at.
- Jitter, interval statistics, and the time stamps inside UDP headers.
- Udp.SendAll: 32-bit counters are followed only below 2^32 datagrams.
- Streams.Establish: the stream sockets are numbered by the order of the client's connects; that they are accepted in order is a hypothesis about the network.
- Results.Take: without jitter and the times of the sender and receiver.
- Results.SendResults: without CPU figures, jitter, start and end times, congestion names and server output; byte counts and packet counts within 2^53.
- Results.GetResults: the CPU and jitter fields, whose absence makes the source refuse a report or the message, are not read; ids are compared as integers, not truncated to 32 bits.
- The UDP stream handshake, TCP options, SCTP and MPTCP; a data connection either bears the cookie or not.
- ProtocolProof.ConversationIsSafe: runs without faults: no closed or failing connection, no SERVER_ERROR, SERVER_TERMINATE or CLIENT_TERMINATE, no timeout, unbounded channels, and the control connection is the client's. The two JSON bodies are any nonempty texts, their meaning is in Results.
- When the client's test is over (duration, bytes or blocks reached, omit period past) is the environment's choice.
- Authentication, rate limits, option parsing beyond the two direction flags, report printing, and the worker threads that carry data.
- NativeSession.TestsAreOwned: the JSON listener's references, error codes and messages are not part of the state.
- SessionRuntime.StartIsClean: the worker is the only caller of prepare and run, as in the runtime; JSON events are not modelled.
- Which event the Swift executor completes a session with, and the order in which its main-actor tasks reach the view state.
