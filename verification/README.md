# Verified models of the client library

Dafny models of six parts of the library, each with the properties its users rely on, proved for
every input, every run or every schedule of any number of threads. `dafny verify dfyconfig.toml`
checks everything.

* **Guaranteed logging queue** (`LogQueue*.dfy`, `LogDrain.dfy`). `QueueBuffer` as a step system:
  every atomic operation is one step, a schedule says which of any number of producers or the one
  consumer moves next, and the buffer size is any positive number. `LogQueueInvariant` is the
  invariant, `LogQueueSteps` shows each kind of step keeps it, and `LogQueueTheorems` draws the
  conclusions: no line lost, duplicated or invented; program order; safe switching of buffers;
  no deadlock; `LogQueueProgress` adds that every push can be completed. `LogDrain` is the consumer as a class with real loops.
* **Lossy ring buffer** (`RingBuffer.dfy`). Where every drawn ticket ends up, and when the ring is
  a FIFO queue.
* **Log line codec** (`LogLine.dfy`). The tagged bytes in a growing buffer and their decoding.
* **Calendar, ISO 8601 printer and parser** (`Calendar.dfy`, `Decimal.dfy`, `IsoDate.dfy`,
  `IsoDateTheorems.dfy`). The loops of the source against the closed Gregorian form; printer and
  parser are inverses from 1970 to 9999.
* **Connection pool** (`Pool.dfy`, `PoolRuns.dfy`, `PoolMethods.dfy`). The pool shared by any number of
  threads whose limit check is made outside the lock, with the expiry loop beside them, and the
  methods as runs of those events.
* **Line wrapping** (`TextWrap.dfy`). The iterator with its mutable fields and loops.
* **Line protocol builder** (`LineProtocol.dfy`, `LineProtocolTheorems.dfy`, `LineBuilder.dfy`). The
  builder, a reader that knows escapes and quotes, written independently of it, and exactly which
  records that reader gets back.
* **JSON and BSON trees** (`BsonTree.dfy`, `BsonTreeTheorems.dfy`, `BsonNormalForm.dfy`). The
  conversions and what they do to a tree together. The period of the system clock, which a date
  passes through on its way into BSON, is a parameter.

`Wrappers.dfy`, `Arithmetic.dfy` and `Counting.dfy` hold what several of them use.

## What turned out not to hold

Where the code and its documentation, or the code and the expected property, disagree, the models
follow the code:

* `PoolRuns.LimitHoldsIff`: `maxConnections` bounds the connections in use only if at most one thread
  uses the pool (or the limit is zero). In general `maxConnections + threads - 1` is the bound, and
  `PoolRuns.LimitOvershoot` reaches it. README.md:1164 of the repository reads as a hard maximum.
* `IsoDateTheorems.ZoneIsSubtractedIff`: the zone offset is subtracted with its sign except for
  `+00:MM` with MM > 0, which is added; `IsoDateTheorems.PositiveHalfHour` is an input.
* `TextWrap.ContentKeptIff`: the visible characters are kept unless nothing at all is shown, and
  `TextWrap.NothingShownIff` says of which texts that is: those that open with a newline, and, with
  room for one character on the first line, those that open with white space or a longer word.
* `TextWrap.AlwaysRunsIff`: the iterator's own asserts admit columns one wider than their indent, and
  on those, and no others, the walk over some text never ends; `TextWrap.EndsIff` says over which.
* `LogLine.DecodesIff`: an argument decodes to its rendering if and only if it is not a string with a
  NUL inside; `LogLine.NulEndsText` is one such string.
* `LineProtocol.ReadBatch`: a record without tags, or without values, makes its batch unreadable.
  `LineProtocolTheorems.ReadBatchIff`: names and keys are written as they are, and a batch is read back
  if and only if, besides, no separator stands bare in them and their quotes and backslashes pair up.
  `LineProtocol.KeysAreNotEscaped`: otherwise two different records can have the same line.
* `BsonNormalForm.ConversionIsNormalIff`: a tree comes through BSON in its normal form if and only if
  its dates fit the 64-bit ticks of the system clock; on a clock of nanoseconds the first that does
  not is 2262-04-11T23:47:16.854776Z (`BsonNormalForm.FirstLostInstant`, `BsonNormalForm.LostText`).

## Model

| member | source | states |
|---|---|---|
| LogQueueTheorems.NextKeeps | src/log/NanoLog.cpp:551-647 | any step of any thread, at any buffer size, keeps the invariant relating tickets, held indexes, slots, counts, the buffer list, the lock and the one switcher |
| LogQueueTheorems.EachLineInOneSlot | src/log/NanoLog.cpp:551-606 | in every run each completed push has its line in a slot, no line is in two, and every line in a slot comes from a push that was begun |
| LogQueueTheorems.DeliveredIsPrefix | src/log/NanoLog.cpp:608-632 | in every run the delivered lines are a prefix of all slots of all buffers, in (buffer, index) order |
| LogQueueTheorems.DeliveredInProgramOrder | src/log/NanoLog.cpp:591-632 | one producer's lines are delivered in the order it pushed them, over any number of switches and retries, and none twice |
| LogQueueTheorems.DeliveredSkipsNone | src/log/NanoLog.cpp:591-632 | when a line is delivered, all its producer's earlier lines were delivered before it |
| LogQueueTheorems.SwitchingIsSafe | src/log/NanoLog.cpp:591-642 | at every moment: one switcher at most, no index held twice, stores go to empty slots of the current buffer, a reset only when all stores are counted and no index is held, ticket counter below size + threads |
| LogQueueTheorems.HolderPinsBuffer | src/log/NanoLog.cpp:594-599 | from drawing an index below `size` until its store is counted, no step of anybody changes the current buffer |
| LogQueueTheorems.StoresWhereDrawn | src/log/NanoLog.cpp:593-599 | along any schedule from the draw of an index below `size` to the count of its store, the buffer stored into is the one current at the draw, at that index |
| LogQueueTheorems.SomebodyWorks | src/log/NanoLog.cpp:593-605 | when the tickets have run out, some thread holds an uncounted index or is switching |
| LogQueueTheorems.PendingDecreases | src/log/NanoLog.cpp:593-642 | until the reset, no step adds to the pending steps and every step of a thread at work takes one away |
| LogQueueTheorems.SomebodyCanAdvance | src/log/NanoLog.cpp:635-647 | until the reset, a thread at work can advance unless the consumer holds the lock |
| LogQueueTheorems.SwitchIsBounded | src/log/NanoLog.cpp:593-642 | however the threads are scheduled, they take at most nine steps each at work before the tickets are reset |
| LogQueueTheorems.TicketsCanBeReset | src/log/NanoLog.cpp:591-642 | from every reachable state the threads at work can reach one with a free ticket, all others standing still: no deadlock |
| LogQueueProgress.SpinnerDraws | src/log/NanoLog.cpp:593-605 | once the tickets are reset, an undisturbed spinner has an index after two steps of its own |
| LogQueueProgress.PushCanEnd | src/log/NanoLog.cpp:591-642 | from every reachable state every push under way can be completed, with its line in a slot: nobody spins for ever |
| LogDrain.GuaranteedLogger.TryPop | src/log/NanoLog.cpp:608-632 | an uncontended call is exactly a run of consumer steps; it returns the next line in slot order exactly when that line is published |
| LogDrain.GuaranteedLogger.Drain | src/log/NanoLog.cpp:750-754 | with every push completed the loop after SHUTDOWN terminates with exactly the pushed lines written, each once, in slot order over all buffers |
| LogDrain.NothingLeft | src/log/NanoLog.cpp:608-632 | with every push completed, a consumer that finds no line waiting has delivered exactly the pushed lines |
| LogDrain.AtTheEnd | src/log/NanoLog.cpp:608-632 | in that state the reader stands at the first index of the current buffer that was never drawn |
| RingBuffer.NothingVanishes | src/log/NanoLog.cpp:485-506 | in every run tickets drawn = delivered + overwritten + waiting + in flight, and each ticket is in exactly one of the four |
| RingBuffer.RefinesQueue | src/log/NanoLog.cpp:485-506 | while the writer is at most `m_size` tickets ahead, every step is one of a FIFO queue of that capacity: a draw enqueues its ticket, a read delivers the head if its push has stored it, every other step leaves the queue alone |
| RingBuffer.HeadWaitsIff | src/log/NanoLog.cpp:494-498 | meanwhile the slot the reader looks at holds the oldest undelivered line if and only if the push that drew its ticket has stored it |
| RingBuffer.KeepingUpLosesNothing | src/log/NanoLog.cpp:485-506 | a run that keeps within `m_size` overwrites nothing and delivers the lines in ticket order |
| RingBuffer.FallingBehindLoses | src/log/NanoLog.hpp:151-158 | with no push under way, at least the excess over `m_size` has been overwritten |
| RingBuffer.NewLineIsKept | src/log/NanoLog.hpp:151-158 | in every run, however far ahead the writer is, the slot of a push that has stored its line and not yet released the item holds that line |
| RingBuffer.LostToNewer | src/log/NanoLog.hpp:151-158 | every lost line waited in its slot until a push stored over it, and the new line then waited there |
| RingBuffer.Ring.Push | src/log/NanoLog.cpp:485-492 | an uncontended call is exactly the five steps of its thread: the slot holds the new line, exactly the line that waited there is lost, all other slots stay |
| RingBuffer.Ring.TryPop | src/log/NanoLog.cpp:494-506 | an uncontended call is exactly the three steps of the consumer: it returns the line that waits in the read slot and moves on, or changes nothing |
| LogLine.StringifyOne | src/log/NanoLog.cpp:119-132 | the bytes of one argument decode to its rendering, whatever bytes follow |
| LogLine.StringifyAll | src/log/NanoLog.cpp:200-234 | any sequence of arguments decodes to their renderings in order |
| LogLine.DecodedPayload | src/log/NanoLog.cpp:173-187 | the payload of every fixed-width type has that type's width and decodes to the same value, sign included |
| LogLine.DecodesIff | src/log/NanoLog.cpp:189-234 | behind arguments that decode, one more of any kind decodes to its rendering if and only if it is not a string with a NUL inside |
| LogLine.NulEndsText | src/log/NanoLog.cpp:189-198 | one such string: it is cut at the NUL and its tail taken for a type id |
| LogLine.HeaderIsRead | src/log/NanoLog.cpp:148-158 | the header's six fields are read back from the bytes they are laid out in |
| LogLine.NanoLogLine.constructor | src/log/NanoLog.cpp:134-144 | an empty line holds its header, field by field, in the stack buffer |
| LogLine.NanoLogLine.ResizeIfNeeded | src/log/NanoLog.cpp:241-262 | growth makes the room asked for, at least 512 bytes and then at least double, keeps the bytes written, and all growth so far has copied at most as many bytes as the buffer holds |
| LogLine.NanoLogLine.Stream | src/log/NanoLog.cpp:284-320 | every `<<` appends exactly the argument's encoding, within capacity, and leaves the bytes before it alone |
| LogLine.NanoLogLine.ReadBack | src/log/NanoLog.cpp:148-171 | after any sequence of `<<` on NUL-free strings and numbers the line decodes to its header, their renderings in order, and a line feed |
| Calendar.IsLeapYear | src/common/util/date.cpp:21-30 | the nested tests give the 4/100/400 rule |
| Calendar.YearStep | src/common/util/date.cpp:478-482 | the closed form 365 (y - 1970) + leap days grows by each year's own length |
| Calendar.GregorianCycle | src/common/util/date.cpp:21-30 | 400 years have 146097 days, and leap years repeat |
| Calendar.DaysOrderDates | src/common/util/date.cpp:515-551 | day numbers order the dates of 1970..9999 and tell them apart |
| Calendar.FindYear | src/common/util/date.cpp:515-523 | the year search, in 32-bit arithmetic that never overflows, ends in the year that contains the day |
| Calendar.FindMonth | src/common/util/date.cpp:525-549 | the month search ends in the month that contains the day of the year |
| Calendar.SplitDays | src/common/util/date.cpp:515-551 | both searches together find the one date with that day number |
| Decimal.ValueOfDec | src/common/util/date.cpp:498-579 | a number's digits denote it |
| Decimal.Padding | src/common/util/date.cpp:553-579 | the leading zeros the printer writes give fixed-width numerals |
| Decimal.ReadDec4 | src/common/util/date.cpp:434-449 | `from_chars` reads four printed digits back |
| IsoDate.FieldsUnique | src/common/util/date.cpp:498-579 | calendar fields and instants of 1970..9999 determine each other |
| IsoDate.MonthsSumIsTable | src/common/util/date.cpp:460-476 | the parser's sum over months is the closed table of days before a month |
| IsoDate.YearsSumIsClosedForm | src/common/util/date.cpp:478-482 | the parser's sum over years is the closed Gregorian form the printer inverts |
| IsoDate.IsoDateMicros | src/common/util/date.cpp:498-579 | prints the fields of the instant, six digits of fraction |
| IsoDate.IsoDateMillis | src/common/util/date.cpp:606-682 | prints the fields of the instant, three digits of fraction |
| IsoDate.ParseISO8601 | src/common/util/date.cpp:38-491 | the parser's loops and branches compute the function the theorems speak of, errors included |
| IsoDateTheorems.ParsePrinted | src/common/util/date.cpp:38-579 | parsing what is printed gives the instant, to the millisecond for the short form, for all of 1970..9999 |
| IsoDateTheorems.PrintParsed | src/common/util/date.cpp:38-579 | every canonical 27-character text naming a valid instant is reproduced by parsing and printing |
| IsoDateTheorems.TextOrderIsTimeOrder | src/common/util/date.cpp:498-579 | the order of printed texts is the order of instants |
| IsoDateTheorems.ParseSpelled | src/common/util/date.cpp:141-491 | what every spelling with 0, 2, 3 or 6 fraction digits and a zone parses to, rejections included |
| IsoDateTheorems.FractionsAgree | src/common/util/date.cpp:141-192 | fractions of equal value parse alike |
| IsoDateTheorems.ZoneIsSubtractedIff | src/common/util/date.cpp:195-429 | a zoned time is the `Z` time minus the signed offset, except exactly for `+00:MM` with MM > 0 |
| IsoDateTheorems.PositiveHalfHour | src/common/util/date.cpp:484-489 | `+00:30` and `-00:30` parse to the same instant |
| IsoDateTheorems.ParseDateOnly | src/common/util/date.cpp:431-491 | a bare date is its midnight |
| Pool.ScanIsFilterIff | src/api/pool/pool.hpp:162-176 | the front-only scan leaves what a full filter leaves exactly when no expired connection stands behind an unexpired one |
| Pool.SortedScan | src/api/pool/pool.hpp:157-177 | in a queue in release order the scan is the filter |
| Pool.ExpiredIff | src/api/pool/pool.hpp:168-169 | idle times count in whole seconds rounded towards zero: for a positive limit exactly the connections idle for that long have expired |
| PoolMethods.ConnectionPool.constructor | src/api/pool/pool.hpp:90-100 | fills the pool with `initialSize` fresh connections, none in use: the initial state of the runs |
| PoolMethods.ConnectionPool.Acquire | src/api/pool/pool.hpp:111-128 | undisturbed it is the check and the locked part in a row; it refuses at the limit and changes nothing, else hands out the connection at the front, one use older, and creates one only when none is idle |
| PoolMethods.ConnectionPool.Release | src/api/pool/pool.hpp:130-137 | it is the destruction of the proxy that holds the connection: a valid one goes to the back with the time of its release if there is room, else it is closed |
| PoolMethods.ConnectionPool.RemoveExpired | src/api/pool/pool.hpp:157-177 | undisturbed it is a run of scan turns; it closes a front part of the queue and keeps the rest in order; of a queue in release order exactly the expired |
| PoolRuns.PoolAccounting | src/api/pool/pool.hpp:66-137 | in every run created = idle + held + destroyed, each connection in exactly one, `total` counts live proxies and never goes below zero, idle and total are bounded |
| PoolRuns.LimitOvershoot | src/api/pool/pool.hpp:111-116 | the bound maxConnections + threads - 1 is reached |
| PoolRuns.LimitHoldsIff | src/api/pool/pool.hpp:111-116 | `maxConnections` is never exceeded in any run if and only if there is at most one thread or the limit is zero |
| PoolRuns.AcquireReuses | src/api/pool/pool.hpp:115-127 | in every run an acquire hands out the connection idle longest, one use older, and leaves the others in order; only when none is idle does it create one, never seen before |
| PoolRuns.ReleaseKeepsIff | src/api/pool/pool.hpp:130-137 | in every run a connection given back is idle again, stamped and last in line, if and only if it is valid and there is room, and is closed if and only if not |
| PoolRuns.ReleasedIsReused | src/api/pool/pool.hpp:111-137 | with none other idle, the next acquire hands out what was just released |
| PoolRuns.MoveHandsOver | src/api/pool/pool.hpp:71-77 | a moved-from proxy ends without effect, and the one moved to ends as the other would have |
| PoolRuns.IdleStaysSorted | src/api/pool/pool.hpp:111-137 | in every run, with a non-decreasing clock, the idle queue is in order of release times and the expiry loop's `now` is past |
| PoolRuns.ScanEndsClean | src/api/pool/pool.hpp:157-177 | whatever other threads do between its turns, the expiry loop removes only expired connections and ends with none left |
| PoolRuns.ScanTerminates | src/api/pool/pool.hpp:157-177 | for a positive idle time the connections still to be removed never grow in number and shrink with every removal |
| TextWrap.LineIterator.constructor | src/common/util/clara.hpp:151-157 | starts at the first line, or at the end if that is empty |
| TextWrap.LineIterator.CalcLength | src/common/util/clara.hpp:107-133 | the searching loops find the cut, whether it takes a hyphen, and the end of the hard line |
| TextWrap.LineIterator.Increment | src/common/util/clara.hpp:165-180 | moves to where the next line starts, or to the end |
| TextWrap.CutIffBest | src/common/util/clara.hpp:97-133 | the cut is the one that takes the rest of the hard line if it fits, else goes to the last usable boundary and drops the blanks before it, else hyphenates |
| TextWrap.HyphenIff | src/common/util/clara.hpp:97-133 | a hyphen is added if and only if the hard line is too long and, in the room, no white space and no opening character follows a visible one, no closing character stands, and the text goes on |
| TextWrap.BreaksAtPlace | src/common/util/clara.hpp:97-133 | a line cut short without a hyphen ends visibly at the end of the text, before white space or an opening or behind a closing character, and the room left over offers no later such place |
| TextWrap.HyphenOnlyInsideWord | src/common/util/clara.hpp:117-132 | a hyphen is added only when no boundary in reach has a visible character before it |
| TextWrap.ProgressIff | src/common/util/clara.hpp:165-180 | a step moves on unless there is room for one character only and no boundary behind it |
| TextWrap.EndsIff | src/common/util/clara.hpp:165-180 | the walk from the first line reaches the end of the text if and only if no step on the way stands still |
| TextWrap.AlwaysRunsIff | src/common/util/clara.hpp:151-153 | of the columns the asserts admit, the walk over every text ends if and only if the width leaves two characters beside the indent, whatever the initial indent |
| TextWrap.EveryLineFits | src/common/util/clara.hpp:107-163 | every line fits the width, indent and hyphen included, and holds no newline |
| TextWrap.Indents | src/common/util/clara.hpp:135-138 | the first line has the initial indent if there is one, all others the column's |
| TextWrap.LineIterator.Current | src/common/util/clara.hpp:140-163 | the line is its indent in spaces, the cut-out text, and a hyphen exactly if the cut takes one |
| TextWrap.WrittenLines | src/common/util/clara.hpp:219-230 | what is written splits at its newlines into exactly the lines, in order |
| TextWrap.NothingShownIff | src/common/util/clara.hpp:151-157 | the iterator starts at the end for exactly the empty text, texts that open with a newline, and, with room for one character at first, those that open with white space or a longer word |
| TextWrap.ContentKeptIff | src/common/util/clara.hpp:97-180 | the lines without indents and added hyphens have the text's visible characters in order if and only if something is shown or there is none |
| TextWrap.Write | src/common/util/clara.hpp:219-230 | wherever the walk ends at all, the loop over a column terminates and writes its lines joined by newlines |
| LineBuilder.CleanText | src/ilp/builder.cpp:21-72 | the loop puts a backslash before exactly the characters to escape |
| LineProtocol.UncleanClean | src/ilp/builder.cpp:21-72 | removing the backslashes gives the text back |
| LineProtocol.ScanClean | src/ilp/builder.cpp:21-72 | no separator, newline or quote inside cleaned text is seen by a reader that knows escapes and quotes |
| LineProtocol.CleanHides | src/ilp/builder.cpp:21-72 | no comma, equals sign, line feed or carriage return, and in a tag no space, stands bare in cleaned text |
| LineProtocol.ReadValueText | src/ilp/builder.cpp:149-227 | every kind of value is told from the others and read back exactly |
| LineProtocol.PartsOfJoin | src/ilp/builder.cpp:142-147 | cutting at commas undoes joining with commas |
| LineProtocol.ReadLineOf | src/ilp/builder.cpp:255-260 | a line with legible names and keys is read back exactly if it has a tag and a value, and not at all otherwise |
| LineProtocol.ReadPairIff | src/ilp/builder.cpp:142-147 | a pair is read back if and only if a search for the equals sign runs through its key |
| LineProtocolTheorems.ReadLineIff | src/ilp/builder.cpp:142-260 | a line is read back if and only if it has a tag and a value and no search for a comma, space or equals sign stops in its name or keys |
| LineProtocol.ReadBatch | src/ilp/builder.cpp:255-265 | a batch with legible names and keys is read back exactly, in order, if every record has a tag and a value, and not at all otherwise |
| LineProtocolTheorems.ReadBatchIff | src/ilp/builder.cpp:136-265 | any batch is read back, in order, if and only if every record has a tag, a value and legible names and keys |
| LineProtocol.KeysAreNotEscaped | src/ilp/builder.cpp:142-147 | with illegible names or keys two different records can have the same line |
| LineBuilder.Builder.StartRecord | src/ilp/builder.cpp:136-140 | starts an empty record stamped with the clock, leaving the batch alone |
| LineBuilder.Builder.AddTag | src/ilp/builder.cpp:142-147 | adds exactly one tag to the record under way |
| LineBuilder.Builder.AddValue | src/ilp/builder.cpp:149-227 | adds exactly one value, of every overload, to the record under way; times become microseconds, rounded towards zero |
| LineBuilder.TimesAgree | src/ilp/builder.cpp:208-227 | one instant is written alike from microseconds, milliseconds and nanoseconds, and a finer one is rounded towards zero |
| LineBuilder.Builder.EndRecord | src/ilp/builder.cpp:255-260 | appends the record under way to the batch and keeps it under way |
| LineBuilder.Builder.Finish | src/ilp/builder.cpp:262-265 | hands over text from which the ended records are read back if and only if each has a tag, a value and legible names and keys, and leaves none |
| LineBuilder.Builder.Add | src/ilp/builder.cpp:229-247 | appends the record of the APM record and one for each process, in order, and nothing else |
| LineBuilder.Entries | src/ilp/builder.cpp:229-247 | an APM record with n processes makes n + 1 records |
| LineBuilder.EntriesSay | src/ilp/builder.cpp:74-132 | each of them says application, id, beginning, duration and end, those of processes their type, and then the tags and values given |
| LineBuilder.ApmReadsBack | src/ilp/builder.cpp:87-132 | those records always have tags and values, and with legible names and keys are read back exactly |
| BsonTree.ToBsonArray | src/common/util/bson.cpp:519-564 | the loop over an array converts every item, dates through the ticks of the system clock, and leaves out nulls and empty strings |
| BsonTree.ToBsonObject | src/common/util/bson.cpp:566-611 | the same for an object's fields |
| BsonTree.FromBsonArray | src/common/util/bson.cpp:613-655 | the loop over a BSON array leaves out the skipped types |
| BsonTree.FromBsonDocument | src/common/util/bson.cpp:657-699 | the loop over a document keeps the first of equal keys |
| BsonTree.ToJsonArray | src/common/util/bson.cpp:412-456 | gives the same JSON as `fromBson` on every BSON array of the handled types |
| BsonTree.ToJsonDocument | src/common/util/bson.cpp:464-511 | gives the same JSON as `fromBson` on every BSON document of the handled types |
| BsonTreeTheorems.OidTextIsRead | src/common/util/bson.cpp:387-398 | a printed ObjectId is read as that ObjectId |
| BsonTreeTheorems.DateTextIsRead | src/common/util/bson.cpp:400-405 | a printed date is read as that date |
| BsonTreeTheorems.DateKeptIff | src/common/util/bson.cpp:541-541 | a date survives the passage through the system clock, to the millisecond, if and only if its ticks fit 64 bits |
| BsonTreeTheorems.ComesBackIff | src/common/util/bson.cpp:519-699 | BSON written as JSON and read again is the same tree if and only if it is native: no 32-bit integers, skipped types, repeated keys, reinterpreted strings or dates beyond the clock at any depth |
| BsonTreeTheorems.ReadAgainIsKept | src/common/util/bson.cpp:412-699 | any other BSON tree of plain texts and dates, read again from its JSON, has its 32-bit integers widened, what is skipped gone, and the first of equal keys left, at every depth |
| BsonTreeTheorems.StringKinds | src/common/util/bson.cpp:375-408 | exactly 24 hexadecimal digits are an ObjectId, exactly what starts with a digit, has a hyphen and parses is a date, and all other text stays |
| BsonTreeTheorems.ScalarsMean | src/common/util/bson.cpp:526-563 | truth values and numbers mean the same in BSON, an unsigned one by its bits |
| BsonNormalForm.ConversionIsNormalIff | src/common/util/bson.cpp:519-699 | JSON to BSON and back is the normal form described without BSON, by way of native BSON, if and only if every date fits the system clock |
| BsonNormalForm.Idempotent | src/common/util/bson.cpp:519-699 | the second conversion changes neither the JSON nor the BSON, at any depth |
| BsonNormalForm.ReturnsIff | src/common/util/bson.cpp:375-408 | JSON turned into BSON and back is unchanged if and only if it has no null, empty or unsigned leaf, no ObjectId with capitals, no date but as date and time with three fraction digits and `Z`, and none beyond the clock |
| BsonNormalForm.FirstLostInstant | src/common/util/bson.cpp:541-541 | on a clock of nanoseconds exactly the instants before 9223372036854776 microseconds survive |
| BsonNormalForm.LostText | src/common/util/bson.cpp:541-541 | that instant is 2262-04-11T23:47:16.854776Z |
| BsonTreeTheorems.FromBsonTidy | src/common/util/bson.cpp:613-699 | any BSON tree gives JSON with no repeated keys, nulls or unsigned numbers; only the skipped types give nothing |

## Left out

- Memory orderings weaker than sequential consistency, and when heap memory is freed: buffers are garbage collected, and nothing is said about the buffer popped at src/log/NanoLog.cpp:626.
- The 32-bit wrap of ring indexes and tickets, and of `total` and `created`: counters are unbounded.
- File rolling, the tee stream, thread creation and sleeping; literals and thread ids are opaque numbers, and how the header, numbers and literals are formatted is a parameter.
- LogLine.DecodesIff: where decoding would read past the end of a line, which a string with a NUL inside can bring about, the model's output ends; what the source prints there is undefined.
- LogLine.NanoLogLine.Stream: a line whose size overflows `size_t`.
- LogDrain.GuaranteedLogger.TryPop: as a method it is stated for calls that meet no contention; contended calls are the consumer's steps in `LogQueue`.
- RingBuffer.Ring.Push: likewise stated for an unlocked item; contention is in the step system.
- RingBuffer.Ring.TryPop: likewise.
- IsoDate.ParseISO8601: a read past the end of the text is the NUL that ends a string; negative epochs, years before 1970 and years after 9999 are outside the round trip.
- IsoDateTheorems.ParseSpelled: zone hours 0..99 and minutes 0..99 in the listed shapes only; other shapes of ISO 8601 are not the printer's inverse.
- The rule that the initial size is kept as a minimum (README.md:1158-1160 of the repository): `removeExpired` does not implement it.
- PoolMethods.ConnectionPool.Acquire: as a method it is stated for calls nobody comes between; interleaved calls are the events of `PoolRuns`.
- PoolMethods.ConnectionPool.RemoveExpired: likewise; `PoolRuns.ScanEndsClean` and `PoolRuns.ScanTerminates` are about the turns among other threads.
- A factory that throws or returns nothing, move assignment over a live `Proxy`, and the pool's destructor.
- TextWrap.LineIterator.CalcLength: `size_t` is unbounded, so a width near its maximum cannot wrap.
- Columns side by side, and the rest of Clara.
- LineProtocol.ReadValueText: a floating point number is the text it is formatted as; its rounding is not modelled.
- LineBuilder.Builder.Add: tags and values of an APM record are sequences in the order of the source's sorted maps; 64-bit overflow of timestamp plus duration is not modelled.
- LineBuilder.Builder.Finish: the moved-from string is empty; the source asks that a builder not be used again.
- BsonTree.FromBsonArray: BSON dates outside 1970..9999 are excluded by precondition, as in `toJson`.
- BsonTree.ToBsonArray: ticks that overflow wrap, as they do on the usual machines; the language leaves it undefined.
- Doubles are opaque; JSON text and BSON bytes, and the conversion of single values at src/common/util/bson.cpp:26-371, are not modelled.
- Sockets, coroutines and the line protocol client; repositories, requests and options; the Python and Rust clients; `magic_enum`, `visit_struct` and the serialisation templates; `validate.cpp`; logging inside the modelled functions: input and output, repetition, or heuristics without a property to state.
