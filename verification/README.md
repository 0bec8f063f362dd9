# Verified model of the monitoring daemon

The daemon polls serial and digital inputs of an embedded device, turns readings into
alarms, and hands the alarms to threads that store them, mail them, text them and pass
them on to other processes. This project models the parts of it that do not merely call
the operating system, and proves what they promise. `dafny verify dfyconfig.toml` checks
all of it.

## What is modelled

* **The lock-free queue** (`LfQueue*.dfy`). The shared segment is a value; every read,
  write, compare-and-swap or fetch-and-add of it is one step of a pushing or a popping
  thread, and steps interleave in any order under sequential consistency. `LfQueue` holds
  the steps, for any number of threads. `LfQueueFifo` holds the invariant of one pushing
  and one popping thread and shows access by access that it is kept: payload `k` lives in
  unit `k mod (max_unit_num + 1)`, and four moving marks say which payloads are linked,
  flagged, counted and cleared. `LfQueueRuns` draws the consequences for every run.
  `lf_queue.h` offers the queue to several processes or threads; `LfQueueThreads` says for
  which numbers of threads and which capacities it can serve them: `LfQueueOne` shows that
  with room for one payload any number can use it, `LfQueueThreads` that pushes alone never
  collide, and `LfQueueRace` builds the runs that go wrong in every other case.
* **The configuration store** (`Dictionary`, `IniLine`, `IniFile`, `IniFileExact`,
  `IniErrors`, `IniParser`, `Decimals`, `Preference`). The dictionary is a class over its three arrays,
  proved against a function of its slots, which is in turn proved to be a partial map.
  `IniLine` interprets the `sscanf` formats directive by directive, as section 7.21.6.2 of
  ISO/IEC 9899:2011 describes them. `IniFile` gives loading and printing as functions of
  the file text, with the line buffer, its limit and continuation lines; `IniErrors` says
  which files are refused, and `IniParser` has the loops that compute all this.
* **Buffer ownership** (`Dll`, `MemPool`, `RingBuffer`, `Pipeline`, `PipelineRuns`). The intrusive list is
  a class over heap nodes, the pool a class over the list, the `in_use` flags and the
  address arithmetic, the ring a class over its array. `Pipeline` puts two pools and three
  rings between any number of threads that stop between any two pool or ring operations,
  each of which runs under the mutex of its pool or ring; `PipelineRuns` reads off the log
  of a run what every call has done and in which order the rings and pools have answered.
* **Alarm logic** (`Alarm`, `AlarmRuns`, `ComFail`, `Resend`, `ResendTable`). The serial
  threads share one state machine per parameter, and the e-mail and SMS threads one table
  of alarms to resend; each is modelled once. Whether an allocation or a push succeeds is
  an input of every turn, so that results hold under any pattern of failures.
* **CRC** (`Crc16`, `Crc16Errors`): the two-table loop against the bit-serial definition of
  section 6.2.2 of the MODBUS over Serial Line Specification V1.02.
* **Base64** (`Base64`): the encoder against a decoder of the alphabet and padding of
  section 4 of RFC 4648.

Analog values and limits are `real`. Words of fixed width are bit-vectors or wrap
explicitly (`send_times`, the hash, the CRC register). Strings are C strings without their
terminator. Time, the text of the file, and whether a file can be opened are parameters.

Findings about the code, each with a lemma:

* The end address of a pool passes the range test of `mpool_free` and indexes one past the
  nodes (`MemPool.IndexInBounds`, `MemPool.EndAddressPasses`); `Free` asks callers not to
  pass it, and the resend table is shown never to.
* `send_times` is unsigned, so a stored 0 means 2^32 sends (`Resend.Asked`,
  `Resend.SendsPlusRemaining`). Nothing that fills a buffer of the alarm pool writes its
  `send_times`, and the pool comes from `calloc` (`app/mem_pool.c:47-59`), so that 0 is what
  a raise of an alarm already in the table refreshes the entry with
  (`app/email_alarm_thread.c:114`).
* What the printer writes is not always what the parser reads; the exact condition for a
  line is `IniLine.LineSafe` and for an entry `IniFile.EntrySafe`.
* A last line of one character is skipped when the file does not end in a newline, whatever
  it is (`IniErrors.Lines`); every other line in error makes the whole file fail
  (`IniErrors.RefusedExactly`).
* A dictionary without sections is printed in a form that is read back under other keys,
  each with a colon in front (`IniFileExact.KeysLoad`).
* An alarm with a new key is dropped without a trace when the resend table is full
  (`Resend.DroppedExactly`).
* When the configuration could not be loaded, setting a flag empties the file
  (`Preference.Preferences.SetFlag`).
* A value that both raises an alarm and frees it, of an enumeration at a shared limit or of
  either kind when the limits are out of order, attempts an alarm in every turn for as long
  as it stays; exactly those values do (`AlarmRuns.SteadySample`). Which values keep an
  alarm on, and which limits make all of them do so, is exact too
  (`AlarmRuns.TwoSamplesRaiseIff`, `AlarmRuns.OrderedIff`).
* Two pushes can own one unit exactly when at least two threads push, one pops, and there is
  room for two payloads (`LfQueueThreads.SharesUnitIff`). A push can fill the unit `p_head`
  names exactly when there is a thread on each side and a third on either, and room for two
  payloads (`LfQueueThreads.FillsDummyIff`). The program opens its queue with room for 3
  (`app/email_alarm_thread.c:319`), so with both sides at work it serves one thread on each.

## Model

| member | source | states |
|---|---|---|
| LfQueue.ReserveStep | app/lf_queue.c:132-154 | reserving room and probing for a unit never leaves the segment, whatever other threads do |
| LfQueue.FillStep | app/lf_queue.c:156-161 | filling a unit, byte by byte, keeps every offset inside the segment |
| LfQueue.LinkStep | app/lf_queue.c:163-181 | linking, the walk to the tail and counting keep every offset inside the segment |
| LfQueue.ConsumerStep | app/lf_queue.c:195-217 | every access of a pop keeps every offset inside the segment |
| LfQueue.Step | app/lf_queue.c:126-220 | any interleaving of any number of threads is memory safe |
| LfQueue.Start | app/lf_queue.c:107-121 | the zero-filled segment and its sentinel are a sound start |
| LfQueueFifo.CasWTailKeeps | app/lf_queue.c:145-151 | the unit allocated is the one of the newest payload, and none of its cycle neighbours is still in use |
| LfQueueFifo.CasNextKeeps | app/lf_queue.c:163-175 | the linking CAS succeeds and appends the whole payload behind the last one |
| LfQueueFifo.CasPHeadKeeps | app/lf_queue.c:203-207 | the popped unit becomes the dummy, and the payload taken is the oldest |
| LfQueueFifo.ClearUseFlagKeeps | app/lf_queue.c:213-214 | clearing the flag of the new dummy keeps list, data and allocation order |
| LfQueueFifo.SubWLenKeeps | app/lf_queue.c:216-217 | returning room makes exactly the old dummy available again |
| LfQueueRuns.ReachableConsistent | app/lf_queue.c:126-220 | the invariant holds in every reachable state of one pushing and one popping thread |
| LfQueueRuns.PopsArePrefixOfPushes | app/lf_queue.c:126-220 | popped payloads are a prefix of pushed ones, and 0 <= r_len <= w_len <= max_unit_num |
| LfQueueRuns.ListHoldsBacklog | app/lf_queue.c:156-207 | the list holds exactly the payloads accepted and not taken, whole and in order, except one still being linked |
| LfQueueRuns.AllocatedUnitIsFree | app/lf_queue.c:143-154 | the unit being pushed is not the dummy, not on the list, and not the old dummy the consumer still dereferences |
| LfQueueRuns.FirstProbeSucceeds | app/lf_queue.c:144-154 | the use_flag loop ends on its first probe |
| LfQueueRuns.NeverWalks | app/lf_queue.c:163-175 | in every reachable state of one pushing and one popping thread the linking CAS succeeds at its first try, so the retry walk is never entered |
| LfQueueRuns.RefusedIffFull | app/lf_queue.c:135-141 | a push is refused exactly when max_unit_num payloads are outstanding |
| LfQueueRuns.EmptyIffDrained | app/lf_queue.c:195-201 | a pop finds nothing, and lf_queue_len reports 0, exactly when every returned push has been popped |
| LfQueueOne.AnyThreadsAtOne | app/lf_queue.c:126-220 | with room for one payload, any number of threads: first in, first out, at most one push past the capacity check, and its unit is not the dummy |
| LfQueueThreads.UnpoppedApart | app/lf_queue.c:126-184 | while nobody pops, any number of pushing threads hold different units, none of them the dummy |
| LfQueueThreads.SharesUnitIff | app/lf_queue.c:143-181 | for every number of threads and every capacity, two pushes can own one unit exactly when two threads push, one pops and the capacity is at least 2 |
| LfQueueThreads.FillsDummyIff | app/lf_queue.c:126-220 | for every number of threads and every capacity, a push can fill the unit p_head names, even with a counted payload linked behind it, exactly when there is a thread on each side, a third on either, and capacity at least 2 |
| LfQueueRace.TwoProducersShareUnit | app/lf_queue.c:143-157 | the run, for any capacity from 2 and any size of payload, after which two pushes own unit 0 |
| LfQueueRace.TwoProducersFillDummy | app/lf_queue.c:143-181 | its continuation, after which a push fills the unit p_head names, a counted payload linked behind it |
| LfQueueRace.TwoConsumersFillDummy | app/lf_queue.c:186-220 | the run with two popping threads that frees units out of order, so that one push comes round to the dummy |
| Dictionary.Hash | app/dictionary.c:118-137 | the loop computes the hash of the key, 0 for NULL |
| Dictionary.HashOfLetter | app/dictionary.c:118-137 | the hash of the empty key is 0, and that of "a" is the check value 0xCA2E9442 |
| Dictionary.Lookup | app/dictionary.c:209-227 | a search of the slots finds a key exactly when the map has it, with the value of the map |
| Dictionary.CountKeys | app/dictionary.c:255-301 | n counts the keys of the map |
| Dictionary.GrowthPreserves | app/dictionary.c:68-101 | doubling keeps the map and makes room |
| Dictionary.PlaceIsFree | app/dictionary.c:289-294 | as long as n < size the wrap-around search has an empty slot to find |
| Dictionary.SetUpdates | app/dictionary.c:255-301 | setting is a map update, NULL values included; keys stay distinct and n right |
| Dictionary.UnsetRemoves | app/dictionary.c:314-349 | unsetting removes the key and nothing else |
| Dictionary.BehavesAsMap | app/dictionary.c:255-349 | over any sequence of operations the table is the partial map they build, and n its size |
| Dictionary.Dict.constructor | app/dictionary.c:150-166 | a new dictionary is empty and has at least 128 slots |
| Dictionary.Dict.FindSlot | app/dictionary.c:213-225 | the search that compares hashes first finds the slot plain key comparison would |
| Dictionary.Dict.Get | app/dictionary.c:209-227 | the value the map has, or the caller's default |
| Dictionary.Dict.Grow | app/dictionary.c:68-101 | the arrays double, every key keeps its slot and hash |
| Dictionary.Dict.FirstEmpty | app/dictionary.c:289-294 | the wrap-around loop ends, at the first empty slot from n on |
| Dictionary.Dict.Set | app/dictionary.c:255-301 | the map is updated, a NULL key refused; distinct keys, n and hashes are kept |
| Dictionary.Dict.Unset | app/dictionary.c:314-349 | the key leaves the map; a NULL key changes nothing |
| IniLine.StrStrip | app/iniparser.c:91-109 | the buffer holds its text without the blanks around it, and the length is returned |
| IniLine.StripOf | app/iniparser.c:91-109 | exactly the blanks around a trimmed text are taken off |
| IniLine.ParseValueIs | app/iniparser.c:653-681 | the five formats together split a line at its first equals sign; without a key before it, or without one, the line is an error |
| IniLine.ValueOfIs | app/iniparser.c:653-681 | the text after the equals sign is read unchanged exactly when it is trimmed and has no comment, quote or empty-quote meaning |
| IniLine.ParsePrinted | app/iniparser.c:628-689 | what a printed line is read as: comment, section, or its key with what the formats make of its value |
| IniLine.LineRoundTrip | app/iniparser.c:628-689 | a printed key and value are read back exactly when they are safe, for all strings |
| IniLine.SectionRoundTrip | app/iniparser.c:648-652 | a printed section name is read back exactly when it is not empty, trimmed and without a closing bracket |
| IniLine.LineKind | app/iniparser.c:639-685 | which of all lines are empty, comments, sections and errors: an error is a line that is not blank, not a comment, not in brackets, and has no equals sign or begins with one |
| IniLine.CommentLine | app/iniparser.c:645-647 | a line whose first character is # or ; is a comment, whatever blanks are in front of it and whatever it holds |
| IniLine.QuotedLine | app/iniparser.c:653-658 | a text in quotes is read as it is, comment characters included, and what follows the closing quote is left out |
| IniLine.EmptyQuotes | app/iniparser.c:663-669 | two quotes are read as an empty value |
| IniLine.CommentedLine | app/iniparser.c:659-681 | blanks and a comment behind a value without quotes are left out |
| IniFile.FGets | app/iniparser.c:740-754 | a read takes one line, the rest of the file, or a full buffer |
| IniFile.OneTurn | app/iniparser.c:740-771 | every turn of the loop consumes text, and what a backslash leaves fits the buffer |
| IniFile.ReadLine | app/iniparser.c:740-799 | a line of the buffer that is not continued is absorbed whole, whatever follows it |
| IniFile.ReadContinued | app/iniparser.c:764-771 | a trailing backslash is dropped and the next line appended |
| IniFile.LoadEntries | app/iniparser.c:311-319 | reading a printed section back stores each of its entries and nothing else |
| IniFile.SectionsAre | app/iniparser.c:164-215 | the section names are exactly the keys without a colon |
| IniFile.DumpLoads | app/iniparser.c:258-322 | loading what was printed from a well-formed dictionary gives back the same map, whatever its size and slot order |
| IniFileExact.LoadClean | app/iniparser.c:705-811 | nothing that is loaded contains a newline, whatever the file |
| IniFileExact.OneEntryRoundTrip | app/iniparser.c:258-811 | a section with one entry survives printing and loading exactly when the entry is safe, so no condition on entries can be dropped |
| IniFileExact.EmptyNameRoundTrip | app/iniparser.c:258-811 | a section with the empty name, which is not well-formed, survives when it is printed first |
| IniFileExact.KeysLoad | app/iniparser.c:265-273 | without sections, a printed dictionary is read back with a colon in front of every key, NULL values as the text printed for them |
| IniFileExact.PrintedInOrder | app/iniparser.c:164-319 | sections, and the entries of a section, are printed in the order of their slots |
| IniErrors.RefusedExactly | app/iniparser.c:740-811 | a file is refused exactly when one of its logical lines is too long or in error |
| IniErrors.PlainFileLoads | app/iniparser.c:740-811 | a file of lines of at most 1022 characters, none continued, loads exactly when none of them is in error |
| IniErrors.BadLineRefuses | app/iniparser.c:786-808 | one line in error refuses the file, whatever precedes and follows it |
| IniErrors.LongLineRefuses | app/iniparser.c:746-754 | one line of 1023 characters or more refuses the file, whatever follows it |
| IniParser.GetNSec | app/iniparser.c:164-179 | counts the keys without a colon |
| IniParser.GetSecName | app/iniparser.c:195-215 | the n-th key without a colon in slot order, or NULL |
| IniParser.FindEntry | app/iniparser.c:576-583 | true exactly for keys of the map, NULL values included |
| IniParser.DumpSectionIni | app/iniparser.c:296-322 | prints the section and its entries, or nothing when it is unknown |
| IniParser.DumpIni | app/iniparser.c:258-282 | prints every section, or every key when there is none |
| IniParser.Store | app/iniparser.c:772-797 | stores a section or an entry under the current section, or counts an error |
| IniParser.LoadIni | app/iniparser.c:705-811 | computes the dictionary of the text, or NULL for a line that is too long or in error |
| Decimals.DecimalRoundTrip | app/iniparser.c:451-458 | every int survives sprintf and strtol with base 0 |
| Decimals.MagnitudeOfDecimal | app/iniparser.c:451-458 | a printed decimal is never read as octal or hexadecimal |
| Preference.GetInt | app/iniparser.c:451-491 | the number of the entry, or the default when the key or the dictionary is missing |
| Preference.WriteProfile | app/preference.c:41-54 | adds the section when it is missing, then the entry, and changes nothing else |
| Preference.WriteKeepsWellFormed | app/preference.c:41-54 | a configuration stays well-formed exactly when the section name and the entry written are safe |
| Preference.FlagChanges | app/preference.c:210-338 | setting a flag gives it the value set, and keeps the other flags and every other entry |
| Preference.FlagSet | app/preference.c:210-338 | setting a flag keeps a well-formed configuration well-formed |
| Preference.SetSurvivesReload | app/preference.c:234-242 | printed and loaded again, the configuration is the same and the flag reads as set |
| Preference.SettingsKept | app/preference.c:210-338 | after any settings every flag has its last value and every other entry is as it was |
| Preference.Preferences.constructor | app/preference.c:413-454 | each flag is the number under its own full name in the file, well-formed or not, or 1 where it has none; every flag is 1 when the file cannot be loaded |
| Preference.Preferences.LoadSystemParam | app/preference.c:76-88 | each flag is read from its own key, with default 1 |
| Preference.Preferences.DumpProfile | app/preference.c:61-69 | the file holds what the printer prints, and is left alone when it cannot be opened |
| Preference.Preferences.SetFlag | app/preference.c:210-338 | only that flag changes in memory, each flag is the number under its own full name, and the file holds what the printer prints: it loads as the configuration in memory when that was well-formed, and is emptied when none was loaded |
| Dll.List.InsertBefore | app/dll.c:11-26 | the node is inserted in front of the given one; links, ends and count stay consistent |
| Dll.List.InsertAfter | app/dll.c:28-42 | the node is inserted behind the given one |
| Dll.List.PushHead | app/dll.c:44-57 | the node becomes the first |
| Dll.List.PushTail | app/dll.c:59-74 | the node becomes the last |
| Dll.List.PopHead | app/dll.c:76-91 | the first node is taken, NULL from an empty list |
| Dll.List.PopTail | app/dll.c:93-108 | the last node is taken, NULL from an empty list |
| Dll.List.Remove | app/dll.c:110-125 | exactly that node leaves the list |
| Dll.List.Traverse | app/dll.c:127-139 | ends, with the first node the callback rejects, or NULL, also when there is no callback; the callback reads what it likes |
| Dll.List.WalksAreReversed | app/dll.c:5-154 | the walk from head by next and the walk from tail by prev are each other's reverse and meet count nodes |
| MemPool.AllocKeeps | app/mem_pool.c:112-131 | NULL exactly when every buffer is out; otherwise a buffer that was not out, and is now |
| MemPool.ReleaseKeeps | app/mem_pool.c:139-174 | succeeds exactly for a buffer that is out; anything else, a double free included, changes nothing |
| MemPool.FreeAndUsed | app/mem_pool.c:68-174 | free plus used is buffer_count |
| MemPool.HandedOutOnce | app/mem_pool.c:112-174 | over any run a buffer is handed out at most once more than it was taken back |
| MemPool.LongestFreeFirst | app/mem_pool.c:112-174 | over any run buffers are handed out in the order in which they became free |
| MemPool.IndexOfAddress | app/mem_pool.c:148-155 | the index of a buffer is recovered from its address |
| MemPool.BuffersDisjoint | app/mem_pool.c:91-102 | buffers do not overlap and end within the pool |
| MemPool.IndexInBounds | app/mem_pool.c:141-157 | an address that passes the tests indexes a node exactly when it is not the end address |
| MemPool.EndAddressPasses | app/mem_pool.c:141-157 | the end address does pass them |
| MemPool.MemoryPool.UsedIffInUse | app/mem_pool.c:112-174 | a buffer is out exactly when in_use of its node is 1 |
| MemPool.MemoryPool.constructor | app/mem_pool.c:68-105 | every buffer is free, in address order |
| MemPool.MemoryPool.AddNode | app/mem_pool.c:92-98 | one more node, unused and last on the free list |
| MemPool.MemoryPool.Alloc | app/mem_pool.c:112-131 | the longest free buffer; the free list stays exactly the nodes not in use |
| MemPool.MemoryPool.Free | app/mem_pool.c:139-174 | -1 and no change unless the buffer is out; the free list stays exactly the nodes not in use |
| MemPool.MemPoolCreate | app/mem_pool.c:244-275 | which sizes and counts are refused; otherwise a pool with nothing out |
| RingBuffer.PointerRing.Push | app/ring_buffer.c:28-45 | refused exactly when full, otherwise last; a ring created for n holds n |
| RingBuffer.PointerRing.Pop | app/ring_buffer.c:53-70 | the oldest element, refused exactly when empty |
| RingBuffer.FirstInFirstOut | app/ring_buffer.c:28-70 | over any run what was popped followed by what is held is what was pushed |
| RingBuffer.RefusedExactly | app/ring_buffer.c:28-70 | after any operations, a pop is refused exactly when as many were popped as pushed, and otherwise returns the oldest; a push is refused exactly for NULL or with as many outstanding as the ring was created for |
| Pipeline.ThreadStepMoves | app/rs232_thread.c:343-385 | every step of every thread moves each buffer from one place to one other |
| Pipeline.Setup | app/ctrl.c:630-638 | the sizes main chooses are an initial state: 32 record buffers and a ring of 32, 10 alarm buffers and two rings of 5 |
| Pipeline.EveryBufferInOnePlace | app/ctrl.c:534-576 | in every interleaving each buffer is in exactly one of its pool, a ring, or one thread's hand |
| Pipeline.DatabasePushSucceeds | app/di_thread.c:175-198 | no push onto the database ring is ever refused, and no buffer is lost |
| Pipeline.NothingLeaks | app/di_thread.c:123-165 | when every thread is idle, the buffers that are out are exactly those on the rings, each once: every early return and failed push gave its buffers back |
| PipelineRuns.CallsComplete | app/ctrl.c:534-576 | in every interleaving, a call that got two alarm buffers has offered the first exactly once to the SMS ring and the second, a different one, exactly once to the e-mail ring, and freed what was refused; a reader frees what it popped from its own ring, and to the right pool; no call does anything else |
| PipelineRuns.DeliveredInOrder | app/ring_buffer.c:28-70 | in every interleaving, what was popped from a ring is, in order, what that ring accepted, but for what it holds; and each pool hands out in the order in which buffers became free |
| Alarm.TestFree | app/rs232_thread.c:162-224 | the nested tests end an alarm exactly when its limit is gone or the value is past what frees it |
| Alarm.TestLimits | app/rs232_thread.c:225-253 | the nested tests raise an alarm exactly when a limit is passed, the lower one first |
| Alarm.CompareOne | app/rs232_thread.c:139-424 | one turn updates one last value in place, and keeps the old status when a buffer is missing |
| Alarm.CompareValues | app/rs232_thread.c:114-426 | one pass judges each parameter on its own last value and touches no other |
| AlarmRuns.CompareChanges | app/rs232_thread.c:139-387 | a raise is attempted exactly on leaving NORMAL, a discard exactly on returning to it, and only with both buffers in hand |
| AlarmRuns.AttemptsAlternate | app/rs232_thread.c:139-387 | under any failures the attempts strictly alternate from a raise, and the status is NORMAL exactly when they are balanced |
| AlarmRuns.RaisedExactly | app/rs232_thread.c:225-253 | after any run that ends NORMAL, a raise is attempted exactly when an enabled limit is passed, strictly for analog values and inclusively for enumerations, the lower one first |
| AlarmRuns.UpperEndedExactly | app/rs232_thread.c:162-193 | after any run that ends in the upper alarm, a discard is attempted exactly when the limit is gone or the value is past what frees it, with and without a free value |
| AlarmRuns.LowerEndedExactly | app/rs232_thread.c:194-224 | the same for the lower alarm |
| AlarmRuns.Starved | app/rs232_thread.c:259-356 | without all three buffers a turn takes over the value, and keeps the status and attempts nothing |
| AlarmRuns.PublishedExactly | app/rs232_thread.c:146-160 | when the status is shown, and when a history record is due: after a timeout, for an enumeration that differs, and for an analog value that differs by more than its threshold |
| AlarmRuns.EnumerationIsAnalog | app/rs232_thread.c:162-253 | over any run, an enumeration with whole limits has the statuses and attempts of an analog parameter whose limits are moved by one half |
| AlarmRuns.VariationBound | app/rs232_thread.c:162-253 | with fixed limits every raise and discard of one alarm costs twice its hysteresis in variation, whatever the other alarm does |
| AlarmRuns.HysteresisBound | app/rs232_thread.c:162-253 | k raises of the upper alarm need a variation of at least 2 (k - 1) (up_limit - up_free), and k of the lower one 2 (k - 1) (low_free - low_limit), for analog values and enumerations |
| AlarmRuns.TwoSamplesRaise | app/rs232_thread.c:162-253 | two samples that stay beyond a limit leave its alarm on, after any run |
| AlarmRuns.TwoSamplesRaiseIff | app/rs232_thread.c:162-253 | for a value beyond a limit: two samples of it leave the alarm on after every run exactly when it raises the alarm, does not free it, and frees the other one |
| AlarmRuns.OrderedIff | app/rs232_thread.c:162-253 | with all limits set, every analog value beyond a limit is such a value exactly when the limits are in order |
| AlarmRuns.InsideSettles | app/rs232_thread.c:162-253 | one sample between the values that free the alarms ends either alarm |
| AlarmRuns.DisabledSettles | app/rs232_thread.c:190-193 | an alarm whose limit is taken away ends with the next sample |
| AlarmRuns.SteadySample | app/rs232_thread.c:162-253 | from NORMAL, a value that does not change attempts an alarm in every turn when it both raises and frees one, and otherwise attempts at most one alarm, and leaves it on |
| ComFail.Turn | app/rs232_thread.c:720-745 | one exchange updates only its protocol's counter and flag, and says what is reported |
| ComFail.FlagMeansTwoEmpty | app/rs232_thread.c:697-751 | the flag is up exactly after two empty answers since the last good one, and reports alternate |
| Resend.AllocatedFindsSlot | app/email_alarm_thread.c:84-95 | after a successful allocation there is an empty slot |
| Resend.UpdateKeeps | app/email_alarm_thread.c:102-140 | a message keeps occupied slots and outstanding buffers in bijection, with distinct keys |
| Resend.CheckKeeps | app/email_alarm_thread.c:265-294 | a check visits every slot once and keeps the bijection |
| Resend.NothingLeaks | app/email_alarm_thread.c:84-140 | over any run the table and its pool agree, and an allocated buffer finds its slot |
| Resend.NoDiscardLeft | app/email_alarm_thread.c:327-353 | after a check no discard is in the table |
| Resend.StoredToSend | app/email_alarm_thread.c:112-136 | what a message is stored with: no time of a last send, and one send for a discard, its own count on a refresh, the configured count when new, 2^32 for 0 |
| Resend.DroppedExactly | app/email_alarm_thread.c:122-139 | a message is dropped, and changes nothing, exactly when its key is new and every slot is occupied |
| Resend.SendsPlusRemaining | app/email_alarm_thread.c:272-293 | until its key arrives again, sends made plus sends left is constant, and at 0 the entry is gone for good |
| Resend.SentIsLastArrived | app/email_alarm_thread.c:265-294 | over any run, every message sent is, but for its count of sends, the last message of its key that had arrived |
| Resend.TimingIsLastSend | app/email_alarm_thread.c:279-286 | over any run the time kept with an entry is that of its last send since it was stored |
| Resend.SentWhenDue | app/email_alarm_thread.c:278-286 | until its key arrives again, an entry is sent in the first check, and then exactly when send_interval times five minutes have passed since it was last sent |
| Resend.ReleasedTogether | app/email_alarm_thread.c:288-292 | slot and buffer are given back together, exactly in the check that makes the last send |
| ResendTable.AlarmTable.constructor | app/email_alarm_thread.c:383-389 | an empty table of 16 slots and a pool of 16 buffers |
| ResendTable.AlarmTable.InsertQueue | app/email_alarm_thread.c:84-95 | the buffer goes to the first empty slot, fresh |
| ResendTable.AlarmTable.UpdateAlarmQueue | app/email_alarm_thread.c:102-140 | the slots, buffers and pool change as the table does, though messages are written in place |
| ResendTable.AlarmTable.CheckAlarmQueue | app/email_alarm_thread.c:265-294 | the loop sends and releases as the table does, and never frees the end address |
| Crc16.TablesAreShifts | protocol_frame/crc16.c:3-45 | every entry of the two tables is the bit-serial register after one byte |
| Crc16.TurnIsShift | protocol_frame/crc16.c:51-57 | one turn of the table loop is eight shifts of the bit-serial register |
| Crc16.CreateCrc16Code | protocol_frame/crc16.c:47-60 | the code of every message is the bit-serial CRC, polynomial 0xA001, from 0xFFFF |
| Crc16Errors.BurstDetected | protocol_frame/crc16.c:47-60 | messages that differ within 16 consecutive bits have different codes |
| Crc16Errors.AdjacentBytesDetected | protocol_frame/crc16.c:47-60 | messages that differ within two adjacent bytes have different codes |
| Crc16Errors.CodeChecksToZero | protocol_frame/crc16.c:47-60 | a message followed by two bytes leaves 0 exactly when they are its code, low byte first |
| Crc16Errors.LeadingZeroCounts | protocol_frame/crc16.c:49-50 | a zero byte in front of any message changes its code, because the register does not start at zero |
| Crc16Errors.FullBytesClear | protocol_frame/crc16.c:49-50 | two bytes 0xFF clear the register, which fixes where it starts |
| Base64.Encode | app/smtp.c:140-190 | the text has 4 ceil(n / 3) characters |
| Base64.DecodeOfEncode | app/smtp.c:140-190 | decoding the text gives back the bytes, for every byte string |
| Base64.EncodeOfDecode | app/smtp.c:140-190 | a text that decodes is the encoding of what it decodes to |
| Base64.ValueOfTable | app/smtp.c:138-138 | the table is the alphabet of RFC 4648, in order |
| Base64.PutQuad | app/smtp.c:160-183 | one turn writes the four characters of its group and nothing else |
| Base64.Base64Encode | app/smtp.c:140-190 | the text and its terminator are written when both fit, and then nothing beyond; otherwise nothing; the room needed is returned |

## Left out

- lf_queue: what else several threads break once two of them collide; weak memory ordering; attaching to an existing segment; sizes that are not positive.
- Shared-memory attach, semaphores, GPIO, UART, watchdog, SQL, SMTP and TLS networking, logging and thread creation: calls into the operating system and libraries.
- Allocation that fails and addresses that overflow 32 bits, in the dictionary, the pool, the ring and the parser; `pool_mem_alloc` rounding: an aligned address is a parameter.
- MemPool.MemoryPool.Free: asks callers not to pass the end address, because the code then reads past its nodes; see MemPool.IndexInBounds.
- MemPool.MemoryPool.Alloc: takes the in_use write, which the code makes after it releases the mutex, as part of the allocation.
- IniFile.DumpLoads: states one direction for whole dictionaries; the exact condition is proved per line, per section name and for one entry, and a map that is not well-formed can survive (IniFileExact.EmptyNameRoundTrip).
- Dll.List.Traverse: a callback that changes the list or what its argument refers to, as p_arg allows, is not modelled.
- Dictionary.Hash: a char is unsigned, as with the ARM compiler of the build (app/Makefile:17); a compiler with a signed char would hash bytes above 127 differently, and every other result holds for any hash.
- IniParser.DumpSectionIni: the buffer for the section prefix is not modelled, so section names longer than 1023 characters are not excluded.
- Preference.WriteProfile: the buffer of 256 bytes for the key is not modelled; the flag names are far shorter.
- Preference.GetInt: an entry without a value, for which strtol would be given NULL, is excluded; well-formed configurations have none among the flags.
- The other loaded parameters (send times, server, outputs) repeat `iniparser_getint` and `iniparser_getstring`; the modification-time test of the reload is not modelled.
- Base64.Base64Encode: lengths are unbounded, so the overflow of an int length is not modelled.
- Resend.Update: the text and time stamp of a message are one opaque member; who is mailed or texted is not modelled.
- Resend.SentWhenDue: times and intervals are unbounded, so the overflow of an int product of the interval is not modelled.
- Alarm.Compare: NaN and rounding of floats; history records beyond whether one is due; the text of messages.
- ComFail.FlagMeansTwoEmpty: what record_com_fail writes is not modelled beyond its buffers.
- Splitting of long texts in the modem modules, and checks of device responses: neither keeps a clean property.
- Clearing of rings and pools at shutdown, and the order of shutdown.
- `protocol_frame/list.c`, a simpler list than `app/dll.c`: sequences stand for parameter lists.
