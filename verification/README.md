# Bridge-IC firmware: verified models of its update, POST-code and counter logic

This project models the parts of the bridge-IC firmware (OpenBIC) that must leave an exact
result behind: voltage-regulator, retimer and CPLD updates that arrive in pieces, the POST-code
ring and the thread that drains it, and counters that wrap. Each part is modelled in the form of
its C source: values and functions where the source computes, classes and loops where it updates
static records, buffers and devices. Every method is proved equal to a function or to a
statement about the device, and the theorems are about those functions, for every input, every
run and every pattern of bus failures.

## What is in it

**Streaming configuration update of the MP29526** (`CText`, `VrBus`, `StreamSpec`,
`StreamUpdater`, `StreamChunks`, `StreamSafety`, `StreamTheorems`, `StreamPlan`, `StreamPages`,
`StreamRuns`, `StreamWire`, `StreamLog`, `StreamMemory`, `StreamExamples`). The device has a page pointer, WRITE_PROTECT, a selected multi-config set,
operating registers and user memory; a link oracle, indexed by the number of transactions made
so far, decides for each one whether it is acknowledged, whether it takes effect all the same,
and what a read returns. `StreamSpec` says what a row, a line and a chunk do.
`StreamUpdater.Updater` is the static `mp29526_stream` record with its 128-byte line buffer and
32-byte block buffer, and each of its methods is proved to compute its `StreamSpec` function.
Main results, for every image: the bytes each kind of row puts on the wire; the identity check
before anything else; each row written in its own set; a reported success only behind a clean
status read; chunk independence; sets selected only when nothing of another
set is pending; nothing left unstored on success; restoration of the write protection on every
terminal path; the writes of an image as those of its runs of rows; the verdict as a property of
the text; and, read off the text alone, on which page each write is made, exactly when rows reach
their pages, when the page cache is coherent, and which protection is left. For images that
mislead no row and leave protection, set selection and reloading to the driver, user memory is
the last-writer-wins fold of the image's writes.

**Whole-image update, refinement, and the PLDM transfer** (`BatchSpec`, `BatchTheorems`,
`StreamRefinesBatch`, `PldmTransfer`, `PldmDriver`). The older path that parses the whole image
first, proved to keep the same rules for every list; on images both paths are meant for, both
perform one and the same list of configuration writes, each on the same page of the device.
Requests of a transfer tile the image, and
a transfer is one call with the whole image.

**POST codes** (`PostCodeRing`, `Pcc`, `PostCodeProtocol`). The wrapping ring is proved to be the
history of insertions since the last reset; the DMA decoder delivers the same codes however the
pairs are spread over callbacks; and in every interleaving of callback and thread each code is
sent exactly once, in order, with no lost wake-up. Callback and thread of the decoder's class are
proved to be sequences of the protocol's steps.

**CPLD and FPGA images** (`BitOrder`, `Lattice`, `Max10`). The JED state machine driven by
`next_ofs` as a whole transfer, on any image; the bit order from characters to wire; the word assembly for the
MAX 10.

**Retimer EEPROMs** (`Retimer`, `RetimerTransfer`, `IntelHex`, `HexUpdate`). The PT5161L path through its four
layers (sector buffer, EEPROM page, 32-byte blocks, 4-byte register writes) and the transfer that
feeds it, for any buffer size up to a sector; the Intel HEX parser
of the DS160PT801, its verified 8-byte groups, and its transfer in cut-off messages.

**Paired-group stores of the MP289x** (`PairedStores`).

**Counters and numbers** (`EnergyCounters`, `Linear11`, `Modular`). READ_EIN differences, 32-bit
energy counters, and the LINEAR11 encoder (PMBus Specification Part II, section 7.3).

## Where the code does less than its comments or callers suggest

- A configuration row may itself write PAGE. The driver then believes the device on the old page,
  and a later row for that page is written elsewhere. `StreamPages.Lands` says of a text that
  none is: no row for a page writes behind a PAGE row of that page for another one, nor for page
  0xFF, which is taken for "unknown", before any page select, with only rows of the same page
  that write nothing in between. On a healthy bus and on success a run's writes land if and only
  if its text says so (`RowsReachTheirPage`; a concrete run is `PageRowMisdirectsNext`).
- A row may set WRITE_PROTECT on page 0, which then stays in force unless a later row or the
  restore overwrites it; and the original protection is written back only if it is one of the values
  `mp29526_set_write_protect` accepts. `ProtectionRestoredExactly` says which value is left, and
  `ProtectRowStays` is an image that leaves a part protected that was not.
- User memory is proved to follow the image where no row is misled, the rows leave WRITE_PROTECT,
  RESTORE_USER and MULTICFG_SEL to the driver, and they address the device as it is organised
  (`StreamMemory.FitsDevice`). No other result about whole updates needs such a condition.
- A block of byte rows goes out on the page of its last row. Rows that name another page are
  therefore not written on it, which `Lands` does not show: every single row reaches its page if
  and only if the image lands and the rows of each run name one page (`EveryRowReachesItsPage`;
  `MixedBlockOnLastPage` is a block for which they do not).
- A byte row of another command or length drops the rows of the block under way, and the update
  still reports success (`RestartForgets`); every row is in some write if and only if that never
  happens (`EveryRowIsWrittenExactly`).
- A PLDM buffer that is 1 to 32 bytes larger than the image makes every MP29526 transfer fail:
  its padding is taken for an unfinished line (`PldmTransfer.TransferVerdict`).
- The whole-image path keeps four bits of the page column, the streaming path eight
  (`PagesAgreeExactly`); it refuses images of 1024 writes or more (`TooManyRefused`), and in a row
  with an empty column it takes over what its list entry held before (`MissingTokensKeep`).
- A ring with as many codes pending as it has slots looks empty to the thread (`DrainExactly`).
- Nothing resets the CPLD parsing state after a failure, so the next update can program its first
  line as fuses (`StaleStateProgramsFirstLine`); the jump behind the fuse list goes forward only
  when the bottom part lies ahead, or is the whole image (`OffsetsIncrease`).
- A CPLD image whose lines do not lead to its user code line is reported as done without the
  closing sequence (`SuccessIsClosedExactly`). Without a fuse list the part is left erased, with
  nothing programmed (`NoFuseListIsReportedDone`).
- The DIMM power reader multiplies its energy difference by 1000 in 32 bits, so it is right only
  for advances up to 4294967 (`ScaledExactly`).
- The Intel HEX parser refuses a record the text stops right behind, and only then insists on a
  line end (`UnendedRecord`); it never compares checksums.
- The DS160PT801 transfer reports success with nothing programmed when the first request is
  shorter than one 77-character line (`ShortRequestDoesNothing`). From one line on it never reads
  a tail shorter than 45 characters, so a short last record is lost (`ShortLastRecordIsLost`); with
  a longer tail it succeeds only where the lines come out even with the first request, or all fit
  in a first request that overshoots the text by more than 32 (`HexUpdate.TransferVerdict`).
- The MP289x stores each finished pair under the name of the group entered next, which is right
  exactly when every pair has its even group, every pair but the first its odd group, and the
  pairs are consecutive (`PairsAreStored`); the last store is named after the last row whatever
  it is (`LastStore`).

## Assumptions about devices

The VR drops writes other than PAGE and WRITE_PROTECT silently while protected; STORE_USER and
RESTORE_USER copy the shared registers and the selected set; its register map says which
registers exist once per set and which are process calls. A locked VR acknowledges the
driver's write of WRITE_PROTECT and ignores it. The PT5161L's I2C controller takes a new target
address only while disabled and passes bytes on only while enabled, the first two bytes of a
transfer are the EEPROM address, and the assist command burns the holding registers at the
address counter, provided the target is one of the EEPROM's addresses 0x50 to 0x53. The
DS160PT801's buffer is emptied when its low offset byte is written. Counters count modulo the
constants the drivers use. A shift by 32 bits or more yields zero, as on the ARM cores the
firmware runs on, so a POST-code byte for a port above 0x83 adds nothing.

## Model

| member | source | states |
|---|---|---|
| CText.SplitJoin | common/dev/mp29526.c:1566-1600 | joining the tab-separated columns of a line gives the line back, so columns lose nothing |
| CText.JoinSplit | common/dev/mp29526.c:1566-1600 | columns without a tab, joined, are found again as they were, one tab fewer than columns |
| CText.TokensAreColumns | common/dev/mp29526.c:1571-1599 | the tokens strtok_r yields are the non-empty columns of the line, in order |
| StreamUpdater.CntChar | common/dev/mp29526.c:1211-1220 | the loop counts the occurrences of a character before the terminating NUL |
| StreamUpdater.HexToBytesMsbFirst | common/dev/mp29526.c:1554-1564 | accepts exactly strings of 2n characters and yields their n bytes, first pair first |
| StreamUpdater.PayloadOf | common/dev/mp29526.c:1707-1711 | a block payload is its length n, then at position j byte n - j |
| StreamUpdater.ParseGroupPage | common/dev/mp29526.c:1536-1552 | accepts exactly columns of 1 to 3 characters (a digit first when there are 3) and yields set and page |
| StreamUpdater.ParseRow | common/dev/mp29526.c:1566-1600 | on a line with seven tabs the token loop accepts exactly rows of eight non-empty columns with a good page column, and yields their fields |
| StreamUpdater.ParsingLine | common/dev/mp29526.c:1222-1261 | overwrites just the fields whose columns exist and rejects exactly reference rows |
| StreamUpdater.ParsingImage | common/dev/mp29526.c:1263-1312 | the index-driven loop over the image fills the list in place as the parser specification says, giving 0 when it gives up |
| StreamUpdater.Updater.constructor | common/dev/mp29526.c:1503-1533 | a fresh record with its own line and block buffers |
| StreamUpdater.Updater.IdentifyDevice | common/dev/mp29526.c:1045-1085 | byte-by-byte comparison of the ID block accepts exactly the family's three IDs |
| StreamUpdater.Updater.ReadProtection | common/dev/mp29526.c:1093-1106 | reads WRITE_PROTECT on page 0 |
| StreamUpdater.Updater.WriteProtection | common/dev/mp29526.c:1108-1131 | writes one of the accepted values on page 0 and compares the read-back |
| StreamUpdater.Updater.NvmStatus | common/dev/mp29526.c:1314-1340 | succeeds exactly when STATUS_CML is read and shows neither NVM CRC nor PEC error |
| StreamUpdater.Updater.ReadFwVersion | common/dev/mp29526.c:1148-1165 | its two transactions; the value is not used |
| StreamUpdater.Updater.StoreVerify | common/dev/mp29526.c:1615-1659 | STORE_USER, CRC read, RESTORE_USER, status check, stopping at the first failure, with the page cache left as specified |
| StreamUpdater.Updater.ChangeGroup | common/dev/mp29526.c:1663-1693 | leaving a nonzero set stores it first; entering one selects it; set 0 is entered without a transaction |
| StreamUpdater.Updater.FlushBlock | common/dev/mp29526.c:1695-1725 | sends a complete block and clears it, refuses an incomplete one, does nothing without one |
| StreamUpdater.Updater.WriteRow | common/dev/mp29526.c:1746-1756 | one row write, counted when acknowledged |
| StreamUpdater.Updater.PushByte | common/dev/mp29526.c:1822-1826 | one more byte in the block buffer; the last one sends the block |
| StreamUpdater.Updater.TakePiece | common/dev/mp29526.c:1804-1827 | a byte row continues its block, or restarts when command or length differ |
| StreamUpdater.Updater.OpenBlock | common/dev/mp29526.c:1805-1816 | the block under way is kept exactly when command and length match, else a new one is opened |
| StreamUpdater.Updater.SendCall | common/dev/mp29526.c:1757-1773 | a process-call row sends sub-address and value, unless a block is open or the value malformed |
| StreamUpdater.Updater.SendShort | common/dev/mp29526.c:1784-1803 | a block of up to four bytes goes out reversed behind its length, under the same conditions |
| StreamUpdater.Updater.Dispatch | common/dev/mp29526.c:1746-1831 | the branches on the tag column do what the row's classification says |
| StreamUpdater.Updater.ProcessRow | common/dev/mp29526.c:1727-1834 | reference rows do nothing; any other row switches set, reaches its page and acts |
| StreamUpdater.Updater.ReachEnd | common/dev/mp29526.c:1886-1895 | END flushes and stores unless nothing was written, and what follows is ignored in any case |
| StreamUpdater.Updater.ProcessLine | common/dev/mp29526.c:1857-1907 | the buffered line is applied and the buffer emptied |
| StreamUpdater.Updater.Consume | common/dev/mp29526.c:1909-1928 | the character loop with its in-place line buffer equals feeding buffered text plus data, including the abort at the 128th character |
| StreamUpdater.Updater.RestoreWp | common/dev/mp29526.c:1602-1611 | rewrites the saved protection unless it was off |
| StreamUpdater.Updater.AbortUpdate | common/dev/mp29526.c:1975-1979 | an abort marks the record and then restores the protection |
| StreamUpdater.Updater.Start | common/dev/mp29526.c:1935-1968 | the first-chunk set-up: identity, protection saved and off, faults cleared |
| StreamUpdater.Updater.Complete | common/dev/mp29526.c:1984-2012 | the end of the image: no unfinished line, last commit, at least one write, protection back |
| StreamUpdater.Updater.UpdateChunk | common/dev/mp29526.c:1930-2013 | a whole call, on any record state, equals the specified chunk |
| StreamUpdater.Updater.WriteList | common/dev/mp29526.c:1368-1388 | writes the list with a page cache of its own, up to the first failure or unsupported length |
| StreamUpdater.Updater.StoreList | common/dev/mp29526.c:1390-1402 | one STORE_USER on page 0 and its status check |
| StreamUpdater.Updater.DoUpdate | common/dev/mp29526.c:1342-1418 | the whole-list update equals its specification on every failure path |
| StreamUpdater.Updater.UpdateImage | common/dev/mp29526.c:1420-1451 | parse, refuse an empty list, update |
| StreamChunks.FeedSplit | common/dev/mp29526.c:1909-1928 | text can be fed in two parts: what the first leaves in the line buffer joins the second |
| StreamChunks.ChunkIndependence | common/dev/mp29526.c:1857-2013 | for every image, cut (empty chunks too), device and failure pattern, the chunked update performs the same transactions, ends in the same state and gives the same verdict as one call with the whole image |
| StreamWire.RowReadsBack | common/dev/mp29526.c:1536-1600 | a row written with its set as a digit, its page as two and its address as four hexadecimal digits is read back column by column, name, value and tag cut to 39, 15 and 7 characters |
| StreamWire.WordRowOnWire | common/dev/mp29526.c:1746-1756 | a byte or word row sends its value low byte first to the low address byte |
| StreamWire.CallRowOnWire | common/dev/mp29526.c:1757-1773 | a process-call row sends sub-address and value to the high address byte, and is refused for any other value length or an open block |
| StreamWire.ShortBlockOnWire | common/dev/mp29526.c:1784-1803 | a block of up to four bytes sends its number and then the pairs of its value from the last to the first, and is refused for any other value length or an open block |
| StreamWire.LongBlockOnWire | common/dev/mp29526.c:1705-1720 | n byte rows of a block of 5 to 32 send n and then the bytes from the last row's to the first row's, on the last row's page |
| StreamWire.WrongBlockRefused | common/dev/mp29526.c:1777-1783 | a block length of 0 or above 32 fails the update without a write |
| StreamWire.WrongByteRefused | common/dev/mp29526.c:1817-1821 | so does a byte row whose value is not one pair |
| StreamWire.UnknownTagPasses | common/dev/mp29526.c:1828-1831 | a row with any other tag is passed over |
| StreamWire.LineLimit | common/dev/mp29526.c:1909-1928 | a line of up to 127 characters that is neither END nor of eight columns is passed over, one of 128 fails the update |
| StreamWire.EndEnds | common/dev/mp29526.c:1886-1895 | END, with or without a carriage return, ends the rows, and fails with a block open |
| StreamWire.BehindEnd | common/dev/mp29526.c:1873-1884 | a line behind END makes no transaction and no failure, whatever it is |
| StreamWire.StrtolCases | common/dev/mp29526.c:1536-1552 | strtol skips blanks, takes a sign, takes 0x in base 16 only, and ends at the first other character |
| StreamWire.LowerCase | common/dev/mp29526.c:1536-1552 | digits count in lower case as well |
| StreamLog.SetUpComesFirst | common/dev/mp29526.c:1935-1968 | every update begins, up to its first failure, with page 0, the ID block, the password, WRITE_PROTECT, switching it off where it is on, and clearing the faults; nothing follows an ID block that is none of the three of the family |
| StreamLog.SuccessIsVerified | common/dev/mp29526.c:1615-1659 | in an update that reports success every STATUS_CML read was acknowledged with bits 4 and 5 clear, and every acknowledged STORE_USER, made on page 0, has an acknowledged RESTORE_USER and such a read behind it |
| StreamLog.StoreSequence | common/dev/mp29526.c:1615-1659 | the transactions of a successful store and verify, one by one |
| StreamLog.RowsInTheirSet | common/dev/mp29526.c:1663-1693 | on every run of every image a write for set g has behind it the byte 7 + g to 0x09 on page 9, with no other select of the driver in between |
| StreamSafety.FamilyIs | common/dev/mp29526.c:1045-1085 | the identities accepted are exactly the three nine-byte blocks of the family |
| StreamSafety.ExecLog | common/dev/mp29526.c:228-295 | one bus transaction adds one log entry, and row writes, pending stores, clean selects, protection writes and the pages rows land on follow from that entry alone |
| StreamSafety.StoreAndVerifyTidy | common/dev/mp29526.c:1615-1659 | store and verify, failed or not, keeps the rules of the log, and on success leaves nothing unstored |
| StreamSafety.SwitchGroupTidy | common/dev/mp29526.c:1663-1693 | so does a set switch, after which only shared registers can still be unstored |
| StreamSafety.FeedTidy | common/dev/mp29526.c:1857-1928 | so does any text, with every row's write acknowledged while it goes well |
| StreamTheorems.SetProtectExact | common/dev/mp29526.c:1108-1131 | the restore performs a prefix of four known transactions, and the value goes back exactly when it is writable, the page select is acknowledged and the write lands |
| StreamTheorems.SelectsFindNothingPending | common/dev/mp29526.c:1675-1690 | on every run of every image, however it ends, a set is selected only when nothing but shared registers is waiting to be stored |
| StreamTheorems.NothingLeftUnstored | common/dev/mp29526.c:1992-2008 | after a success, whatever the image, every configuration write has been followed by an acknowledged STORE_USER |
| StreamTheorems.ProtectionRestored | common/dev/mp29526.c:1957-2012 | every update past its set-up, whatever its image, ended by success or an abort anywhere, has the restore as its last transactions, no other protection write of the driver in between, and the saved value exactly when the restore takes effect, else the one the rows left |
| StreamPlan.UpdateWritesTheImage | common/dev/mp29526.c:1727-1907 | the acknowledged configuration writes are a prefix of those read off the text, all of them on success, and only acceptable images succeed |
| StreamPlan.VerdictIsTheText | common/dev/mp29526.c:1930-2013 | on a healthy bus and device an update succeeds if and only if its text is acceptable |
| StreamMemory.StoreAndVerifyKeeps | common/dev/mp29526.c:1615-1659 | a successful store and verify leaves operating registers and user memory equal to the last values written |
| StreamMemory.SwitchGroupKeeps | common/dev/mp29526.c:1663-1693 | a successful set switch keeps selected set, registers and memory in step with the writes |
| StreamMemory.WriteKeeps | common/dev/mp29526.c:1746-1756 | so does a row's write on its own page, PAGE, STORE_USER and CLEAR_FAULT rows included |
| StreamMemory.ApplyRowKeeps | common/dev/mp29526.c:1727-1834 | so does a successful row that is not misled and fits the device |
| StreamMemory.FeedKeeps | common/dev/mp29526.c:1857-1928 | so does any text of such rows |
| StreamMemory.MemoryHoldsTheImage | common/dev/mp29526.c:1615-1659 | after a success user memory holds, for every register written, the last value the image writes to it, when the image misleads no row and its rows fit the device |
| StreamPages.RowsReachTheirPage | common/dev/mp29526.c:1740-1756 | on every run of every image each configuration write is made on the page its row names if the text misleads none, and if and only if it misleads none when the update succeeds or the bus is healthy |
| StreamPages.WritesAreMadeAsRead | common/dev/mp29526.c:1740-1756 | on every run of every image the device pages on which writes were made are the first of those read off the text, and all of them on success, misled rows included |
| StreamPages.NoneIsMisled | common/dev/mp29526.c:1740-1744 | following driver and device row by row comes to the same: all writes land if and only if no row writes for a page the driver wrongly believes in |
| StreamPages.PageCacheCoherent | common/dev/mp29526.c:1620-1752 | after any part of an image taken, the cached page is unknown or the device's own if and only if the text so far leaves no other page believed in |
| StreamPages.ProtectionRestoredExactly | common/dev/mp29526.c:1602-1611 | on an acknowledging bus a nonzero accepted value is always back at the end; on a healthy one any other update ends with the protection the rows leave |
| StreamPages.ProtectionLeft | common/dev/mp29526.c:1746-1756 | where no row is misled, the rows leave the value of the last WRITE_PROTECT row on page 0, or protection off |
| StreamPages.QuietImageLands | common/dev/mp29526.c:1740-1756 | an image without PAGE and WRITE_PROTECT rows and without page 0xFF misleads no row and leaves the protection off |
| StreamPages.FirstRowLandsExactly | common/dev/mp29526.c:1939-1940 | the first row that writes, of any kind, lands if and only if it does not name page 0xFF or belongs to a set |
| StreamPages.PageRowMisdirectsNext | common/dev/mp29526.c:1740-1744 | a concrete PAGE row after which the next row is written on page 5 instead of 1 |
| StreamExamples.ProtectRowStays | common/dev/mp29526.c:1602-1611 | an image with one WRITE_PROTECT row leaves an unprotected part protected, in an update that succeeds |
| StreamExamples.MixedBlockOnLastPage | common/dev/mp29526.c:1822-1826 | four byte rows for page 1 and a fifth for page 2 go out as one write on page 2, 05 and the bytes from the fifth row's to the first row's |
| StreamExamples.ShortBlockReversed | common/dev/mp29526.c:1784-1803 | the value 1234 of a two-byte block goes out as 02 34 12 |
| StreamRuns.ImageIsItsRuns | common/dev/mp29526.c:1695-1827 | the writes of an image are those of its runs of rows in order: one for each word or short row and one for each n byte rows of an n-byte block |
| StreamRuns.BlockIsOneWrite | common/dev/mp29526.c:1804-1827 | n byte rows for an n-byte block add exactly the one write of their run, on the last row's page |
| StreamRuns.RestartForgets | common/dev/mp29526.c:1805-1811 | a byte row of another command or length makes the rows of the block under way as if they had not been there |
| StreamRuns.EveryRowIsWrittenExactly | common/dev/mp29526.c:1805-1827 | in an acceptable image each row acted on is in some write if and only if no block under way was given up |
| StreamRuns.EveryRowReachesItsPage | common/dev/mp29526.c:1695-1827 | in a successful update every single row is written on the page it names if and only if the image lands and the rows of each run name one page |
| BatchTheorems.BatchWritesItsList | common/dev/mp29526.c:1368-1388 | a whole-image update performs a prefix of its list's writes, all on success, and, when no entry is longer than a word, succeeds on a healthy device exactly for a non-empty list |
| BatchTheorems.BatchKeepsTheRules | common/dev/mp29526.c:1342-1418 | for every list, sets are selected clean, nothing is left unstored on success, and the restore of the protection is the last act |
| StreamLog.BatchIssues | common/dev/mp29526.c:1342-1402 | the transactions of a whole-image update up to its restore are the first of: identity check, protection read and off, faults cleared, each entry on its page, store and status read; all of them on success, with a status that shows no error |
| BatchTheorems.BatchRowsReachTheirPage | common/dev/mp29526.c:1368-1388 | its rows reach their pages if the list misleads none, on a healthy bus if and only if; there the update ends with the original protection or, where that was off or is not accepted, with the one the list leaves |
| BatchTheorems.BatchWritesAreMadeAsRead | common/dev/mp29526.c:1368-1388 | the device pages on which its writes were made are the first of those the list says, all of them on success |
| BatchTheorems.MemoryHoldsTheList | common/dev/mp29526.c:1390-1402 | after a success user memory holds, for every register written, the last value the list writes to it, when the list misleads no entry and fits the device |
| StreamRefinesBatch.StreamReadsImage | common/dev/mp29526.c:1566-1600 | the streaming path reads a common image as its list of writes |
| StreamRefinesBatch.BatchReadsImage | common/dev/mp29526.c:1263-1312 | the whole-image parser reads the same list, slot reuse after reference rows included |
| StreamRefinesBatch.PagesAgreeExactly | common/dev/mp29526.c:1234-1235 | a two-digit page column means the same page to both paths if and only if it is below 16 |
| StreamRefinesBatch.TooManyRefused | common/dev/mp29526.c:1263-1312 | the whole-image update of a common image with 1024 writes or more fails without a transaction |
| StreamRefinesBatch.ParserLineLimit | common/dev/mp29526.c:1263-1312 | the whole-image parser gives up at a line of 128 characters and passes one of 127 that is neither END nor of eight columns |
| StreamRefinesBatch.MissingTokensKeep | common/dev/mp29526.c:1222-1261 | a row with fewer tokens than columns keeps length, value or address of what its list entry held before |
| StreamRefinesBatch.SamePages | common/dev/mp29526.c:1368-1388 | an image and a list with the same writes take the device to the same pages, mislead rows in the same cases, and leave the same protection |
| StreamRefinesBatch.StreamingRefinesBatch | common/dev/mp29526.c:1263-1388 | on common images both paths, each on its own bus, perform prefixes of one list of writes on one list of device pages, all of it on success; one misleads a row exactly when the other does; and they agree on the verdict on healthy buses |
| PldmTransfer.RequestsTile | common/dev/mp29526.c:2023-2036 | requests follow each other without gap or overlap, the last one ends at the image's end, only the first can go beyond it |
| PldmTransfer.ChunksAreTheImage | common/service/pldm/pldm_firmware_update.c:873-985 | what is handed over is the image once, plus the tolerated padding exactly when the first request overshoots |
| PldmTransfer.TransferIsOneCall | common/service/pldm/pldm_firmware_update.c:881-985 | a transfer with any buffer size, stopping at a failed chunk, equals one call with the image and its padding |
| PldmTransfer.TransferVerdict | common/service/pldm/pldm_firmware_update.c:889-909 | on a healthy device a transfer succeeds if and only if the image is acceptable and the buffer is not 1 to 32 bytes larger than it |
| PldmDriver.PldmUpdate | common/dev/mp29526.c:2023-2047 | first and last flags, next offset and next length, and the chunk itself |
| PldmDriver.AdjustRequest | common/service/pldm/pldm_firmware_update.c:888-909 | the length handed on, cut at the end of the image, and the wire length, that one or the baseline, whichever is greater |
| PldmDriver.RunTransfer | common/service/pldm/pldm_firmware_update.c:881-985 | the requesting loop equals the specified transfer and ends |
| PostCodeRing.RingIsHistory | common/dev/pcc.c:90-118 | after any inserts and resets, copy(start, length) is the newest-first window, skipping start, of what was inserted since the last reset as far as the capacity reaches |
| PostCodeRing.InsertHolds | common/dev/sbmr.c:77-94 | an insertion keeps the ring equal to its history |
| PostCodeRing.CodeRing.Put | common/dev/sbmr.c:84-94 | the slot, length and wrapping index after an insertion |
| PostCodeRing.CodeRing.Clear | common/dev/pcc.c:477-481 | reset clears the length and leaves the write index |
| PostCodeRing.CodeRing.Copy | common/dev/sbmr.c:47-75 | the copy loop writes exactly the encoded window and leaves the rest of the buffer; a short buffer gets nothing |
| Pcc.DecodeAnySegmentation | common/dev/pcc.c:398-436 | the pairs of any list of 4-byte codes, spread over callbacks in any way, decode to exactly those codes |
| Pcc.ReadRingIsSegment | common/dev/pcc.c:409-434 | a callback over [start, end) of the circular buffer reads back the pairs written there, wrapped or not, a full turn included |
| Pcc.OrIsOr | common/dev/pcc.c:415-415 | a byte written twice to a port leaves the bits of both in the code |
| Pcc.AcceptedExactly | common/dev/pcc.c:419-431 | the filter lets through each code it accepts as often as it came, and no other |
| Pcc.AcceptedInOrder | common/dev/pcc.c:419-431 | and in the order they came |
| Pcc.InsertAllIsRun | common/dev/pcc.c:419-428 | storing codes one after the other is a run of insertions, so a fresh ring holds them as its history |
| Pcc.PccDevice.TakePair | common/dev/pcc.c:413-432 | one pair, whatever its port, advances the accumulator and stores a completed code the filter accepts |
| Pcc.PccDevice.RxCallback | common/dev/pcc.c:398-436 | the do-while ends, inserts exactly the accepted codes of the segment, keeps the partial code, and gives the semaphore |
| Pcc.PccDevice.ProcessRound | common/dev/pcc.c:375-396 | a round sends the slots from its send index up to the snapshot, wrapping, and nothing else |
| PostCodeProtocol.StepKeeps | common/dev/pcc.c:375-435 | every callback or thread step, and a reset from elsewhere, keeps the protocol invariant |
| PostCodeProtocol.ExactlyOnceAndNoLostWakeup | common/dev/pcc.c:375-435 | in every state of every interleaving the codes sent are the first of those inserted, and a blocked thread with no callback under way means all are sent |
| PostCodeProtocol.Delivered | common/dev/pcc.c:378-395 | from any reachable state outside a callback the thread alone blocks again with everything sent, in a known number of steps |
| PostCodeProtocol.DrainExactly | common/dev/pcc.c:380-382 | a send loop started with some codes pending sends them all if and only if they are fewer than the capacity |
| PostCodeProtocol.CallbackInserts | common/dev/pcc.c:398-436 | Enter, a Push for each code and Give insert the codes and give the semaphore, each step enabled while fewer than the capacity are pending |
| PostCodeProtocol.RoundSends | common/dev/pcc.c:378-395 | the thread's steps from a given semaphore until it is back at it send the slots up to the write index |
| PostCodeProtocol.CallbackSteps | common/dev/pcc.c:398-436 | the receive callback of the class is those callback steps, for the codes it decodes and the filter accepts |
| PostCodeProtocol.RoundSteps | common/dev/pcc.c:375-396 | a round of the class is those thread steps |
| EnergyCounters.DiffIsMod | common/dev/mp5990.c:78-87 | computed energy and sample differences are the true ones modulo their periods, hence never negative |
| EnergyCounters.DiffExactly | common/dev/rs31380r.c:80-98 | a difference is the true one if and only if the advance is less than a full period |
| EnergyCounters.EnergyConserved | common/dev/adm1278.c:61-96 | polled often enough, the differences add up to what has accumulated since the first poll |
| EnergyCounters.EinPoller.ReadEin | common/dev/mp5990.c:64-101 | the reading becomes the history in every case, and a value is given exactly when there was a history and samples advanced |
| EnergyCounters.Diff32Exactly | common/dev/intel_peci.c:297-317 | the 32-bit difference is the advance modulo 2^32, the true one if and only if below it |
| EnergyCounters.PeciPoller.ReadPower | common/dev/intel_peci.c:278-327 | history and differences of both counters, with two zeros standing for no history |
| EnergyCounters.ScaledExactly | common/dev/intel_peci.c:412-427 | the DIMM energy difference, scaled by 1000 in a 32-bit word, is the scaled true advance if and only if that is at most 4294967 |
| EnergyCounters.DimmPoller.ReadPower | common/dev/intel_peci.c:387-431 | history and differences of the DIMM reader, the uptime difference wrapping in 32 bits |
| Linear11.FloatToLinear11 | common/dev/mp29526.c:353-390 | succeeds exactly for values from 0 to 1023 times 2^15, with the least exponent that fits, a mantissa without sign bit, and an error of at most half a step |
| Linear11.RelativeError | common/dev/mp29526.c:353-390 | above the least exponent's range the error is below one part in 1023 |
| Linear11.IntegersExact | common/dev/mp29526.c:353-390 | integers up to 1023 are encoded without loss |
| Linear11.EncodingUnique | common/dev/mp29526.c:353-390 | a value has at most one encoding of the stated kind |
| Linear11.EncodingStable | common/dev/mp29526.c:353-390 | the decoded value is encoded by the same word again |
| Linear11.KnownWords | common/dev/mp29526.c:353-390 | the values of six words, exponents of both signs and a negative mantissa among them |
| BitOrder.BitSwap | common/dev/lattice.c:119-128 | the bit-by-bit loop reverses a byte |
| BitOrder.SwapsAgree | common/dev/altera.c:37-40 | the three-mask swap is the same reversal on every byte |
| BitOrder.SwapTwice | common/dev/altera.c:37-40 | each swap undoes itself |
| BitOrder.CfgDataParsing | common/dev/lattice.c:130-160 | the packing loop yields the four 32-bit words, whatever the characters |
| BitOrder.SwapPage | common/dev/lattice.c:525-527 | the page bytes are the words' bytes in memory order, each swapped |
| BitOrder.FileOrderOnWire | common/dev/lattice.c:504-539 | packing into words and swapping bytes puts a row's fuses on the wire in file order |
| Lattice.JedRun | common/dev/lattice.c:609-759 | a transfer of a well-formed image issues a prefix of: identity, transparent mode, erase, one pointer reset, the rows as pages in file order, the user code written and read back, and the four closing commands; it succeeds if and only if none fails, and then has issued all |
| Lattice.AnyImage | common/dev/lattice.c:609-759 | for any image, state and request size a transfer issues a prefix of the commands read off the image, and succeeds, having issued all, if and only if every request finds a line and no command fails |
| Lattice.IdentityBeforeErasure | common/dev/lattice.c:620-644 | in every transfer of any image an erase has a good identity read and then a good switch to transparent mode before it, every page a good erase, and a failed identity read is the last command |
| Lattice.SuccessIsClosedExactly | common/dev/lattice.c:706-743 | for any image, a success has issued the closing sequence if and only if the lines of the image lead to the user code line; otherwise the image ran out |
| Lattice.NoFuseListIsReportedDone | common/dev/lattice.c:738-742 | an image of lines without a fuse list gets the part erased and nothing programmed, and succeeds exactly when the set-up does |
| Lattice.FlashHoldsTheFuses | common/dev/lattice.c:504-539 | those commands leave exactly the fuse rows in the flash, from page 0 on |
| Lattice.OffsetsIncrease | common/dev/lattice.c:683-743 | a call that goes on asks for a later offset, or, at the jump, exactly when the bottom part lies ahead or is the whole image |
| Lattice.FailureKeepsState | common/dev/lattice.c:654-704 | a failed call leaves the parsing state as it was, unless it was the closing sequence that failed |
| Lattice.StaleStateProgramsFirstLine | common/dev/lattice.c:674-704 | the next update programs its first line as a page if and only if the one before stopped in the fuse list and the line is no end mark |
| Lattice.LatticeUpdater.Prepare | common/dev/lattice.c:620-644 | identity, transparent mode and erase, in order, up to the first failure |
| Lattice.LatticeUpdater.ProgramRow | common/dev/lattice.c:504-539 | pointer reset when first, then the page of the row's 128 characters |
| Lattice.LatticeUpdater.ProgramUserCode | common/dev/lattice.c:458-502 | reset, write, reset, read back |
| Lattice.LatticeUpdater.Dispatch | common/dev/lattice.c:674-728 | the switch on passing_state: commands, next state and next offset |
| Lattice.LatticeUpdater.Update | common/dev/lattice.c:609-759 | a whole call equals its specification, next request clipped at the image's end and a zero offset replaced |
| Max10.BurntExact | common/dev/altera.c:182-203 | every word of a message is at its own address, bits 8b to 8b + 7 those of its byte b, the highest first |
| Max10.BurntElsewhere | common/dev/altera.c:182-203 | no other flash word changes |
| Max10.BurntTwice | common/dev/altera.c:183-184 | messages that continue each other write what one message would |
| Max10.Max10Updater.Combine | common/dev/altera.c:185-198 | the in-place swap of four received bytes and their shifted union give the flash word |
| Max10.Max10Updater.CheckWritten | common/dev/altera.c:205-226 | succeeds exactly when one of the next three statuses shows bit 3 |
| Max10.Max10Updater.FwUpdate | common/dev/altera.c:159-232 | a message of any length writes all its words, a last one in part made whole by what the buffer holds behind it, a failure a prefix of them; it succeeds exactly when each write is acknowledged and confirmed before the next |
| Retimer.BurnExact | common/dev/pt5161l.c:657-664 | a burn sets exactly the addresses it covers |
| Retimer.RestIsBurnt | common/dev/pt5161l.c:854-933 | from any point of an update the remaining contiguous messages burn the rest of the image |
| Retimer.ImageExact | common/dev/pt5161l.c:854-933 | successful contiguous messages from offset 0, none across a sector boundary, leave their concatenation zero-padded to whole blocks, and every other byte as it was |
| Retimer.RetimerUpdater.WriteBlock | common/dev/pt5161l.c:62-138 | the bytes go out in pieces of at most four to consecutive registers, a prefix on failure, none for an address above 16 bits |
| Retimer.RetimerUpdater.WriteCtrlReg | common/dev/pt5161l.c:437-473 | register select, four data ports, trigger, in the register writes of the wire specification |
| Retimer.RetimerUpdater.SetPage | common/dev/pt5161l.c:534-564 | the controller is switched off, pointed at address 0x50 + page modulo 4, and switched on, register write by register write |
| Retimer.RetimerUpdater.SendOffset | common/dev/pt5161l.c:580-625 | the transfer is addressed at the offset, whatever was shifted in before |
| Retimer.RetimerUpdater.FillHolding | common/dev/pt5161l.c:646-655 | eight register writes put a block into the holding registers |
| Retimer.RetimerUpdater.Commit | common/dev/pt5161l.c:657-687 | the assist command burns the block where the controller talks to the EEPROM, and success has seen the register read zero |
| Retimer.RetimerUpdater.MultiBlockWrite | common/dev/pt5161l.c:569-693 | burns the whole blocks of the data in place and stops the transfer, each block waited for, in the register writes of the wire specification; a failure has burnt a prefix in place |
| Retimer.RetimerUpdater.WriteEepromImage | common/dev/pt5161l.c:747-796 | the same at any offset from which the data stays in its 64 KiB page, with zero padding of the last sector; more than a sector is refused |
| Retimer.RetimerUpdater.PreUpdate | common/dev/pt5161l.c:695-745 | touches no EEPROM byte, and on success has made the resets and the controller set-up, write by write |
| Retimer.RetimerUpdater.DoUpdate | common/dev/pt5161l.c:823-852 | the same with set-up at offset 0 and resets at the end, write by write |
| Retimer.RetimerUpdater.FwUpdate | common/dev/pt5161l.c:854-933 | a successful message does to buffer and EEPROM what the message specification says, a failed one has burnt at most a prefix of its sector, an over-long one nothing |
| RetimerTransfer.MessagesAreContiguous | common/service/pldm/pldm_firmware_update.c:443-457 | for every image and every buffer up to a sector the requests continue each other, none crosses a sector, the last and only the last is the end, and together they are the image with the tolerated padding |
| RetimerTransfer.ContiguousFits | common/dev/pt5161l.c:880-897 | such messages always find room in the sector buffer and stay in one 64 KiB page |
| RetimerTransfer.TransferLeavesImage | common/dev/pt5161l.c:854-933 | a transfer whose messages succeed leaves the image in the EEPROM from address 0, zeros up to a whole block, and every other byte as it was |
| RetimerTransfer.RunTransfer | common/service/pldm/pldm_firmware_update.c:881-985 | the requesting loop on the updater ends, succeeds on a healthy part, and on success has done what those messages say |
| IntelHex.RoundTrip | common/dev/ds160pt801.c:660-745 | data records rendered with CRLF parse back in order, with or without an end-of-file record and anything after it |
| IntelHex.UnendedRecord | common/dev/ds160pt801.c:727-730 | a record without its line end is refused and lost if and only if the text stops right behind it; else what follows is parsed as if the line had ended |
| IntelHex.ParsedFit | common/dev/ds160pt801.c:703-713 | every stored record has at most 32 bytes and a 16-bit offset |
| IntelHex.BadRecordRefused | common/dev/ds160pt801.c:672-744 | records without a colon, of fewer than nine characters, of another type, too long, cut short or with a wrong digit are refused with nothing stored; an end-of-file record ends the text |
| IntelHex.DataRecord | common/dev/ds160pt801.c:702-736 | the data-record branch with its length and digit checks |
| IntelHex.ReadData | common/dev/ds160pt801.c:716-725 | the data loop accepts exactly upper-case hexadecimal digits and yields their bytes |
| IntelHex.Parsing | common/dev/ds160pt801.c:660-745 | the index-driven loop gives the verdict and the records of the specification |
| HexUpdate.FullLinesAreProgrammed | common/dev/ds160pt801.c:772-820 | for any request size a transfer of 32-byte lines with a tail below 45 characters is refused exactly when its first message is over 256 characters, does nothing for a request below one line, and else programs exactly the lines' records |
| HexUpdate.ShortRequestDoesNothing | common/dev/ds160pt801.c:782-785 | with a first request below one line any text is reported as done with nothing programmed |
| HexUpdate.TransferVerdict | common/service/pldm/pldm_firmware_update.c:467-473 | for any request size from one line on, a transfer of 32-byte lines succeeds if and only if its first message fits a sector and one of these holds: the tail is below 45 characters, the lines come out even with a first request of more than one line, or all are in one that overshoots the text by more than 32 and are not just one |
| HexUpdate.ShortLastRecordIsLost | common/dev/ds160pt801.c:782-785 | a short last record reaches the EEPROM if and only if its bytes were there already |
| HexUpdate.HexUpdater.ReadData | common/dev/ds160pt801.c:318-392 | reads the eight bytes at the offset and changes no EEPROM byte, in the register accesses of the wire specification |
| HexUpdate.HexUpdater.Upload | common/dev/ds160pt801.c:394-512 | success means the group is in the EEPROM and nothing else changed, even where an acknowledged trigger may burn nothing, in the register accesses of the wire specification; any failure leaves all of the group or none |
| HexUpdate.RecordExact | common/dev/ds160pt801.c:636-651 | a record puts its whole groups of eight bytes at its offset and leaves every other byte |
| HexUpdate.HexUpdater.DoUpdate | common/dev/ds160pt801.c:624-658 | the whole groups of a record at its load offset, a prefix of them on failure |
| HexUpdate.HexUpdater.FwUpdate | common/dev/ds160pt801.c:747-841 | success programs exactly the records of the whole lines used and reports how far it got; a refused text changes nothing |
| PairedStores.PairsAreStored | common/dev/mp289x.c:777-906 | on user rows and pairs of groups, whole or half, the stores are 0x17 and each pair's own of 0xF5, 0xF6 and 0xF7, verified, after its rows and before the next pair's, odd groups on page 4 and even on borrowed page 1, if and only if every pair has its even group, every one but the first its odd group, and they are consecutive |
| PairedStores.SixGroups | common/dev/mp289x.c:843-906 | with all six groups in order the stores are 0x17 on page 0, then 0xF5, 0xF6 and 0xF7 on page 4, each after the rows of its own pair and each verified |
| PairedStores.EnabledBits | common/dev/mp289x.c:829-836 | enabling sets bits 5 and 12 of the control word and no other |
| PairedStores.LastStore | common/dev/mp289x.c:847-906 | the last store is the command for half the last row's group number, a passed-over row included: 0x17, 0xF5, 0xF6, 0xF7 or 0x15 |
| PairedStores.UserRowsStoredTwice | common/dev/mp289x.c:775-903 | a file of user rows only has the store 0x17 repeated |
| PairedStores.Programmer.Store | common/dev/mp289x.c:317-398 | success means the command of its mode went out on its page, the store status read 1 within ten looks, and the CML status 0 after it; an unknown mode writes nothing |
| PairedStores.Programmer.ProgramUser | common/dev/mp289x.c:777-802 | user rows on their own pages up to the first other row |
| PairedStores.Programmer.TurnTo | common/dev/mp289x.c:855-888 | the page change with the store and the borrowing it entails |
| PairedStores.Programmer.ProgramGroups | common/dev/mp289x.c:846-906 | the second loop writes what the specification says, a prefix on failure, and rewrites the row pages in place |
| PairedStores.Programmer.Program | common/dev/mp289x.c:771-906 | the whole of step 3, with success on a healthy part whenever the last row names a store mode |

## Left out

- MP29526 reference CRC: capturing and comparing it only writes log lines, and the reference rows come after the stores.
- StreamMemory.MemoryHoldsTheImage: its conditions are sufficient; images with other rows whose effects on user memory happen to come out right (a row that writes 0 to WRITE_PROTECT, say) are not told apart.
- BatchTheorems.MemoryHoldsTheList: the same.
- MP29526 applied_cnt is unbounded here; 2^32 rows would wrap it to zero.
- MP29526 groups 6 to 9 are accepted by the parser without a range check; the model follows, but says nothing about what the part does with such a selector.
- User memory of sets that are not selected, and WRITE_PROTECT's own place in it, follow the device assumptions above.
- strtol is modelled with a 32-bit long that saturates; characters are bytes without locale.
- StreamRefinesBatch.StreamingRefinesBatch: only for images both paths are meant for (CRLF lines of at most 126 characters, no empty column, shared registers with one- or two-byte rows on pages below 16, values of at most 15 characters, fewer than 1024 writes); outside them the two paths differ by design.
- PLDM retries after short responses, timeouts and cancellation; a transfer that never sends its last chunk leaves the protection off.
- The initial disable of the write protection, when its read-back fails, is not undone by the code and not by the model.
- Linear11.FloatToLinear11: values are reals, so the rounding of float arithmetic (of `scaled + 0.5f` in particular) is not modelled.
- READ_EIN values are integers; the scaling factors of each part are not modelled.
- EnergyCounters.EinPoller.ReadEin: the scaling of the quotient to watts is left out, as is the per-device history record of ADM1272, which behaves as one poller per device.
- The PECI readers drop a value when no time has passed, and cannot tell a first reading of two zeros from no history; the model follows.
- POST codes: the error checks that raise events and the transports behind the send are left out; the filter is a parameter. A slot write and its index update are one step.
- CPLD: each command with its busy polling succeeds or fails as a whole; parsing the user code digits, the JTAG path and images shorter than 260 characters are left out; rows shorter than 128 characters are completed with NULs where the code would read on.
- Retimer.RetimerUpdater.FwUpdate: requires the sector buffer to have room for the message and the sector not to cross a 64 KiB page, as the requests of a transfer ensure (`RetimerTransfer.ContiguousFits`); memory allocation and the mutex are left out. After a failed sector the code keeps is_init set although its buffer is freed; the model keeps the record active and says nothing about a next message that would write there.
- Retimer.RetimerUpdater.WriteEepromImage: requires data within a sector's size to stay in its 64 KiB page; what the part does at the end of a page is not known here.
- Retimer.RetimerUpdater.DoUpdate: the same, and is only called with at most one sector.
- The PT5161L bit-banged soft reset is one outcome.
- HexUpdate.HexUpdater.FwUpdate: requires records to end inside 64 KiB, behind which the code's 16-bit offset wraps; the five-entry line table is unbounded here, messages being cut to 231 characters. Identification of the part is one outcome.
- MP289x: parsing the configuration file, the checks before the update and the CRC comparison after it are left out; the program and store loops start from the parsed rows.
- Max10.Max10Updater.FwUpdate: requires the buffer to go on to a whole word, as the code reads four bytes at a time.
- Transports, thread scheduling, delays, logging and memory allocation throughout.
- Drain loops in common/dev/mpro.c, the snoop length, and the SBMR get command do not meet the ring's property and are not the model.
