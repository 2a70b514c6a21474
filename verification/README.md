# Seven stateful engines of the HaaS light-application runtime, modelled and proved

This project models the stateful cores of a small JavaScript runtime for devices and proves what they promise:

* **Key-value store** (`Kv*.dfy`): a log over two flash blocks. Records are appended, an old version is retired by
  clearing its state byte, a collection copies live records to the reserved clean block, and initialisation rebuilds
  everything from flash. The store refines a finite map over every run, with restarts and power cuts.
* **cJSON** (`Json*.dfy`): printer, parser, string and number decoding against a grammar of texts, the in-place minifier,
  the doubly linked child lists and the deletion of trees.
* **Application packs** (`AppPack*.dfy`): a resumable parser fed by arbitrary network chunks.
* **Console history** (`Repl*.dfy`): lines in a ring of 256 bytes.
* **Promises** (`Promise*.dfy`): the polyfill as a state machine with its job queue, and what every promise comes to.
* **YMODEM** (`Ymodem*.dfy`): the checksum loops and the data packet check.
* **Reference allocator** (`BeRefs.dfy`): a free list threaded through the array it allocates from.

`Folds.dfy`, `Flats.dfy`, `Bits.dfy`, `Polynomials.dfy` and `Runs.dfy` hold what several of them share: registers fed
symbol by symbol, concatenations, masks on naturals, polynomials over the field of two elements, and runs of state
machines.

Each engine is first given as functions on values, about which the properties are proved, and then as the methods,
loops and classes of the program, which are proved to compute those functions. `dafny verify dfyconfig.toml` checks
everything.

## What the store looks like

A block is its state and the sequence of its records; the byte image of a block, with headers and padding, is a function
of that (`KvImage.Image`). Block size and alignment are symbolic. A store is *quiescent* (`KvModel.Inv`) when one block
is in use, the other is clean, and each key has at most one live record. The manager (`KvManager.Manager`) carries, for
the proof only, the bytes of its flash and the list of all it has asked the flash driver for; its methods verify because
every single operation on that list is allowed when it comes (`Synced`, `KvImage.EachAllowed`). Power cuts fall between
those operations. Two results are about what the code does not do:

* A power cut while a collection is copying can lose a key. `KvGcCut.CutKeepsMapIff` says exactly when: a live record
  whose stored origin happens to be its own position retires its own original during recovery, before the half-filled
  block is formatted. `KvLostKey.LostFromBlank` is a run that gets there, also with the block size the program ships with.
* A record with an empty key can be written but is never found again: no traversal of bytes hands it out
  (`KvTraverse.HeadsHaveKeys`, `KvTraverse.EmptyKeyIsNoRecord`). The search on the records of the model
  (`KvModel.Search`) would find it, so keys are taken to be non-empty where a set is concerned.

## Other places where the code differs from what one might expect

* The first call of a resolver does not decide if it names another promise that is still pending: a later call with a
  plain value overrules it (`PromiseOutcome.FirstCallOverruled`). `PromiseOutcome.FirstCallDecides` says when it does.
* A subscription without a callback passes the data of its owner on even if they are a promise: its own promise then
  follows that one, or is rejected with a type error if it is that one (`PromiseOutcome.Demanded`).
* cJSON takes `\u` with four characters that are no hex digits for code 0, control bytes inside literals, and numbers with
  leading zeros or, behind a minus sign, without a digit before the point; `JsonGrammar.OnlyTexts` says how far that goes.
* `cJSON_ReplaceItemViaPointer` uses its item without a check, so `JsonList.Replace` asks for an item of the list.
* The pack parser recurses for ever on a file header whose size is exactly its fixed part of 24 bytes: it takes no byte
  and calls itself with the same ones (`AppPackProgress.ReturnsIff`). Below 24, and from 2^31 + 24 on, the length of the
  name comes out negative and is handed to `memcpy`, which takes it for a huge one; so does a file size of 2^31 and more.
  The model stops in a fault state at such sizes.
* `apppack_init` does not touch the handle of an aborted download: it stays open until the first file of the next one
  takes its place (`AppPack.Init`).
* `cJSON_Minify` runs past the terminator of a text that ends within a literal or a block comment, and of no other
  (`JsonMinify.ClosedIff`).
* `Up` and `Down` show the line at the browsing position and move afterwards, so a `Down` after an `Up` shows the next
  older line first.
* A promise resolved with itself is fulfilled with itself, and a callback that throws leaves the owner's own value to be
  passed on after the rejection, where it no longer has an effect; the model does the same.
* Releasing a reference twice makes the free list circular (`BeRefs.ReleaseIff`).

## Model

| member | source | states |
|---|---|---|
| KvCrc.CalcCrc8 | components/kv/kv.c:38-55 | the byte and bit loops compute the CRC-8 of the buffer, folded byte by byte with polynomial 0x31 |
| KvCrc.OneByteDetected | components/kv/kv.c:38-55 | replacing any one byte of a message of any length changes its CRC-8 |
| KvCrc.Crc8IsRemainder | components/kv/kv.c:38-55 | the CRC-8 of a message is what dividing the message, as a polynomial times x^8, by x^8 + x^5 + x^4 + 1 leaves, and nothing else is |
| KvRefinement.SetUpdatesMap | components/kv/kv.c:864-894 | from any quiescent store: the status is OK, INVALID_PARAM or NO_SPACE under exactly the stated conditions; OK binds exactly that key, every other status changes nothing but the collection request |
| KvRefinement.SetAsks | components/kv/kv.c:167-213 | exactly when a set asks for a collection: there is no room for its record, or less than the 648 bytes of the largest record stay free behind it |
| KvRefinement.GetReadsMap | components/kv/kv.c:901-932 | for every key and every buffer size: get returns the bound value and its length, NOT_FOUND for an unbound key, NO_SPACE with the needed length for a short buffer, and INVALID_PARAM for none |
| KvRefinement.DeleteRemovesKey | components/kv/kv.c:939-955 | delete removes exactly that key, and answers NOT_FOUND without any change if it is unbound |
| KvRefinement.DeleteByPrefixRemoves | components/kv/kv.c:408-432 | delete by prefix removes exactly the keys with that prefix, over the whole traversal and its state changes |
| KvRefinement.CollectKeepsMap | components/kv/kv.c:652-719 | a collection keeps the map, leaves the other block clean, keeps the clean-block count equal to the number of clean blocks, and makes free space the block capacity minus the aligned live records; with nothing dirty it restores the write position |
| KvRefinement.SearchFinds | components/kv/kv.c:440-460 | the search finds a record if and only if the key is bound, and then the one live record with its value |
| KvModel.StoreStaysInBlock | components/kv/kv.c:167-213 | a length is placed only where it stays strictly inside the block, so the block index taken after the write names the block just written |
| KvRecovery.RestartRebuilds | components/kv/kv.c:557-643 | initialisation on the flash of any quiescent state rebuilds the same map, block information and write position, and asks for a collection exactly if less than 648 bytes are free |
| KvRecovery.RecoverOneBlock | components/kv/kv.c:557-643 | initialisation on one used and one clean block gives the book-keeping of what the recovery traversal left |
| KvPowerCut.UpdateIsAtomic | components/kv/kv.c:531-550 | power lost between the store and the delete of an update: recovery leaves the old or the new value, decided by the stated rule, and every other key unchanged |
| KvPowerCut.DeleteIsAtomic | components/kv/kv.c:223-286 | power lost between clearing an item and marking its block: recovery finds the key deleted and nothing else changed |
| KvPowerCut.FirstStart | components/kv/kv.c:557-643 | two erased blocks become an empty store with the write position after the first block header |
| KvPowerCut.DamageCostsOneKey | components/kv/kv.c:293-319 | a record with one byte of key and value changed is retired by recovery: exactly its key is gone |
| KvGcCut.CutLoses | components/kv/kv.c:365-398 | power lost in a collection after any number of copies: recovery keeps the whole map except exactly the keys whose copy points at its own original position |
| KvGcCut.CutKeepsMapIff | components/kv/kv.c:652-719 | so a power cut among the copies keeps the map if and only if no live record has its own position as origin |
| KvGcCut.CutAfterErase | components/kv/kv.c:652-719 | power lost after the copies, once the victim block is erased, loses nothing |
| KvLostKey.CollectionCutLosesKey | components/kv/kv.c:652-719 | from any store, of any block size, that is crowded with live records: a run of nine operations, in which sets wait for the collections they ask for and no collection runs unasked, reaches a state whose pending collection loses a bound key if power fails during its copies |
| KvLostKey.LostFromBlank | components/kv/kv.c:652-719 | such a run from a blank flash, for the block size of 4096 the program ships with and for 512 |
| KvRuns.StepActs | components/kv/kv.c:864-977 | every operation and restart, and a power cut between any two flash writes of a set, a delete, a delete by prefix or a collection, ends in a quiescent store whose map is stated exactly, for a cut collection with the keys it loses |
| KvRuns.ClearedActs | components/kv/kv.c:531-550 | power lost in an update after the old record is cleared and before its block is marked: the new value stays |
| KvRuns.CutPrefixActs | components/kv/kv.c:408-432 | power lost in a delete by prefix after any number of records, or within one: exactly the prefixed keys among them are gone |
| KvRuns.PrefixUpToIs | components/kv/kv.c:408-432 | the states of a cut delete by prefix are those the loop goes through |
| KvRuns.RunRefines | components/kv/kv.c:864-977 | every run over set, get, delete, delete by prefix, collection, restart and those power cuts refines the finite map |
| KvRuns.BindingLasts | components/kv/kv.c:864-977 | a binding lasts over any run of operations that leave its key alone |
| KvRuns.LastSetIsRead | components/kv/kv.c:864-932 | after a set that returned OK, get returns that value at the end of any run that leaves the key alone |
| KvImage.WriteLandsOnErased | components/kv/kv.c:468-523 | each record write lands wholly on erased bytes |
| KvImage.StepClears | components/kv/kv.c:98-134 | appending records, clearing item states and moving a block state from clean to used to dirty only clears bits of the block image |
| KvImage.EachAllowed | components/kv/kv.c:98-158 | of the driver operations of a manager since power-on, every single one finds the flash, as those before it have left it, in a state that allows it: erased bytes for a header or a record, no bit to set in a state byte |
| KvImage.AllowedClears | components/kv/kv.c:98-158 | such an operation only clears bits of each block, unless it erases that block |
| KvFlash.FlashDiscipline | components/kv/kv.c:98-158 | over each whole operation of a crash-free run a block only loses bits, except that a collection erases the block it has emptied |
| KvBytes.Le16Back | components/kv/kv.c:242-265 | a 16-bit length or position written to a record header reads back |
| KvTraverse.Traverse | components/kv/kv.c:730-808 | the traversal loop returns the headers it stops at and the space it recomputes, as the recursive specification does |
| KvTraverse.ParseFinds | components/kv/kv.c:730-808 | on the bytes of a block the traversal visits exactly its records, in write order, and recomputes the free space |
| KvTraverse.TraverseQuiescent | components/kv/kv.c:730-808 | in every quiescent state the recomputed space is the tracked one |
| KvTraverse.HeadsHaveKeys | components/kv/kv.c:760-773 | whatever bytes a block holds, the traversal hands out no record with an empty key or value or with one that is too long |
| KvTraverse.EmptyKeyIsNoRecord | components/kv/kv.c:730-808 | a record written with an empty key is not taken for a record by the traversal |
| KvTraverse.RecordLayout | components/kv/kv_types.h:56-64 | where each field of a record stands on flash, byte by byte, its numbers with the low byte first, and zeros up to the alignment |
| KvTraverse.BlockLayout | components/kv/kv_types.h:38-43 | the four bytes of a block header, for each state of the block |
| KvTypes.AlignMultiple | components/kv/kv_types.h:209 | an aligned length is the least multiple of the alignment that is long enough |
| KvManager.Manager.constructor | components/kv/kv.c:557-643 | initialisation on a flash the store has written: the state is the recovered one, and every driver operation on the way was allowed |
| KvManager.PowerCycle | components/kv/kv.c:557-643 | a new manager on the flash of a valid one is valid and has the same map |
| KvManager.Manager.WriteRecord | components/kv/kv.c:503-510 | one append of the whole record to the first erased bytes of its block, whose image follows |
| KvManager.Manager.SetBlockState | components/kv/kv.c:98-114 | one byte of flash is rewritten without setting a bit, and the block image follows |
| KvManager.Manager.BlockFormat | components/kv/kv.c:134-158 | one erase and one header append over erased bytes leave the image of an empty clean block |
| KvManager.Manager.CalcPosition | components/kv/kv.c:167-213 | the position for a new record, or none and a collection request |
| KvManager.Manager.ItemDelete | components/kv/kv.c:223-286 | one state byte is cleared, and the state byte of the block too if it was in use; the images follow |
| KvManager.Manager.ItemSearch | components/kv/kv.c:440-460 | the first matching record over the blocks in use, as the search specification finds it |
| KvManager.Manager.ItemStore | components/kv/kv.c:468-523 | a record appended with its book-keeping, or no space |
| KvManager.Manager.ItemUpdate | components/kv/kv.c:531-550 | a found record is replaced by a new one: the map changes as a set has to change it, or for lack of space not at all |
| KvManager.Manager.Set | components/kv/kv.c:864-894 | the new state and status are those of the set specification, whose effect on the map is proved |
| KvManager.Manager.Get | components/kv/kv.c:901-932 | the read specification, leaving the store unchanged |
| KvManager.Manager.Delete | components/kv/kv.c:939-955 | the new state and status of the delete specification |
| KvManager.Manager.DeletePrefixInBlock | components/kv/kv.c:408-432 | the loop over one block retires what the prefix specification retires |
| KvManager.Manager.DeleteByPrefix | components/kv/kv.c:962-977 | both blocks in order |
| KvManager.Manager.GcTraverse | components/kv/kv.c:365-398 | the copying loop |
| KvManager.Manager.GcTask | components/kv/kv.c:652-719 | the new state is the collection specification |
| KvManager.Manager.RecoverTraverse | components/kv/kv.c:293-319 | the recovery loop over one block |
| KvManager.Manager.InitBlock | components/kv/kv.c:557-643 | one block of the initialisation |
| KvManager.Manager.FinishInit | components/kv/kv.c:557-643 | formats unclean blocks, chooses the write position and asks for a collection if needed |
| JsonString.Utf8Inverse | utils/cJSON/cJSON.c:491-527 | the UTF-8 form of every code point is well shaped, decodes to it and is the shortest |
| JsonString.EncodeUtf8 | utils/cJSON/cJSON.c:491-527 | the loop from the last byte to the first, with its masks, computes that form |
| JsonString.Continuation | utils/cJSON/cJSON.c:515-519 | or with 0x80 and with 0xBF leaves the low six bits under the mark 10, for every code point |
| JsonString.PairBits | utils/cJSON/cJSON.c:481-485 | the masks and the shift of a surrogate pair put its two times ten bits together |
| JsonString.Hex4Is | utils/cJSON/cJSON.c:407-433 | every spelling of a code by four hex digits, each by its place in the row of digits with letters in either case, is read as that code; anything else is read as 0 |
| JsonString.ShortIs | utils/cJSON/cJSON.c:588-607 | the eight letters of short escapes and the bytes they stand for |
| JsonString.LiteralParses | utils/cJSON/cJSON.c:536-648 | every literal of raw bytes, short escapes and code points, spelled by any four hex digits or as a surrogate pair, parses to the raw bytes and the UTF-8 forms of the code points |
| JsonString.ParsedLiteral | utils/cJSON/cJSON.c:536-648 | conversely, a literal that parses consists of such pieces, or of a raw control byte or four characters that are no hex digits and are taken for code 0 |
| JsonString.QuotedParses | utils/cJSON/cJSON.c:651-757 | the printed form of any string parses back to it |
| JsonString.WriteAll | utils/cJSON/cJSON.c:576-625 | bytes written through an advancing output pointer |
| JsonNumber.StrtodReads | utils/cJSON/cJSON.c:181-244 | every number as it is written, with or without sign, fraction and exponent, is read whole |
| JsonNumber.StrtodRead | utils/cJSON/cJSON.c:181-244 | and whatever is read is a number as it is written |
| JsonNumber.AmountIs | utils/cJSON/cJSON.c:181-244 | the number read is the digits before the point, and those behind it as a fraction, times its power of ten |
| JsonNumber.NumberParses | utils/cJSON/cJSON.c:181-244 | a number of at most 63 characters inside a text, followed by a byte it cannot go on with, is returned and ends where it ends |
| JsonNumber.ParsedNumber | utils/cJSON/cJSON.c:181-244 | conversely, what parses as a number is one as it is written, of at most 63 characters |
| JsonNumber.PrintedNumberParses | utils/cJSON/cJSON.c:181-244 | a printed integer below 10^15 in magnitude reads back exactly |
| JsonNumber.CollectRun | utils/cJSON/cJSON.c:181-224 | the loop collects the run of number characters, at most 63 of them |
| JsonGrammar.DocParses | utils/cJSON/cJSON.c:980-1326 | inside any text, any way of writing a value by the grammar of RFC 8259, with any bytes up to 32 wherever there may be white space, parses to that value and ends where it ends, up to 1000 open arrays and objects; beyond that parsing fails |
| JsonGrammar.ParsedDoc | utils/cJSON/cJSON.c:980-1326 | conversely, whatever parses is a way of writing the value returned, where numbers may have leading zeros and literals may be what the program takes for them |
| JsonGrammar.TextParsed | utils/cJSON/cJSON.c:792-839 | the same for whole texts with anything behind the value: its end is reported, and a parse that wants the whole text succeeds if and only if only white space follows |
| JsonGrammar.OnlyTexts | utils/cJSON/cJSON.c:792-839 | nothing else parses, whatever the text |
| JsonRoundTrip.PrintIsText | utils/cJSON/cJSON.c:1029-1421 | either print of a value is a text of the grammar that stands for the value, with its line ends, tabs and spaces in their places |
| JsonRoundTrip.RoundTrip | utils/cJSON/cJSON.c:980-1421 | parsing the formatted or the unformatted print of any printable value gives the value back, member order included, exactly if it is nested no deeper than 1000; otherwise parsing fails |
| JsonRoundTrip.ValueParses | utils/cJSON/cJSON.c:980-1026 | inside any text and at any offset and depth, a printed value followed by a byte that does not go on as a number parses to itself and ends where it ends |
| JsonRoundTrip.TailParses | utils/cJSON/cJSON.c:792-839 | with anything behind a print: the end pointer is behind the print, and a parse that wants the whole text succeeds if and only if nothing but blanks follow |
| JsonReader.SkippedWindow | utils/cJSON/cJSON.c:549-571 | how many backslashes the first pass counts in a stretch of the literal, aligned with the second pass or not |
| JsonReader.FitsRoom | utils/cJSON/cJSON.c:549-628 | what the second pass has written always fits, with the terminator, into the size the first pass computed |
| JsonReader.UnitFits | utils/cJSON/cJSON.c:578-625 | each decoded escape keeps that balance |
| JsonReader.Reader.SkipWhitespace | utils/cJSON/cJSON.c:774-789 | the skip loop, stepping back from the end of the buffer |
| JsonReader.Reader.ScanLiteral | utils/cJSON/cJSON.c:549-571 | the first pass finds the closing quote and the number of skipped backslashes |
| JsonReader.Reader.Utf16ToUtf8 | utils/cJSON/cJSON.c:435-533 | one escape or a surrogate pair, or failure, as specified |
| JsonReader.Reader.DecodeInto | utils/cJSON/cJSON.c:576-628 | for every input the second pass writes the decoded bytes and their terminator inside the allocated array, or fails where the specification does |
| JsonReader.Reader.ParseString | utils/cJSON/cJSON.c:536-648 | both passes together are the string specification |
| JsonReader.Reader.ParseNumber | utils/cJSON/cJSON.c:181-244 | the number specification |
| JsonReader.Reader.ParseValue | utils/cJSON/cJSON.c:980-1026 | the moving-offset parser is the recursive specification, with depth restored on success |
| JsonReader.Reader.ParseArray | utils/cJSON/cJSON.c:1098-1176 | the same for arrays |
| JsonReader.Reader.ParseElements | utils/cJSON/cJSON.c:1127-1158 | the do-while loop over the elements |
| JsonReader.Reader.ParseObject | utils/cJSON/cJSON.c:1233-1324 | the same for objects |
| JsonReader.Reader.ParsePairs | utils/cJSON/cJSON.c:1262-1306 | the do-while loop over the members |
| JsonReader.ParseWithOpts | utils/cJSON/cJSON.c:792-839 | the parse of a C string with its end and its check for the terminator |
| JsonReader.ParseText | utils/cJSON/cJSON.c:861-865 | the same with neither |
| JsonWriter.NothingEscaped | utils/cJSON/cJSON.c:697-704 | the shortcut: a string whose printed size equals its length needs no escape |
| JsonWriter.Writer.CountEscapes | utils/cJSON/cJSON.c:672-694 | the first pass computes the exact printed size |
| JsonWriter.Writer.EscapeInto | utils/cJSON/cJSON.c:706-754 | the copy loop fills exactly that size, with the quoted string and its terminator |
| JsonWriter.Writer.PrintString | utils/cJSON/cJSON.c:651-757 | both passes append the quoted string |
| JsonWriter.Writer.PrintValue | utils/cJSON/cJSON.c:1029-1095 | the buffer grows by the specified print at the current depth, which is restored |
| JsonWriter.Writer.PrintArray | utils/cJSON/cJSON.c:1179-1230 | the same for arrays, element by element |
| JsonWriter.Writer.PrintObject | utils/cJSON/cJSON.c:1327-1421 | the same for objects, with line ends and tabs |
| JsonWriter.PrintText | utils/cJSON/cJSON.c:868-933 | the whole print |
| JsonMinify.Minify | utils/cJSON/cJSON.c:2058-2100 | in place, on every text: if it is closed, the front of the buffer becomes the bytes kept and a terminator, and no byte is overwritten before it is read; otherwise, and only then, the read cursor passes the terminator |
| JsonMinify.MinifiedKeeps | utils/cJSON/cJSON.c:2058-2100 | what is kept of a closed text: exactly the bytes that a byte-by-byte automaton finds in a literal, or outside literals and comments and none of space, tab, carriage return and line feed |
| JsonMinify.ClosedIff | utils/cJSON/cJSON.c:2058-2100 | a text is closed if a byte-by-byte automaton ends outside literals and block comments; exactly then the scan stays in front of the terminator |
| JsonMinify.MinifyStep | utils/cJSON/cJSON.c:2058-2100 | one turn of the loop: white space, either comment, a literal, or a byte to keep, or a cursor past the terminator |
| JsonMinify.CopyLiteral | utils/cJSON/cJSON.c:2084-2094 | a literal is copied through its closing quote, if it has one |
| JsonMinifyText.MinifiedText | utils/cJSON/cJSON.c:2058-2100 | minifying any text of the grammar takes those four out of its white space and leaves the rest |
| JsonMinifyText.MinifyKeepsMeaning | utils/cJSON/cJSON.c:2058-2100 | so the minified text parses as the text does, for every text of the grammar |
| JsonMinifyText.MinifiedPrint | utils/cJSON/cJSON.c:2058-2100 | minifying either print of a value yields its unformatted print byte for byte |
| JsonList.LinkedUnique | utils/cJSON/cJSON.c:1503-1507 | the links determine the list of children |
| JsonList.ArraySize | utils/cJSON/cJSON.c:1424-1436 | the number of children |
| JsonList.ArrayItem | utils/cJSON/cJSON.c:1438-1453 | the child at an index, or none past the end |
| JsonList.AddItem | utils/cJSON/cJSON.c:1524-1544 | the list becomes the list with the item at its end; next and prev stay mutually inverse, the head has no prev |
| JsonList.InsertItem | utils/cJSON/cJSON.c:1653-1675 | the list becomes the list with the item before the index, at the end if there is none, and is unchanged for a negative index |
| JsonList.Detach | utils/cJSON/cJSON.c:1588-1612 | the list loses exactly the item, which is left without links |
| JsonList.DetachFromArray | utils/cJSON/cJSON.c:1614-1621 | detaching by index, or nothing |
| JsonList.Replace | utils/cJSON/cJSON.c:1687-1700 | the list has the replacement in the place of the item, which is left without links |
| JsonDelete.Delete | utils/cJSON/cJSON.c:133-150 | the nodes a chain of trees owns are freed, each after its children, and no node is read that was freed before |
| JsonDelete.FreedOnce | utils/cJSON/cJSON.c:133-150 | no node is freed twice, none outside the tree is, and all of it is unless children are borrowed |
| JsonDelete.ReplaceItem | utils/cJSON/cJSON.c:1677-1705 | the result, the list with the replacement, and the nodes of the replaced tree that are freed |
| JsonDelete.ReplaceItemInArray | utils/cJSON/cJSON.c:1707-1721 | the same by index, or nothing outside the list |
| JsonList.InsertDetach | utils/cJSON/cJSON.c:1588-1675 | inserting and detaching again at the same index gives the list back |
| JsonList.TreeUnique | utils/cJSON/cJSON.c:1991-2056 | the links determine the whole tree |
| JsonList.Duplicate | utils/cJSON/cJSON.c:1991-2056 | recursive duplication yields a tree of new nodes with equal data and shape, the reference flag cleared, and modifies nothing of the original |
| JsonList.DuplicateNode | utils/cJSON/cJSON.c:1991-2026 | without recursion the copy is the node alone |
| AppPack.Update | services/app_mgr/app_mgr.c:179-360 | for header and file sizes the program can handle, the parser consumes its input and keeps the invariant of its static variables; at any other size it stops with its fault flag set |
| AppPackProgress.NameTakes | services/app_mgr/app_mgr.c:260-288 | at the start of a name the length the program computes is positive if and only if the header is larger than its fixed part by less than 2^31, zero if and only if it is exactly as large, and negative otherwise |
| AppPackProgress.StuckStays | services/app_mgr/app_mgr.c:260-288 | at a header of exactly 24 bytes a call with nothing to take leaves phase, header, offset and size as they were, and is its own successor |
| AppPackProgress.CallsIff | services/app_mgr/app_mgr.c:179-360 | the program without the fault flag, call by call: where the specified parser ends without a fault it returns the same state after at most two calls a byte and one more; otherwise it is still calling itself after any number of calls, or gets a negative length |
| AppPackProgress.ReturnsIff | services/app_mgr/app_mgr.c:179-360 | so the recursion returns if and only if the specified parser ends without a fault, and goes on for ever if and only if that parser stops at a header of 24 bytes |
| AppPackProgress.StuckPack | services/app_mgr/app_mgr.c:179-360 | such a pack: any pack header, a file header of size 24 and one byte more, which the recursion holds for ever |
| AppPack.StepInv | services/app_mgr/app_mgr.c:179-360 | each branch keeps that invariant; only a file of no bytes consumes nothing, and then the next header follows |
| AppPack.DataStepIs | services/app_mgr/app_mgr.c:309-353 | what a data step leaves: the file goes on through the open handle, or it has ended and the handle is closed |
| AppPack.BlockAtMost | services/app_mgr/app_mgr.c:309-353 | a block of content is the rest of its file, or 2048 bytes of it |
| AppPack.CStringIs | services/app_mgr/app_mgr.c:758-798 | the file name handed on has no zero byte and ends before the first one of the buffer, or with it |
| AppPackChunks.ChunkIndependence | services/app_mgr/app_mgr.c:179-360 | feeding a and then b reaches the same parser state and the same output as feeding a followed by b, for all byte strings and at every boundary |
| AppPackChunks.AnyChunks | services/app_mgr/app_mgr.c:179-360 | any sequence of calls equals one call with everything |
| AppPackChunks.EmitTwice | services/app_mgr/app_mgr.c:104-122 | two data callbacks write what one with both parts writes |
| AppPackDelivery.PackDelivered | services/app_mgr/app_mgr.c:97-360 | a pack of at least one non-empty file, in any chunks and with anything behind it: the files are written in order up to the first failed check, each reported once, 1 exactly on a matching digest, no handle stays open, nothing more happens after that, and the code is -1 exactly if some digest does not match |
| AppPackDelivery.FileEnds | services/app_mgr/app_mgr.c:309-360 | after each whole file of the stream the files so far are written, closed and reported, and the code is -1 exactly if one of them failed |
| AppPackDelivery.EntryDelivers | services/app_mgr/app_mgr.c:179-353 | one file from its header to its report |
| AppPackDelivery.HeaderFields | services/app_mgr/app_mgr.c:37-43 | the header a pack carries for a file reads back its sizes and digest |
| AppPackLoader.Loader.constructor | services/app_mgr/app_mgr.c:45-64 | the state at start-up is that of an initialisation with nothing open |
| AppPackLoader.Loader.Restart | services/app_mgr/app_mgr.c:60-83 | an initialisation at any time: the variables it resets, the files removed, and the open handle, the digest and the name left as they are |
| AppPackLoader.Loader.NameString | services/app_mgr/app_mgr.c:758-798 | the file name is the name buffer up to its first zero byte |
| AppPackLoader.Loader.FinishFile | services/app_mgr/app_mgr.c:124-161 | at the end of a file the digest is compared and reported and the file count goes down |
| AppPackLoader.Loader.TakePackHeader | services/app_mgr/app_mgr.c:197-220 | the pack header, whole or in pieces |
| AppPackLoader.Loader.TakeFirstHeader | services/app_mgr/app_mgr.c:221-240 | the first file header and the file count |
| AppPackLoader.Loader.TakeFileHeader | services/app_mgr/app_mgr.c:241-258 | any further piece of a file header |
| AppPackLoader.Loader.TakeNameStart | services/app_mgr/app_mgr.c:260-288 | the sizes are read and the name begins |
| AppPackLoader.Loader.TakeNameRest | services/app_mgr/app_mgr.c:290-307 | the rest of the name |
| AppPackLoader.Loader.TakeData | services/app_mgr/app_mgr.c:309-353 | a block of at most 2048 bytes of content, and the end of a file |
| AppPackLoader.Loader.Update | services/app_mgr/app_mgr.c:179-360 | the recursive method over the static variables is the specified parser |
| AppPackLoader.Loader.Receive | services/app_mgr/app_mgr.c:97-360 | the same on the object, call by call, in numbers of the pack alone: files, reports, handle and the code of the last call |
| ReplHistory.LongestSuffixKept | engine/duktape_engine/repl.c:213-254 | after any submitted lines the ring holds exactly their longest suffix that fits into 256 bytes with terminators |
| ReplHistory.KeptIsSuffix | engine/duktape_engine/repl.c:213-254 | the kept lines are the last ones |
| ReplHistory.KeptIsLongest | engine/duktape_engine/repl.c:213-254 | no longer suffix would fit |
| ReplHistory.SubmitView | engine/duktape_engine/repl.c:213-254 | overwriting from the free position and clearing the cut line leaves whole lines only, then the new one |
| ReplHistory.RemainsKept | engine/duktape_engine/repl.c:240-253 | the remnant of a cut line is cleared and every line behind it stays |
| ReplConsole.OlderParts | engine/duktape_engine/repl.c:256-278 | what lies before the browsing position ends in the next older line |
| ReplConsole.NewerParts | engine/duktape_engine/repl.c:288-309 | after the line at the browsing position come zero bytes and the next newer line |
| ReplConsole.Console.constructor | engine/duktape_engine/repl.c:594-626 | an empty ring |
| ReplConsole.Console.CopyAround | engine/duktape_engine/repl.c:225-239 | one or two copies put the line and its terminator at the free position and around the end |
| ReplConsole.Console.ClearRemnant | engine/duktape_engine/repl.c:244-253 | the clearing loop, which ends |
| ReplConsole.Console.Submit | engine/duktape_engine/repl.c:213-254 | the ring holds the kept lines and the new one, browsing starts at the new one |
| ReplConsole.Console.ScanBack | engine/duktape_engine/repl.c:261-276 | the backward scans end at the start of the next older line, or where they began on an empty ring |
| ReplConsole.Console.ScanForward | engine/duktape_engine/repl.c:293-307 | the forward scans end at the start of the next newer line |
| ReplConsole.Console.ReadLine | engine/duktape_engine/repl.c:278-284 | the line at a position is copied out up to its terminator |
| ReplConsole.Console.Up | engine/duktape_engine/repl.c:256-286 | shows the line at the browsing position and moves to the next older one |
| ReplConsole.Console.Down | engine/duktape_engine/repl.c:288-318 | shows the line at the browsing position and moves to the next newer one |
| ReplConsole.Console.Browse | engine/duktape_engine/repl.c:256-318 | any mix of presses on any console: each shows the line as many places away, around the ring of lines, as the presses before it have moved |
| ReplConsole.Console.PressUp | engine/duktape_engine/repl.c:256-286 | presses of Up after a submission: press i shows the i-th newest line, and after the oldest they start again |
| ReplConsole.Console.SubmitAll | engine/duktape_engine/repl.c:559-591 | any lines read on any console: the ring holds the longest suffix of all it held and of all non-empty lines read that fits |
| PromiseSteps.SealKeeps | libjs/init/promise.js:176-192 | fulfil and reject keep the invariants: a pending promise is sealed with its data and published once |
| PromiseSteps.PublishKeeps | libjs/init/promise.js:194-211 | publication settles the promise and hands its subscribers over in order |
| PromiseKeeps.ThenKeeps | libjs/init/promise.js:235-253 | a subscription waits with a promise that is not settled and is queued for one that is |
| PromiseSteps.ResolveKeeps | libjs/init/promise.js:130-174 | resolving with a value, a promise or itself keeps the invariants |
| PromiseSteps.FillSlotKeeps | libjs/init/promise.js:270-277 | a slot is filled once, and the last one resolves the promise for all |
| PromiseSteps.NotRanBefore | libjs/init/promise.js:105-128 | a subscriber that is taken up has not been served before |
| PromiseRuns.ServeKeeps | libjs/init/promise.js:105-128 | serving a subscriber keeps the invariants |
| PromiseRuns.ThrowKeeps | libjs/init/promise.js:112-127 | a callback that throws rejects its promise and then passes on the value of the owner, which keeps the invariants |
| PromiseRuns.AllKeeps | libjs/init/promise.js:260-291 | a call of Promise.all keeps the invariants |
| PromiseRuns.NextKeeps | libjs/init/promise.js:63-291 | every step of program and flush keeps the invariants and moves every promise forward only |
| PromiseRuns.RunForward | libjs/init/promise.js:176-211 | in every run a promise only goes from pending to sealed to fulfilled or rejected, and its data is fixed once it is sealed |
| PromiseRuns.PublishedIff | libjs/init/promise.js:194-211 | the list of subscribers is gone exactly when the promise is published |
| PromiseRuns.ServedInOrder | libjs/init/promise.js:194-201 | each subscriber is served at most once, in the order of registration, and only after its owner has settled |
| PromiseRuns.Drained | libjs/init/promise.js:68-77 | a drained queue leaves no sealed promise and no unserved subscriber of a settled one |
| PromiseRuns.WorkGoesOn | libjs/init/promise.js:68-86 | while there is work a timer is set, and whatever comes first can be done |
| PromiseRuns.AllGathers | libjs/init/promise.js:260-291 | Promise.all fulfils its promise only when every input promise is fulfilled, with their values in index order |
| PromiseGather.AllSettles | libjs/init/promise.js:260-291 | in every run, whenever the queue is drained: the promise of Promise.all is fulfilled if and only if all its inputs are, and rejected if and only if one of them is |
| PromiseReason.AllReason | libjs/init/promise.js:260-291 | in every run, a rejected promise of Promise.all has the reason of one of its inputs that is rejected |
| PromiseGather.NextGathers | libjs/init/promise.js:63-291 | every step keeps what this needs: each input has its subscriber, what a served subscriber has left, and why the promise for all may be rejected |
| PromiseOutcome.SubscriptionEnds | libjs/init/promise.js:105-174 | in every run, whenever the queue is drained: the promise that then returned has come to what its served subscriber ended with, fulfilled with the value returned, rejected with what was thrown, with state and data of the owner if there was no callback, and with the outcome of another promise if that is what it was given, pending until that one settles |
| PromiseOutcome.CallDecides | libjs/init/promise.js:130-192 | a call of the resolver with a value that is no other promise, or of the rejecter, on a pending promise: whenever the queue is drained afterwards it has that state and those data |
| PromiseOutcome.FirstCallDecides | libjs/init/promise.js:130-192 | so the first call of all decides, unless it names another promise |
| PromiseOutcome.FirstCallOverruled | libjs/init/promise.js:130-174 | a first call that names another promise does not decide: a run in which a later call overrules it |
| PromiseOutcome.FollowDecides | libjs/init/promise.js:130-174 | a promise resolved with another one settles once that one has; if that was the only call on it, it has the outcome of that one, and is pending until then |
| PromiseOutcome.SomeCallDecides | libjs/init/promise.js:130-192 | a promise of the program that has settled has what one of the calls on it laid down |
| PromiseOutcome.OnlyFate | libjs/init/promise.js:105-192 | whatever was laid down for a promise as the only thing has come about once the queue is drained |
| PromiseEngine.Engine.AsyncFlush | libjs/init/promise.js:68-77 | for whatever the functions of the program do and however long it is observed: the index loop over the growing queue, with the publication loops inside it, is a run of the specified machine that takes up one job of its work after the other, and when it ends the queue is drained |
| PromiseEngine.Engine.Publish | libjs/init/promise.js:194-211 | the state is set, the list taken off, and the nested loop serves all subscribers on it before the rest of the queue |
| PromiseEngine.Engine.Call | libjs/init/promise.js:105-128 | the subscriber whose turn it is: the callback for the state of its owner is called with the data of the owner, and what it does is played to its end |
| PromiseEngine.Engine.RunFunction | libjs/init/promise.js:112-127 | all that a function of the program does, and how it ends, is a run of the machine |
| PromiseEngine.Engine.Perform | libjs/init/promise.js:63-291 | each operation of the program, or nothing where it is not possible |
| PromiseEngine.Engine.Then | libjs/init/promise.js:235-253 | the new promise and the subscription |
| PromiseEngine.Engine.All | libjs/init/promise.js:260-291 | the loop over the inputs is the specified call |
| PromiseEngine.Engine.Returned | libjs/init/promise.js:112-127 | the value of a callback goes to its promise |
| PromiseEngine.Engine.Thrown | libjs/init/promise.js:112-127 | what an exception in a callback does |
| YmodemCrc.UpdateIs | services/recovery/ymodem.c:55-71 | a byte step in closed form: the register shifted eight times with the byte put into the room |
| YmodemCrc.Zero8Injective | services/recovery/ymodem.c:55-71 | eight shifts are a bijection of the register |
| YmodemCrc.AugmentedIsDirect | services/recovery/ymodem.c:55-102 | the augmented bit-serial checksum with two zero bytes is the table-driven one (polynomial 0x1021, initial value 0) on every message |
| YmodemCrc.Crc16Linear | services/recovery/ymodem.c:94-102 | on messages of equal length the checksum is linear under exclusive or |
| YmodemCrc.Crc16IsRemainder | services/recovery/ymodem.c:55-102 | the checksum of a message is what dividing the message, as a polynomial times x^16, by x^16 + x^12 + x^5 + 1 leaves, and nothing else is |
| YmodemCrc.TrailerIff | services/recovery/ymodem.c:237-241 | the comparison with the trailer succeeds if and only if the register over payload and trailer comes to zero |
| YmodemCrc.OneByteDetected | services/recovery/ymodem.c:94-102 | replacing any one byte of a message changes its checksum |
| Ymodem.UpdateCRC16 | services/recovery/ymodem.c:55-71 | the wide-register loop with its stop bit is the byte step |
| Ymodem.Context.Feed | services/recovery/ymodem.c:78-85 | the register after the buffer |
| Ymodem.ComputeCrc16 | services/recovery/ymodem.c:94-102 | the checksum of a buffer |
| Ymodem.ReceiveBytes | services/recovery/ymodem.c:137-153 | the bytes that arrived, up to the wanted number or the timeout |
| Ymodem.DataParse | services/recovery/ymodem.c:217-253 | 0 is returned exactly if the line delivers, within the timeout, a packet with 128 bytes for the type byte 1, or with 1024 for 2, and then those bytes are written; otherwise -1, and nothing is written |
| Ymodem.AcceptedIff | services/recovery/ymodem.c:217-253 | a packet received is accepted if and only if the line delivers one that a sender makes, and it is that one |
| Ymodem.AcceptedSent | services/recovery/ymodem.c:231-241 | an accepted packet is the one a sender makes of its number and payload |
| Ymodem.SentAccepted | services/recovery/ymodem.c:217-253 | a packet as a sender makes it is accepted with its payload |
| Ymodem.OneByteRejected | services/recovery/ymodem.c:217-253 | an accepted packet with any one byte replaced is rejected |
| BeRefs.FreeListUnique | engine/duktape_engine/be_refs.c:6-96 | the array determines its list of free slots |
| BeRefs.TakeKeeps | engine/duktape_engine/be_refs.c:20-59 | a taken slot is never a live one; the other live values stay, and the array grows only when no slot is free |
| BeRefs.ReleaseKeeps | engine/duktape_engine/be_refs.c:77-96 | releasing a live slot removes exactly it |
| BeRefs.ReleaseIff | engine/duktape_engine/be_refs.c:77-96 | a release leaves a well-formed free list if and only if the slot was not free already |
| BeRefs.RunPartitions | engine/duktape_engine/be_refs.c:20-96 | in every run the slots are partitioned into live ones and the free list, and each operation does to the live values what it means |
| BeRefs.Refs.constructor | engine/duktape_engine/be_refs.c:6-18 | no slots and no free list |
| BeRefs.Refs.Ref | engine/duktape_engine/be_refs.c:20-59 | the live values gain the new reference, or nothing for undefined |
| BeRefs.Refs.PushRef | engine/duktape_engine/be_refs.c:61-75 | the value of a live reference, undefined for 0 |
| BeRefs.Refs.Unref | engine/duktape_engine/be_refs.c:77-96 | the live values lose the reference, its slot is the new head of the free list |
| Folds.OneSymbolShows | components/kv/kv.c:38-55 | for any register whose step separates registers and symbols, one replaced symbol shows at the end |

## Left out

- Key-value store: more than two blocks, the secure variants over AES, and the Linux row file.
- KvRuns.RunRefines: set does not wait for the collection semaphore; collections may come at any time instead (the run of KvLostKey.LostFromBlank keeps to the semaphore). Flash and memory calls succeed, a single write is not torn, and the power does not fail again during the recovery from a power cut.
- KvManager.Manager.constructor: the flash found is one the store has written, records with room behind them in each block that has a header; arbitrary bytes in such a block are not modelled.
- KvManager.Manager.RecoverRecord: an origin that is not the start of a record is taken to fail the header and key comparison, as the code expects.
- KvPowerCut.DamageCostsOneKey: assumes the CRC-8 of the code; the other results hold for any checksum function.
- KvFlash.FlashDiscipline: is about crash-free runs and compares a block before and after an operation; the single operations of the driver, those of initialisation too, are those of KvManager.Manager.Synced.
- cJSON: raw items, floating-point printing beyond integers of 15 digits, rounding in strtod, growth of the print buffer, hooks, error positions, comparison and lookup by name.
- JsonNumber.StrtodReads: numbers are decimal values without rounding to a double, and the integer copy of a number is not modelled.
- JsonNumber.PrintedNumberParses: prints are those of integers below 10^15.
- JsonGrammar.OnlyTexts: a text with a zero byte in it ends there for the program, so what follows that byte is not spoken of.
- JsonList.Duplicate: strings are values, so sharing of constant names is not modelled.
- JsonDelete.Delete: frees nodes only, because strings are values.
- AppPack.Update: counters are unbounded, so a stream of 2^31 bytes does not wrap; opening and writing files succeeds, and MD5 is an arbitrary function of the bytes fed.
- Console: reading keys, escape sequences, echo and running the line; ReplConsole.Console.SubmitAll takes the lines as read.
- Promises: foreign thenables, Promise.race and the constructors' argument checks. The flag that guards against a thenable calling back twice is not needed, because a subscriber is served at most once.
- PromiseRuns.AllGathers: the result array is not modified by the program afterwards.
- PromiseEngine.Engine.AsyncFlush: is observed for a given number of jobs, because callbacks that keep queueing jobs keep the flush busy for ever.
- YMODEM: the header packet with its file name, and the session states.
- Ymodem.DataParse: packet numbers are compared with their complement only, as the code does, so a repeated packet is written again.
- BeRefs.Refs.Ref: the number of slots stays below 2^31, and a value stored is not garbage collected.
