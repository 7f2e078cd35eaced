# HelenOS core components in Dafny

A model of six small pieces of HelenOS, each in its own module, with the
properties their code promises proved about the model.

- `VhcTransfer` (`vhc_transfer.dfy`): the transfer queue of the virtual USB
  host controller. It covers:
  - transfer records;
  - the SET_ADDRESS recogniser (section 9.4.6 of USB 2.0, with the 8-byte
    setup packet of section 9.3);
  - the dispatcher, which appends a transfer to the FIFO queue of the first
    registered device with the transfer's address (class `Vhc`, method
    `Submit`);
  - one iteration of a device's queue processor (class `VirtDev`, method
    `ProcessStep`), specified by the pure function `Step`. The executor's
    answer (result code and data size) is an input. A ghost log records
    every completion callback fired.
- `Ext4Bitmap` (`ext4_bitmap.dfy`): the ext4 block and inode bitmap. It covers
  single-bit set, clear and test, and the two first-fit allocators. All of
  them work in place on an `array<bv8>`. Each allocator is specified by a
  function of the bitmap's old contents.
- `KbdPc` (`kbd_pc.dfy`): the PC keyboard decoder for scan code set 1. It has
  the 128-entry `scanmap_simple` table, and the decoder returns the event it
  would push, if any.
- `Ia64Asid` (`ia64_asid.dfy`): the ia64 mapping between ASIDs and region
  identifiers (RIDs), with its constants and integer widths.
- `BithengePrint` (`bithenge_print.dfy`): the bithenge tree printer, with
  Python or JSON output.
  - The printer state is a class `Printer` whose `out` string stands for
    what `printf` writes.
  - The functions `Render*` give the text and the return code for each
    node.
  - The methods follow the C code step by step and are proved to print
    exactly that.
  - String escaping follows section 7 of RFC 8259.
  - Strings and blobs are proved to read back (`Unescape`, `UnhexBytes`).
- `UiMenu` (`ui_menu.dfy`): the UI library's drop-down menu. It covers the
  wrap-around search for the previous or next selectable entry, the
  open/closed state, the keyboard handler, and the frame geometry.
- `Wrappers` holds `Option`. `Errno` holds the error codes the components
  share.

## Model

| member | source | states |
|---|---|---|
| VhcTransfer.Create | uspace/drv/vhc/transfer.c:11-38 | allocation failure gives no record; otherwise the record carries the given address, endpoint, direction, type, function and argument, empty setup and data buffers and no callbacks |
| VhcTransfer.SetAddressPacket | uspace/drv/vhc/transfer.c:40-63 | the SET_ADDRESS packet for an address is 8 bytes long and its wValue reads back as that address |
| VhcTransfer.SetAddressRecognised | uspace/drv/vhc/transfer.c:40-63 | an OUT control transfer to endpoint 0 carrying a SET_ADDRESS packet is recognised, and the address it carries is read back unchanged |
| VhcTransfer.NotSetAddress | uspace/drv/vhc/transfer.c:40-63 | a wrong endpoint, type, direction or setup size rules a transfer out; a freshly created transfer is never a SET_ADDRESS transfer |
| VhcTransfer.SetupValue | uspace/drv/vhc/transfer.c:199-203 | wValue read as USB transmits it, least significant byte first: its low byte is byte 2 and its high byte byte 3 (the host reading, on a little-endian host) |
| VhcTransfer.ChooseExecutor | uspace/drv/vhc/transfer.c:181-192 | remote exactly when the phone is positive, local exactly when there is no phone but a local device, no target otherwise |
| VhcTransfer.Dispatch | uspace/drv/vhc/transfer.c:95-161 | both executors dispatch alike: the setup packet is passed exactly for control transfers, and a size is reported exactly for IN transfers |
| VhcTransfer.Execute | uspace/drv/vhc/transfer.c:181-192 | no target gives ESTALL with size 0; otherwise the executor's reply is returned whole when the operation reports a size (IN), and its code with size 0 when it does not |
| VhcTransfer.NewAddress | uspace/drv/vhc/transfer.c:197-206 | the address changes only on EOK for a SET_ADDRESS transfer, and then becomes the packet's wValue |
| VhcTransfer.Complete | uspace/drv/vhc/transfer.c:207-227 | no callback exactly on NAK; otherwise one callback for the transfer with the result code: callback_in with the size for IN, callback_out for OUT |
| VhcTransfer.Step | uspace/drv/vhc/transfer.c:168-229 | an empty queue is left alone; otherwise the head is taken first, re-appended at the tail when it was not completed, and transfers are conserved (queue before = queue after + completed); the address changes only by a successful SET_ADDRESS |
| VhcTransfer.NakRequeues | uspace/drv/vhc/transfer.c:207-212 | a NAK completes nothing, moves the head to the tail, keeps the queue length and the address |
| VhcTransfer.OtherResultsCompleteOnce | uspace/drv/vhc/transfer.c:181-227 | any other result (ESTALL without a target) fires exactly one callback, for the head, with that code, of the right direction, and drops the head; an IN completion carries the reply's size when there is a target and 0 when there is none |
| VhcTransfer.SetAddressUpdates | uspace/drv/vhc/transfer.c:197-206 | a successful SET_ADDRESS at the head moves the device to the packet's address |
| VhcTransfer.VirtDev.Enqueue | uspace/drv/vhc/transfer.c:78-80 | appends the transfer at the tail of the queue |
| VhcTransfer.VirtDev.ProcessStep | uspace/drv/vhc/transfer.c:164-238 | an unplugged device changes nothing and completes nothing; a plugged one takes exactly the step `Step` describes; the completion log grows by exactly the callback fired |
| VhcTransfer.FirstMatch | uspace/drv/vhc/transfer.c:71-84 | the first position at or after `from` holding the address, with no match before it |
| VhcTransfer.Vhc.Addresses | uspace/drv/vhc/transfer.c:71-74 | the devices' addresses in registry order |
| VhcTransfer.Vhc.Submit | uspace/drv/vhc/transfer.c:65-93 | EOK exactly when some device has the address, ENOENT otherwise; the transfer is appended to the queue of the first matching device only, every other queue is unchanged, and no address, plugged flag or log changes |
| Ext4Bitmap.SetInByteBits | uspace/lib/ext4/libext4_bitmap.c:60 | `v \| 1 << bit` sets that bit and keeps the other seven |
| Ext4Bitmap.ClearInByteBits | uspace/lib/ext4/libext4_bitmap.c:50 | `v & ~(1 << bit)` clears that bit and keeps the other seven |
| Ext4Bitmap.WithBitSetBits | uspace/lib/ext4/libext4_bitmap.c:53-61 | after setting bit `index` it is set and every other bit of the bitmap is as before |
| Ext4Bitmap.WithBitClearedBits | uspace/lib/ext4/libext4_bitmap.c:43-51 | after clearing bit `index` it is clear and every other bit of the bitmap is as before |
| Ext4Bitmap.FreeBit | uspace/lib/ext4/libext4_bitmap.c:43-51 | the array becomes the old contents with bit `index % 8` of byte `index / 8` cleared |
| Ext4Bitmap.SetBit | uspace/lib/ext4/libext4_bitmap.c:53-61 | the array becomes the old contents with bit `index % 8` of byte `index / 8` set |
| Ext4Bitmap.IsFreeBit | uspace/lib/ext4/libext4_bitmap.c:63-76 | true exactly when the bit is clear |
| Ext4Bitmap.SetBitIdempotent | uspace/lib/ext4/libext4_bitmap.c:53-61 | setting a bit twice is setting it once |
| Ext4Bitmap.FreeThenSetRestores | uspace/lib/ext4/libext4_bitmap.c:43-61 | freeing a used bit and setting it again restores the bitmap |
| Ext4Bitmap.FirstZeroByte | uspace/lib/ext4/libext4_bitmap.c:82-92 | the first zero byte in a range, all bytes before it nonzero; none when every byte is nonzero |
| Ext4Bitmap.FirstNonFullByte | uspace/lib/ext4/libext4_bitmap.c:103-110 | the first byte other than 0xFF in a range, all bytes before it 0xFF; none when every byte is 0xFF |
| Ext4Bitmap.LowestClearBit | uspace/lib/ext4/libext4_bitmap.c:114-125 | the lowest clear bit at or above `from`, all bits between set; none when all are set |
| Ext4Bitmap.NonFullHasClearBit | uspace/lib/ext4/libext4_bitmap.c:127-139 | a byte other than 0xFF has a clear bit, so the second bit loop always finds one |
| Ext4Bitmap.FreeBitChoice | uspace/lib/ext4/libext4_bitmap.c:97-142 | the chosen bit lies in a byte from start's byte to `size - 1` and is clear |
| Ext4Bitmap.FreeBitChoiceNone | uspace/lib/ext4/libext4_bitmap.c:103-141 | no bit is chosen exactly when every byte from start's byte to `size - 1` is 0xFF |
| Ext4Bitmap.FreeBitChoiceIs | uspace/lib/ext4/libext4_bitmap.c:112-139 | stopping at byte `b` and bit `i` along either path chooses `b * 8 + i` and sets exactly that bit |
| Ext4Bitmap.FindOutcome | uspace/lib/ext4/libext4_bitmap.c:97-142 | the result is EOK, or ENOSPC with the bitmap unchanged |
| Ext4Bitmap.FindFreeByteAndSetBit | uspace/lib/ext4/libext4_bitmap.c:78-95 | with a zero byte after start's byte, EOK, its index times 8, and bit 0 of the first such byte set; otherwise ENOSPC and the bitmap unchanged |
| Ext4Bitmap.FindFreeBitAndSet | uspace/lib/ext4/libext4_bitmap.c:97-142 | the code, index and new contents are exactly `FindOutcome` of the old contents |
| Ext4Bitmap.SkipFullBytes | uspace/lib/ext4/libext4_bitmap.c:103-110 | stops at the first byte other than 0xFF, or at `size` when there is none; a start already past `size` is returned unchanged |
| Ext4Bitmap.ClaimLowestClearBit | uspace/lib/ext4/libext4_bitmap.c:114-139 | finds exactly the lowest clear bit at or above `from` and sets it; changes nothing when there is none |
| Ext4Bitmap.FreeByteIndexAboveStart | uspace/lib/ext4/libext4_bitmap.c:80-88 | the index the byte-finder reports lies above `start` |
| Ext4Bitmap.FreeBitSetsOneClearBit | uspace/lib/ext4/libext4_bitmap.c:112-139 | the bit-finder sets one bit that was clear and changes no other bit |
| Ext4Bitmap.FreeBitAtOrAboveStart | uspace/lib/ext4/libext4_bitmap.c:112-139 | when start's byte has a clear bit at or above `start` or is full, the reported index is at least `start` |
| Ext4Bitmap.FreeBitBelowStart | uspace/lib/ext4/libext4_bitmap.c:112-139 | the reported index can lie below `start`: start 1 on a byte whose only clear bit is bit 0 yields bit 0 |
| KbdPc.Classify | uspace/srv/kbd/ctl/pc.c:53-58 | a release exactly when bit 0x80 is set, with that bit cleared; the table index is always below 128 |
| KbdPc.ParseScancode | uspace/srv/kbd/ctl/pc.c:45-63 | no event out of range; an event exactly when the table entry of the masked code is nonzero, with that key, and a release exactly for codes at or above 0x80 |
| KbdPc.MakeBreakSymmetry | uspace/srv/kbd/ctl/pc.c:53-62 | a make code and its break code name the same key, as a press and a release |
| KbdPc.ScanmapSimple | uspace/srv/kbd/ctl/pc.c:65-153 | only the codes 0x01 to 0x58 have initializers; every code above is unmapped |
| KbdPc.TableEntries | uspace/srv/kbd/ctl/pc.c:65-153 | 0x01 is Escape, 0x1c is Enter, 0x39 is Space |
| KbdPc.TableEntriesMore | uspace/srv/kbd/ctl/pc.c:65-153 | 0x2a is left Shift, 0x3b is F1, 0x58 is F12 |
| KbdPc.FunctionKeysLow | uspace/srv/kbd/ctl/pc.c:138-141 | 0x3c to 0x3e are F2 to F4 |
| KbdPc.FunctionKeysMiddle | uspace/srv/kbd/ctl/pc.c:142-144 | 0x3f to 0x41 are F5 to F7 |
| KbdPc.FunctionKeysHigh | uspace/srv/kbd/ctl/pc.c:146-150 | 0x42 to 0x44 are F8 to F10, and 0x57 is F11 |
| KbdPc.UnmappedCodesIgnored | uspace/srv/kbd/ctl/pc.c:60-62 | codes without an initializer (0x00, 0x37), pressed or released, produce no event |
| KbdPc.CodeAfterF10Ignored | uspace/srv/kbd/ctl/pc.c:60-62 | 0x45, which has no initializer, produces no event, pressed or released |
| Ia64Asid.RidOffset | arch/ia64/include/mm/asid.h:45-49 | every RID is `ASID2RID` of its own `RID2ASID` and an offset below RIDS_PER_ASID |
| Ia64Asid.Asid2Rid | arch/ia64/include/mm/asid.h:48 | the RID is at least the first RID of its ASID's block; with a region number below RIDS_PER_ASID it lies in that block and `RID2ASID` gives the ASID back |
| Ia64Asid.Rid2Asid | arch/ia64/include/mm/asid.h:49 | the ASID whose block of RIDS_PER_ASID RIDs contains the RID |
| Ia64Asid.ConstantValues | arch/ia64/include/mm/asid.h:45-58 | RID_MAX is 2^18 - 1 and ASID_MAX_ARCH is 37449, the largest ASID whose first RID is within RID_MAX |
| Ia64Asid.RoundTrip | arch/ia64/include/mm/asid.h:45-49 | `RID2ASID(ASID2RID(a, v)) == a`, and the offset reads back as `v`, for `v < RIDS_PER_ASID` |
| Ia64Asid.Asid2RidInjective | arch/ia64/include/mm/asid.h:45-48 | distinct pairs with region numbers below RIDS_PER_ASID never share a RID |
| Ia64Asid.Asid2RidBelowRidMax | arch/ia64/include/mm/asid.h:45-58 | ASIDs below ASID_MAX_ARCH map only to RIDs up to RID_MAX |
| Ia64Asid.WidthsSuffice | arch/ia64/include/mm/asid.h:36-58 | ASID_MAX_ARCH fits `asid_t`, and every 16-bit ASID with a valid region number gives a RID that fits `rid_t` |
| Ia64Asid.WideAsidExceedsRidMax | arch/ia64/include/mm/asid.h:36-58 | `asid_t` holds ASIDs whose RIDs exceed RID_MAX |
| BithengePrint.Indent | uspace/app/bithenge/print.c:56-58 | exactly four spaces per level and nothing else |
| BithengePrint.NewlineText | uspace/app/bithenge/print.c:53-59 | a line break followed by exactly four spaces per positive depth level, and nothing else |
| BithengePrint.Decimal | uspace/app/bithenge/print.c:129-134 | a minus sign exactly for negative values |
| BithengePrint.DecimalRoundTrip | uspace/app/bithenge/print.c:129-134 | the decimal text reads back as the integer |
| BithengePrint.BooleanLiteral | uspace/app/bithenge/print.c:115-127 | `True`/`False` for Python, `true`/`false` for JSON, always EOK, the two values printing differently |
| BithengePrint.Hex2 | uspace/app/bithenge/print.c:170 | two lowercase hex digits whose value is the number |
| BithengePrint.EscapeChar | uspace/app/bithenge/print.c:145-151 | quote and backslash take a backslash, other characters up to 0x1f take six characters starting with a backslash, everything else is copied |
| BithengePrint.UnescapeEscape | uspace/app/bithenge/print.c:145-151 | the escaped text of any string reads back as that string |
| BithengePrint.StringBodyFailure | uspace/app/bithenge/print.c:140-144 | the body fails exactly when a character fails to decode, with the code of the first such failure |
| BithengePrint.StringBodyEscapes | uspace/app/bithenge/print.c:140-152 | a string that decodes prints its characters escaped, in order |
| BithengePrint.StringText | uspace/app/bithenge/print.c:136-155 | the text opens with a quote and the code is the decoding outcome |
| BithengePrint.StringLiteralRoundTrip | uspace/app/bithenge/print.c:136-155 | a decodable string prints between quotes, and the text between them reads back as its characters |
| BithengePrint.ByteText | uspace/app/bithenge/print.c:170 | each byte is four characters starting with `\x` |
| BithengePrint.HexBytes | uspace/app/bithenge/print.c:169-170 | four characters per byte |
| BithengePrint.HexBytesAppend | uspace/app/bithenge/print.c:165-172 | printing a blob chunk by chunk prints the same as printing it whole |
| BithengePrint.BlobBytesRoundTrip | uspace/app/bithenge/print.c:169-170 | the bytes' text reads back as the bytes, in order |
| BithengePrint.BlobLiteral | uspace/app/bithenge/print.c:157-175 | `b"` for Python or `"` for JSON, the bytes' text, `"`, and the middle reads back as the blob |
| BithengePrint.BlobRead | uspace/app/bithenge/print.c:166 | a read returns the next bytes of the blob, at most `size`, fewer only at its end |
| BithengePrint.Render | uspace/app/bithenge/print.c:177-192 | booleans, integers and blobs always print with EOK; an unknown node prints nothing and gives ENOTSUP |
| BithengePrint.WellFormedPrints | uspace/app/bithenge/print.c:177-192 | a tree with no iteration or decoding failure and no unknown node prints with EOK at any depth |
| BithengePrint.ErrorsComeFromTree | uspace/app/bithenge/print.c:83-192 | the code a tree prints with is `FirstFailure`: the first iteration or decoding failure in print order, or ENOTSUP for an unknown node, EOK when there is none; EOK exactly for well-formed trees |
| BithengePrint.ItemsErrorsComeFromTree | uspace/app/bithenge/print.c:104 | the code of an entry list from `i` on is the first failure among those entries, in order |
| BithengePrint.StringBodyFirstFailure | uspace/app/bithenge/print.c:140-144 | a string body's code is its first decoding failure, EOK exactly when every character decodes |
| BithengePrint.NoFailureIffWellFormed | uspace/app/bithenge/print.c:177-192 | a tree has no first failure exactly when it is well formed |
| BithengePrint.Braces | uspace/app/bithenge/print.c:71-113 | an internal node opens with `{` and, on success, closes with `}`; an entry starts with a comma unless it is the first, then a line break |
| BithengePrint.EmptyInternal | uspace/app/bithenge/print.c:98-113 | an empty internal node prints `{}` at any depth |
| BithengePrint.ItemsBrokenAt | uspace/app/bithenge/print.c:104 | when the iteration fails at step `j` after entries that all printed, the entry list prints those entries and returns the iteration's code |
| BithengePrint.BrokenIterationPropagates | uspace/app/bithenge/print.c:98-106 | for any node failing at any step after successful entries, the node prints `{` and those entries, nothing more, and returns the iteration's code unchanged |
| BithengePrint.ItemsAllPrint | uspace/app/bithenge/print.c:104 | when every remaining entry prints, the entry list is their texts in order, with EOK |
| BithengePrint.InternalLayout | uspace/app/bithenge/print.c:98-113 | an internal node whose entries all print is `{`, the entries one level deeper in order, a line break at the node's own depth when it has entries, and `}`, with EOK |
| BithengePrint.EntryLayout | uspace/app/bithenge/print.c:71-96 | for every format, depth, position, key and value: an entry whose key prints is the separator, the line break, the key, `: ` and the value, with the value's code; the key is quoted exactly in JSON when it is not a string |
| BithengePrint.EntryKeyFailure | uspace/app/bithenge/print.c:79-85 | an entry whose key fails prints the separator, line break, opening quote if any and what the key printed, and returns the key's code without printing the value |
| BithengePrint.Printer.constructor | uspace/app/bithenge/print.c:200 | the initial state: depth 0, `first` set, nothing printed |
| BithengePrint.Printer.Newline | uspace/app/bithenge/print.c:53-59 | appends exactly the line break at the current depth |
| BithengePrint.Printer.PrintBoolean | uspace/app/bithenge/print.c:115-127 | appends the boolean's literal and returns EOK |
| BithengePrint.Printer.PrintInteger | uspace/app/bithenge/print.c:129-134 | appends the decimal text and returns EOK |
| BithengePrint.Printer.PrintString | uspace/app/bithenge/print.c:136-155 | appends exactly `StringText` and returns its code |
| BithengePrint.Printer.PrintBlob | uspace/app/bithenge/print.c:157-175 | appends the prefix, every byte in order and the closing quote; EOK |
| BithengePrint.Printer.PrintChunk | uspace/app/bithenge/print.c:166-171 | prints the next chunk, at most `size` bytes, fewer only at the end of the blob |
| BithengePrint.Printer.PrintBytes | uspace/app/bithenge/print.c:169-170 | appends each byte of the buffer in order |
| BithengePrint.Printer.PrintNode | uspace/app/bithenge/print.c:177-192 | appends exactly `Render` and returns its code; on success the depth is restored and `first` is cleared by an internal node |
| BithengePrint.Printer.PrintInternal | uspace/app/bithenge/print.c:98-113 | appends exactly `Render` of the internal node; on success the depth is as before and `first` is clear |
| BithengePrint.Printer.ForEachEntry | uspace/app/bithenge/print.c:104 | prints the entries in order up to the first failure, whose code it returns |
| BithengePrint.Printer.PrintEntry | uspace/app/bithenge/print.c:71-96 | appends exactly `RenderEntry` for the current depth and `first`; on success `first` is clear and the depth kept |
| BithengePrint.PrintTree | uspace/app/bithenge/print.c:198-202 | prints `Render` at depth 0 and returns the tree's first failure; EOK exactly for well-formed trees |
| UiMenu.Back | uspace/lib/ui/src/menu.c:527-535 | stepping back around the list returns to the start only after 0 or a full cycle of steps |
| UiMenu.Ahead | uspace/lib/ui/src/menu.c:564-572 | stepping forward around the list returns to the start only after 0 or a full cycle of steps |
| UiMenu.PrevOrLast | uspace/lib/ui/src/menu.c:527-529 | the entry before, cyclically: `(i - 1) mod n` |
| UiMenu.NextOrFirst | uspace/lib/ui/src/menu.c:564-566 | the entry after, cyclically: `(i + 1) mod n` |
| UiMenu.PrevOrLastBack | uspace/lib/ui/src/menu.c:527-535 | the previous entry, or the last after the first, is one more step back |
| UiMenu.NextOrFirstAhead | uspace/lib/ui/src/menu.c:564-572 | the next entry, or the first after the last, is one more step ahead |
| UiMenu.UpDistance | uspace/lib/ui/src/menu.c:532-540 | the distance back to the nearest selectable entry, with none closer; 0 when no other entry is selectable |
| UiMenu.DownDistance | uspace/lib/ui/src/menu.c:569-577 | the distance ahead to the nearest selectable entry, with none closer; 0 when no other entry is selectable |
| UiMenu.UpTarget | uspace/lib/ui/src/menu.c:519-547 | a valid entry, which is selectable whenever the selection moves |
| UiMenu.DownTarget | uspace/lib/ui/src/menu.c:556-584 | a valid entry, which is selectable whenever the selection moves |
| UiMenu.UpIsNearest | uspace/lib/ui/src/menu.c:527-542 | every entry skipped going up is unselectable, and the selection stays exactly when no other entry is selectable |
| UiMenu.DownIsNearest | uspace/lib/ui/src/menu.c:564-579 | every entry skipped going down is unselectable, and the selection stays exactly when no other entry is selectable |
| UiMenu.Frame | uspace/lib/ui/src/menu.c:219-225 | the frame is positive on both axes |
| UiMenu.GetGeom | uspace/lib/ui/src/menu.c:209-239 | the outer rectangle is the entries' size plus twice the frame; the entries rectangle starts one frame inside it and ends one frame short of it horizontally; its bottom is computed from its left edge (as written) |
| UiMenu.GetGeomCorrected | uspace/lib/ui/src/menu.c:209-239 | the same outer rectangle, with the entries rectangle one frame inside it on every side and exactly the entries' height |
| UiMenu.GeomAgreesOnlyOnDiagonal | uspace/lib/ui/src/menu.c:235-238 | as written, the entries' height is off by the difference of the corner's x and y; the two definitions agree exactly when they are equal |
| UiMenu.GeomTextModeAtOrigin | uspace/lib/ui/src/menu.c:238 | at the origin in text mode the entries rectangle as written reaches one row too far; in graphics mode it is right |
| UiMenu.Menu.Open | uspace/lib/ui/src/menu.c:270-300 | selects the first entry (none when empty); a popup failure is returned and leaves the open state as it was, otherwise the menu is open and the paint result is returned |
| UiMenu.Menu.Close | uspace/lib/ui/src/menu.c:306-310 | the menu is no longer open: `IsOpen`, the model of `ui_menu_is_open`, answers false; the selection is kept |
| UiMenu.Menu.MoveUp | uspace/lib/ui/src/menu.c:519-547 | nothing selected stays nothing; otherwise the selection becomes `UpTarget` |
| UiMenu.Menu.MoveDown | uspace/lib/ui/src/menu.c:556-584 | nothing selected stays nothing; otherwise the selection becomes `DownTarget` |
| UiMenu.Menu.KbdEvent | uspace/lib/ui/src/menu.c:502-616 | always claimed; only a press with no Ctrl, Alt or Shift acts. Escape, Left and Right ask the menu bar, Up and Down move the selection, Enter activates the selected entry; nothing else changes |

## Left out

- Concurrency in the transfer queue is left out: fibril mutexes, `async_usleep` polling and the interleaving of submission with processing. `Submit` and `ProcessStep` are sequential calls.
- Logging and `str_error` are left out.
- The `usbvirt_*` and `usbvirt_ipc_send_*` executors are foreign calls. Their result code and data size are the `Reply` input of a step. The buffers they read or fill are not modelled.
- A device's phone and local device are fixed when it is plugged in, outside this code. They are constants of `VirtDev`.
- When a device is unplugged, its pending transfers stay in the queue and nothing completes. The C code has only a TODO there.
- The transfer freed after its callback is not modelled as deallocation. It simply leaves the queue.
- `Vhc.Submit` identifies a device by its `seq` position. The intrusive `link_t` list is not modelled.
- VhcTransfer.SetupValue assumes a little-endian host: the C code reads `setup->value` in host byte order, which matches the packet's wire order only there.
- Ext4Bitmap.FindFreeBitAndSet requires `start / 8 < size`. When start's byte lies at or past `size`, the C code still examines it and can set a bit outside the searched range. The model does not cover that case.
- Ext4Bitmap.FindFreeByteAndSetBit and Ext4Bitmap.FindFreeBitAndSet report 0 as the index on ENOSPC. The C code leaves `*index` untouched then.
- Bit indices are `uint32_t` in the C code; they are modelled as `nat` reduced by `ToU32`, with parameters bounded by 2^32.
- The entries PRNSCR, SCROLL_LOCK and PAUSE are commented out in the C table, so they are absent from `ScanmapSimple` too.
- `kbd_push_ev` is not called. `ParseScancode` returns the event instead.
- The ia64 macros are modelled on unbounded naturals. The widths of `asid_t` and `rid_t` appear only in `WidthsSuffice` and `WideAsidExceedsRidMax`.
- BithengePrint.Printer.PrintNode, BithengePrint.Printer.PrintInternal and BithengePrint.Printer.PrintEntry leave the depth and `first` unspecified after a failure. The C code leaves the depth raised in that case.
- `printf` is modelled as appending to a string. Wide-character `%lc` output is modelled as appending the character itself, with no encoding.
- `bithenge_node_for_each` is modelled as a sequence of entries or a failure, and a string's iterator as a sequence of decoded characters or a failure.
- `bithenge_blob_read` never fails in the model, so a failed blob read is not modelled.
- Reference counting (`bithenge_node_dec_ref`) is left out.
- BithengePrint.Decimal models `bithenge_int_t` as an unbounded integer, not a 64-bit one.
- Painting of the menu (`ui_menu_paint*`), popup creation and destruction, menu bar calls and entry activation are left out.
  - `Open` takes the popup-creation and paint results as inputs.
  - `KbdEvent` returns the menu bar or entry request instead of making it.
  - The repaint after a move is not modelled.
- The menu's entries are reduced to their selectable flags in list order. The entry widths and total height (`edim`) are inputs of `GetGeom`.
- `ui_menu_get_geom` reads the text-mode flag from the window's resource. Here it is a parameter.
- `menu_frame_h_margin_text` is unused by the modelled code.

## Findings

| source | as written | input that shows it | evidently intended | confidence | as-written member | corrected member |
|---|---|---|---|---|---|---|
| uspace/lib/ui/src/menu.c:238 | the bottom of the entries rectangle is its left edge `p0.x` plus the entries' height | text mode at `spos = (0, 0)`, as `ui_menu_open` uses: `p0 = (2, 1)`, so `p1.y = 2 + edim.y` instead of `1 + edim.y` | `p0.y + edim.y`, the top edge plus the height, one frame inside the outer rectangle | not executed | UiMenu.GeomTextModeAtOrigin | UiMenu.GetGeomCorrected |
