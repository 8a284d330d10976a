# A Dafny model of the Raspberry Pi USB duplicator

The duplicator copies a master image, kept in a RAM drive, onto up to
fourteen USB sticks at once: two hubs of seven ports each. It has three parts.

- A supervisor (`server.c`) shares one segment with everything else: an array of
  fourteen channel records. Each record holds a state, a halt flag, a byte
  counter, a device name and path, and a hub and port number.
- Three threads run inside the supervisor:
  - The USB monitor (`usb.c`) keeps the records in step with the sticks that are plugged in.
  - The GPIO thread (`gpio.c`) reads the two buttons, turns presses into
    one-shot short or long presses, halts every channel when both buttons
    are held, and drives three LEDs per port through shift registers.
  - The supervisor's own loop (`hub_main`) starts the workers of a hub on a
    short press, cancels them on a long press, and shows progress on a
    20x4 character LCD (`lcd.c`).
- One worker process (`client.c`) runs per stick. It unmounts, wipes,
  partitions, formats and mounts the stick. It then copies the master with
  `copy_directory` and `copy_file` (`utilities.c`), unmounts, and verifies
  each file against a manifest of CRC-32/BZIP2 values.

The model has one module per concern, and every `.dfy` file is part of it:

| file | module | models |
|---|---|---|
| `globals.dfy` | `Globals` | constants, the channel states (including UNUSED and NOT_IN_USE), button states, the channel record |
| `control_plane.dfy` | `ControlPlane` | the shared segment as a class over an array of fourteen records, plus `channels_active` and `total_size`; the hub/port lookup |
| `crc.dfy` | `Crc32` | the table-driven CRC-32/BZIP2, its table and its check value |
| `manifest.dfy` | `Manifest` | the manifest line `path\tCRC\n`, reading it back with `fgets`, `strtoul` base 16, `parse_crc_file` |
| `utilities.c` helpers in `utilities.dfy` | `Utilities` | `get_state_name`, `compare_names`, `trim` (in place on an array), `extract_usb_path`, `get_device_id_from_hub_and_port_number` |
| `copy_engine.dfy` | `CopyEngine` | `copy_file` and `copy_directory` as a class whose fields are the tick, the byte counter and the manifest written so far |
| `worker.dfy` | `Worker` | the stages of `client.c`'s `main`, `verify`, `compute_crc32`, `failed` |
| `server.dfy` | `Server` | initialisation, `set_state`, `set_all_states`, `start_process`, `run`, `terminate`, one step of `hub_main` |
| `usb.dfy` | `Usb` | the path lookups and one pass of the monitor thread |
| `gpio.dfy` | `Gpio` | `set_leds`, the LED bit layout, the button edge detector, the both-buttons halt, `get_button_state0/1` |
| `lcd.dfy` | `Lcd` | the bytes the driver writes to the I²C backpack: nibbles, bytes, strings, centred messages, the bar graph |

Things outside the program become inputs:

- **Failures and the halt flag.** An oracle `Env(fails, haltAt)` stands for
  every external command and every file open, read, write and fsync. Each
  such call takes the next tick and fails when its tick is in `fails`.
- **Halt reads.** A read of the halt flag at tick `t` sees it set exactly
  when `haltAt <= t`. Once a worker has cleared its flag, only other threads
  write it, and they only ever set it.
- **Other inputs.**
  - The file tree of the RAM drive and the list of removable `sd*` devices are values.
  - The clock, `rand() % 16`, the fork result and the device size from the ioctl are parameters.
  - The button levels read from GPIO are parameters.

Each method that changes state is proved equal to a specification function
of the old state. The properties are lemmas about those functions.

The code and its comments differ in four places, and the model follows the code:

- The comment above the LED mapping in `gpio.c` labels each port's three
  bits R, G, Y. The code passes them to `set_leds` as red, yellow, green.
- `lcd_display_message`'s comment says it checks for NULL and empty. It
  checks for NULL only, so an empty line still clears its row.
- The comments on `extract_usb_path` (`utilities.c:119` and `:143`) give
  the component as "3-1.3:1.0". The code stops at the ':' before "/host"
  and returns "3-1.3" (see `Utilities.UsbPathExample`).
- `lcd_display_bargraph`'s comment (`lcd.c:185`) says the value is kept
  within 0-100. The code clamps it to 1..100, so 0 and below show one
  percent (see `Lcd.Clamp`).

## Model

| member | source | states |
|---|---|---|
| ControlPlane.SharedData.constructor | server.c:492 | a fresh segment is all zero: no channel active, no master size, every record zeroed |
| ControlPlane.InitialRecord | server.c:496-502 | record i gets device id i, state UNUSED, no halt, and a hub/port pair that recombines to i with the port below seven |
| ControlPlane.IndexOfHubPort | utilities.c:80-93 | the first record whose hub and port match, or none exactly when no record matches |
| ControlPlane.InitialLayoutLookup | utilities.c:80-93 | on the initial layout, hub h port p is found at index 7h+p |
| Utilities.GetDeviceIdFromHubAndPortNumber | utilities.c:80-93 | the loop returns the first index whose hub and port match; when none matches the source prints an error and exits the process with status 1, which the model returns as None |
| Utilities.StateName | utilities.c:13-34 | the name is "UNKNOWN" exactly for UNUSED and NOT_IN_USE; every name has at least five characters |
| Utilities.StateNamesDistinct | utilities.c:13-34 | two different states with a known name have different names |
| Utilities.CompareNames | utilities.c:192-194 | the comparison qsort uses is -1, 0 or 1, and 0 exactly for equal names |
| Utilities.CompareNamesAntisymmetric | utilities.c:192-194 | swapping the arguments negates the result |
| Utilities.CompareNamesTransitive | utilities.c:192-194 | "less than" is transitive, so sorting by it is well defined |
| Utilities.CompareNamesPrefix | utilities.c:192-194 | a proper prefix sorts before its extensions |
| Utilities.StrLen | utilities.c:97 | the length of a C string is the position of its first NUL |
| Utilities.CStr | utilities.c:97 | the characters before the first NUL, which contain no NUL |
| Utilities.SkipSpaces | utilities.c:100-102 | the first index from i whose character is not whitespace, with only whitespace skipped |
| Utilities.IsSpace | utilities.c:100-107 | the isspace test of the C locale that trim applies at both ends; Trimmed and TrimmedIsSlice state the trimmed result in terms of it |
| Utilities.SkipSpacesBack | utilities.c:105-107 | the last non-whitespace boundary before j, with only whitespace skipped |
| Utilities.Trimmed | utilities.c:96-115 | the trimmed string is no longer than the input and neither starts nor ends with whitespace |
| Utilities.TrimmedIsSlice | utilities.c:96-115 | a slice with only whitespace on either side and non-whitespace ends is the trimmed string |
| Utilities.TrimBounds | utilities.c:97-107 | the two scans return start and end with whitespace only before start and after end, and non-whitespace at both when the string is not blank |
| Utilities.Trim | utilities.c:96-115 | the corrected trim leaves in the buffer the C string of the old contents with leading and trailing whitespace removed |
| Utilities.TrimAsWritten | utilities.c:109-114 | the buffer as the written memmove leaves it keeps its length and still holds a NUL |
| Utilities.TrimAsWrittenKeepsSpaces | utilities.c:111 | " a " comes out as "a  " instead of "a" |
| Utilities.TrimAsWrittenLeading | utilities.c:110-111 | with leading whitespace only, the written code gives the string from its first non-blank |
| Utilities.TrimAsWrittenTrailing | utilities.c:112-114 | with trailing whitespace only, the written code gives the string up to its last non-blank |
| Utilities.TrimAsWrittenOneSided | utilities.c:96-115 | whenever at most one side has whitespace, the written trim agrees with the intended one |
| Utilities.FindFrom | utilities.c:128 | strstr from i: the first position of the pattern, or none when it occurs nowhere from i |
| Utilities.Find | utilities.c:128 | strstr: the first occurrence of the pattern, or none exactly when it does not occur |
| Utilities.ColonEnd | utilities.c:131-134 | the last ':' at or before h, or 0 when there is none |
| Utilities.SegmentStart | utilities.c:138-141 | the position after the last '/' before e, or 0 |
| Utilities.UsbPathOf | utilities.c:123-147 | the USB path is one path segment, without '/', and it is empty when the link holds no "/host" |
| Utilities.ExtractUsbPath | utilities.c:123-147 | the backward scans from "/host" return UsbPathOf of the input |
| Utilities.UsbPathExample | utilities.c:123-147 | the link "/1-1:1.0/host0" gives the USB path "1-1" |
| Utilities.FindExample | utilities.c:128 | "/host" is found at index 8 of "/1-1:1.0/host0" |
| Crc32.Crc | utilities.c:249-259 | the CRC of a file covers only its first CRC_SIZE (1 MiB) bytes, starts from 0xFFFFFFFF and is complemented at the end |
| Crc32.Round | utilities.c:454 | one round of the table generator: shift left by one, XOR the polynomial 0x04C11DB7 when the top bit was set (RoundsEight and CheckEntries state what eight of them give) |
| Crc32.Rounds | utilities.c:453-455 | k rounds applied in turn, as the inner loop does; RoundsEight writes the eight out |
| Crc32.TableEntry | utilities.c:451-456 | entry i is `i << 24` after eight rounds; CheckEntries and TableEntryZeroAndOne give published values, and InitialiseCrcTable is proved to store it at index i |
| Crc32.Update | utilities.c:249-254 | the register after feeding a byte sequence one table step per byte, left to right; UpdateSnoc and UpdateAppend state how it composes |
| Crc32.RoundsEight | utilities.c:447-458 | a table entry is eight rounds of the shift-and-XOR with the polynomial 0x04C11DB7 |
| Crc32.TableEntryZeroAndOne | utilities.c:447-458 | entry 0 is 0 and entry 1 is the polynomial |
| Crc32.UpdateSnoc | utilities.c:249-254 | feeding one more byte is one table step |
| Crc32.UpdateAppend | utilities.c:249-254 | feeding two blocks is feeding the first then the second, so the chunked read loop computes the same CRC as one pass |
| Crc32.CrcOfPrefix | utilities.c:250 | the CRC equals the CRC of the first CRC_SIZE bytes |
| Crc32.CrcIgnoresTail | utilities.c:250 | bytes past the first CRC_SIZE do not change the CRC |
| Crc32.CrcOfEmpty | utilities.c:259 | the CRC of an empty file is 0 |
| Crc32.CheckEntries | utilities.c:447-458 | nine table entries have their published values |
| Crc32.CheckValue | utilities.c:249-259 | the CRC of "123456789" is 0xFC891918, the check value of CRC-32/BZIP2 |
| Crc32.ComputeEntry | utilities.c:450-456 | the inner loop computes eight rounds of the polynomial step on `i << 24` |
| Crc32.StepByTable | utilities.c:251 | one table lookup equals the CRC step of the specification |
| Crc32.Step | utilities.c:251 | one byte of the table-driven update; StepByTable equates it with the lookup in the filled table, and CheckValue pins the whole update to the CRC-32/BZIP2 check value |
| Crc32.InitialiseCrcTable | utilities.c:447-458 | after the call the 256-entry table holds entry i at index i for every i |
| Manifest.HexChar | utilities.c:277-282 | a printed hex digit is a lower-case digit whose value is d |
| Manifest.HexDigits | utilities.c:277-282 | k digits, all lower-case hex |
| Manifest.HexValueOfDigits | client.c:100 | reading back k digits printed from n < 16^k gives n |
| Manifest.DigitValue | client.c:100 | the value strtoul gives one hex digit of either case, always below 16 |
| Manifest.HexValue | client.c:100 | the value strtoul accumulates over a run of hex digits; HexValueOfDigits and StrToUL16Digits prove it inverts the printed digits |
| Manifest.Hex8 | utilities.c:277-282 | `%08x` prints exactly eight lower-case hex digits |
| Manifest.Hex8Value | client.c:100 | reading back `%08x` gives the CRC |
| Manifest.ManifestPath | utilities.c:277-282 | the manifest stores the destination path with the RAM-drive prefix and its slash removed |
| Manifest.FormatLine | utilities.c:277-282 | a manifest line is the path, a tab, the CRC and a newline (path length plus ten characters) |
| Manifest.LineFrom | client.c:142 | fgets stops after a newline, at the end of the text, or when the buffer is full |
| Manifest.Fgets | client.c:142-146 | no line exactly at end of file; otherwise a non-empty line shorter than the buffer, and the line and the rest make up the text |
| Manifest.ReadLines | client.c:141-146 | the lines fgets returns in turn until end of file; ReadLinesWhole and ReadLinesOfConcat state what they are |
| Manifest.ReadLinesWhole | client.c:141-146 | the lines read are each non-empty and shorter than the buffer, and together they make up the whole manifest |
| Manifest.FgetsWholeLine | client.c:142 | a whole line followed by more text is read back as that line |
| Manifest.ReadLinesOfConcat | client.c:141-146 | reading a file made of whole lines gives back those lines |
| Manifest.FormatLineIsWhole | utilities.c:277-282 | a written manifest line fits the reader's buffer and ends with its only newline |
| Manifest.HexRunEnd | client.c:100 | the end of the run of hex digits starting at i |
| Manifest.StrToUL16 | client.c:100 | strtoul base 16 returns a value within unsigned long range (it saturates) |
| Manifest.StrToUL16Digits | client.c:100 | for a run of at least two digits within range, strtoul returns their value |
| Manifest.StrToULOfHex8 | client.c:100 | strtoul of eight printed digits followed by a non-digit gives the CRC back |
| Manifest.FindChar | client.c:87 | strchr finds the first occurrence of the character, or none when it is absent |
| Manifest.ParseCrcLine | client.c:84-101 | a line without a tab gives none; otherwise the name before the first tab and a 32-bit value |
| Manifest.FirstTabOfFormatLine | client.c:87 | in a written line the first tab is right after the path |
| Manifest.ParseFormatLine | client.c:84-101 | parsing a line written for a path without tabs gives back that path and CRC (the round trip) |
| CopyEngine.JoinPath | utilities.c:389-390 | `dir/name` is the directory, a slash and the name |
| CopyEngine.Listed | utilities.c:340-362 | the listing collected from readdir is no longer than the directory |
| CopyEngine.IsDotEntry | utilities.c:341 | the "." and ".." names the walk skips; ListedMembers proves the listing holds exactly the entries that are not these |
| CopyEngine.ListingError | utilities.c:345-356 | a level fails its listing when it has more than MAX_FILES names other than "." and "..", or one of them has PATH_LEN characters or more (ListingLimits states the -1 this gives) |
| CopyEngine.ListedMembers | utilities.c:340-362 | the listing holds exactly the entries other than "." and ".." |
| CopyEngine.ListedMonotone | utilities.c:340-362 | a longer prefix of the directory lists at least as many entries |
| CopyEngine.Insert | utilities.c:366-368 | inserting adds exactly one entry to the multiset |
| CopyEngine.InsertSorted | utilities.c:366-368 | inserting into a name-sorted list keeps it sorted |
| CopyEngine.SortByName | utilities.c:366-368 | the sort returns a permutation of its input |
| CopyEngine.SortByNameMembers | utilities.c:366-368 | the sort introduces no entry |
| CopyEngine.SortByNameSorted | utilities.c:366-368 | the sort's output is ordered by compare_names |
| CopyEngine.SortedListing | utilities.c:340-368 | the names both passes visit are entries of the directory other than "." and ".." |
| CopyEngine.ChunkSize | utilities.c:237 | a read returns at most COPY_BUFFER_SIZE bytes and at most what remains, and at least one byte while any remain |
| CopyEngine.ReadLoop | utilities.c:237-257 | the read loop advances and consumes at least one tick; reaching end of file means every byte was read |
| CopyEngine.CopyFileSpec | utilities.c:206-287 | copy_file returns 0 or -1; whatever was written is a prefix of the data; a manifest line is written only on success, with the whole file written, and holds the file's path and CRC; a 0 return always follows creating the destination, and a 0 return that left the file short happened at a halt, with no manifest line |
| CopyEngine.ManifestLine | utilities.c:277-282 | the line for a copied file is its destination path without the RAM-drive prefix and its slash, a tab, and the CRC of the data (Manifest.ParseFormatLine gives the round trip) |
| CopyEngine.FileStep | utilities.c:379-410 | one entry of the files pass ends the copy with 0 or -1, or continues |
| CopyEngine.FilesPass | utilities.c:379-410 | the files pass ends with nothing, 0 or -1 and never moves time backwards |
| CopyEngine.CopyDirSpec | utilities.c:300-441 | copy_directory returns 0 or -1 |
| CopyEngine.Passes | utilities.c:379-438 | the two passes end copy_directory with 0 or -1 and never move time backwards |
| CopyEngine.DirStep | utilities.c:414-438 | one entry of the directories pass ends the copy with 0 or -1, or continues |
| CopyEngine.DirsPass | utilities.c:414-438 | the directories pass ends with nothing, 0 or -1 |
| CopyEngine.ReadLoopUndisturbed | utilities.c:237-257 | with no failure and no halt, the read loop reaches end of file having read every byte |
| CopyEngine.CopyFileUndisturbed | utilities.c:206-287 | with no failure and no halt, copy_file returns 0, writes the whole file, counts its size, and writes a manifest line exactly when a manifest is open |
| CopyEngine.CopyFileHalted | utilities.c:211-239 | with halt already set, copy_file of a non-empty file counts nothing and writes no manifest line; it returns -1 exactly when the stat, either open or the first read fails, and 0 otherwise |
| CopyEngine.CopyDirHalted | utilities.c:308-370 | with halt already set, copy_directory counts nothing, writes no manifest line and creates nothing inside the destination; it returns -1 exactly when, outside the hidden directory, opendir or mkdir fails or the listing breaks a limit, and 0 otherwise |
| CopyEngine.HiddenDirectorySkipped | utilities.c:308-312 | a source path containing "System Volume Information" anywhere is skipped with status 0, no destination and no system call |
| CopyEngine.HiddenDirectoryNamed | utilities.c:308 | a directory named "System Volume Information" under any parent has that name in its path, so it is skipped |
| CopyEngine.CopyFileHaltedAfterRead | utilities.c:237-239 | a halt seen after a read returns 0 with the bytes written before it kept and counted, the file left short, and no manifest line |
| CopyEngine.ReadLoopNoFailures | utilities.c:237-266 | with no failing system call the read/write loop ends at end of file or at a halt |
| CopyEngine.CopyFileNoFailures | utilities.c:206-287 | with no failing system call copy_file returns 0, halted or not |
| CopyEngine.CopyDirNoFailures | utilities.c:300-441 | with no failing system call, on a tree within the listing limits, copy_directory returns 0 however a halt interrupts it |
| CopyEngine.PassesNoFailures | utilities.c:379-438 | with no failing system call the two passes of a level within the limits return 0 |
| CopyEngine.FilesPassNoFailures | utilities.c:379-410 | with no failing system call the file pass never returns -1 |
| CopyEngine.DirsPassNoFailures | utilities.c:414-438 | with no failing system call, on subtrees within the limits, the directory pass never returns -1 |
| CopyEngine.FileFailureFailsPass | utilities.c:401-404 | a file whose copy returns -1 makes its step and the file pass return -1 |
| CopyEngine.DirFailureFailsPass | utilities.c:432-435 | a subdirectory whose copy returns -1 makes its step and the directory pass return -1 |
| CopyEngine.PassFailureFailsDirectory | utilities.c:379-438 | a pass that returns -1 makes copy_directory return -1, with its destination created |
| CopyEngine.ListingLimits | utilities.c:345-356 | a directory with more than MAX_FILES entries, or a name too long for a path, fails with -1 before copying anything |
| CopyEngine.FilesPassUndisturbed | utilities.c:379-410 | with no failure and no halt, the files pass copies every regular file in sorted order, as the reference mirror says |
| CopyEngine.FileStepUndisturbed | utilities.c:379-410 | with no failure and no halt, one step of the files pass continues and adds exactly the mirror of that entry |
| CopyEngine.FilesPassWhole | utilities.c:379-410 | with no failure and no halt, the whole files pass continues and yields the mirror of the level's regular files |
| CopyEngine.CopyDirUndisturbed | utilities.c:300-441 | with no failure and no halt, copy_directory returns 0 and its outcome (files created, bytes counted, manifest lines) equals the reference mirror of the tree |
| CopyEngine.PassesUndisturbed | utilities.c:379-438 | with no failure and no halt, the two passes of a level return 0 and produce the level's mirror: its files first, then its subdirectories |
| CopyEngine.DirStepUndisturbed | utilities.c:414-438 | with no failure and no halt, one subdirectory step equals the mirror of that entry |
| CopyEngine.DirsPassUndisturbed | utilities.c:414-438 | with no failure and no halt, the directories pass recurses into every subdirectory in sorted order, as the mirror says |
| CopyEngine.DirsPassWhole | utilities.c:414-438 | with no failure and no halt, the whole directories pass continues and appends the mirror of the level's subdirectories to the files already created |
| CopyEngine.FeedCrc | utilities.c:249-254 | the per-chunk loop extends the running CRC to the first min(pos+n, CRC_SIZE) bytes |
| CopyEngine.ReadNames | utilities.c:340-362 | the collection loop succeeds exactly when the listing is within limits, and then returns the listing |
| CopyEngine.Copier.constructor | utilities.c:206 | a copier starts at the given tick and counter with an empty manifest |
| CopyEngine.Copier.CopyChunks | utilities.c:237-257 | the read/write loop follows ReadLoop, adds the bytes read to the counter, and at end of file holds the file's CRC |
| CopyEngine.Copier.CopyFile | utilities.c:206-287 | copy_file's status, tick, counter and manifest are those of CopyFileSpec |
| CopyEngine.Copier.CopyIfFile | utilities.c:379-410 | one iteration of the files loop is FileStep |
| CopyEngine.Copier.FilesLoop | utilities.c:379-410 | the files loop is FilesPass |
| CopyEngine.Copier.CopyIfDirectory | utilities.c:414-438 | one iteration of the directories loop is DirStep |
| CopyEngine.Copier.DirsLoop | utilities.c:414-438 | the directories loop is DirsPass |
| CopyEngine.Copier.CopyDirectory | utilities.c:300-441 | copy_directory's status, tree, tick, counter and manifest are those of CopyDirSpec |
| Worker.LastIndexOf | client.c:257 | strrchr: the last position of the character, or none exactly when it is absent |
| Worker.Truncate | client.c:264 | snprintf keeps a prefix shorter than the buffer, and the whole string when it fits |
| Worker.MountPointOf | client.c:256-264 | there is a mount point exactly when the device name has a slash, and it fits its buffer |
| Worker.PartitionOf | client.c:267-269 | the partition is the device name followed by '1' |
| Worker.MountPointOfBase | client.c:256-264 | for `dir/base` the mount point is `/mnt/usb/base1` |
| Worker.DeviceNamesExample | client.c:254-269 | "/dev/sdb" mounts at "/mnt/usb/sdb1" from partition "/dev/sdb1" |
| Worker.PartitionGeometry | client.c:310-324 | the partition either spans 1 MiB to 100 %, or starts at a multiple of 4 MiB between 4 and 64 and ends at 90 % |
| Worker.GeometryOfLargerDevice | client.c:310 | for a device at least as large as the master, the 90 % layout is chosen exactly when more than 200 MiB are spare |
| Worker.GeometryOfSmallerDevice | client.c:310 | the difference is unsigned, so a device smaller than the master wraps around and takes the 90 % layout |
| Worker.WearLevellingOffsets | client.c:315 | the offsets rand() can pick are exactly the multiples of 4 from 4 to 64 |
| Worker.StartOffset | client.c:315 | the start offset (1 + pick) * 4 MiB; WearLevellingOffsets proves the picks 0..15 give exactly the multiples of 4 from 4 to 64 |
| Worker.CheckLines | client.c:141-158 | the verify loop stops only at a mismatch or a line without a tab; a loop ended by halt has seen halt |
| Worker.NextLine | client.c:142-157 | one line: a line without a tab stops without a tick, a mismatch stops after the file open, a match continues with shorter text |
| Worker.VerifySpec | client.c:105-178 | verify reports halt only when it has seen it, and never moves time backwards |
| Worker.Mounted | client.c:138-177 | the part of verify after the mount reports halt only when it has seen it |
| Worker.StoredCrc | client.c:59-80 | the value compute_crc32 gives for a file on the drive is that file's CRC |
| Worker.CheckLine | client.c:84-101 | a line is refused for lack of a tab exactly when it has none |
| Worker.Audit | client.c:141-158 | the verdict of a sequence of line checks is a pass, a mismatch or a missing tab |
| Worker.AuditCharacterised | client.c:141-158 | the checks pass exactly when every line is good; otherwise the verdict names the first bad line and its kind |
| Worker.NextLineUndisturbed | client.c:142-157 | with no failure and no halt, one line's outcome is decided by fgets and the line's check alone |
| Worker.CheckLinesUndisturbed | client.c:141-158 | with no failure and no halt, the loop passes exactly when the audit of the manifest's lines passes, and otherwise stops at its first bad line |
| Worker.ChecksCons | client.c:141-158 | the checks of a line followed by more lines are that line's check followed by the rest |
| Worker.VerifyUndisturbed | client.c:105-178 | with no failure and no halt, verify mounts, gives the audit's verdict, and unmounts exactly when the audit passes |
| Worker.Fail | client.c:18-46 | failed() leaves the record FAILED with halt set and exits with status 1 |
| Worker.RunSpec | client.c:239-404 | every run of the worker ends with an exit status |
| Worker.FileCrc | client.c:59-80 | the CRC the verifier recomputes: 0 for a missing file (or a failing fopen), and any non-zero value is the CRC of the file's first CRC_SIZE bytes; ComputeCrc32 is proved to compute it |
| Worker.RecordUsable | client.c:239-262 | the checks before step 1: a device name of at least 4 characters containing a slash, and a device path of at least 2 |
| Worker.StartStage | client.c:274-283 | step 1 sets STARTING, clears halt and zeroes the counter, then runs umount unless halt is already set again; an exited run is left alone |
| Worker.GuardedStage | client.c:294-357 | steps 3 to 7: with halt seen only halt is recorded and nothing runs; otherwise the stage's state is set and its command runs, and a failing command ends with FAILED, halt and exit 1; the counter is untouched |
| Worker.PrepareStages | client.c:274-357 | steps 1 to 7 in order; StagesKeepSound, PrepareFailing and PreparedWithoutHalt state what they do |
| Worker.Preparation | client.c:281-353 | the six commands umount, wipefs, parted, mkfs.vfat, mkdir -p and mount in order; SuccessfulRun proves a COMPLETE run issued all six before its copy, and HaltBeforeCopy that a halt after k commands issued exactly the first k and then the final umount |
| Worker.CopyStage | client.c:359-367 | step 8 runs no command and never decreases the counter; with halt seen it only records halt; a copy that does not return 0 ends with FAILED, halt and exit 1 |
| Worker.UnmountStage | client.c:369-375 | step 9 runs umount whatever halt says; its failure ends with FAILED and exit 1, otherwise the state is UNMOUNTING |
| Worker.VerifyStage | client.c:377-390 | step 10 leaves the counter and the drive alone; from a poll that found halt clear it reaches SUCCESS only without exiting and with no halt seen by its end; its only exit is status 0 |
| Worker.Finish | client.c:404 | a run that has not exited ends with status 0, and an exited run is kept as it is |
| Worker.HaltStaysSeen | client.c:141 | once a worker has seen halt it keeps seeing it |
| Worker.StagesKeepSound | client.c:274-375 | steps 1 to 9 leave the run either going on (and not SUCCESS) or properly exited |
| Worker.PrepareKeepsSound | client.c:274-357 | steps 1 to 7 leave the run going on (and not SUCCESS) or properly exited |
| Worker.CopyKeepsSound | client.c:359-367 | step 8 keeps the run going on or properly exited |
| Worker.GuardedKeepsSound | client.c:295-357 | a halt-guarded stage keeps the run going on or properly exited |
| Worker.RunOutcome | client.c:239-404 | every run ends properly: FAILED with halt and status 1, VERIFYING with status 0 at a manifest line without a tab, or status 0 with SUCCESS only when halt was never seen |
| Worker.FinishProper | client.c:377-404 | the last step turns a sound state into a proper end |
| Worker.RunSpecStages | client.c:254-404 | a usable record runs steps 1 to 7, copy, unmount, verify and the final exit, in that order |
| Worker.PreparedWithoutHalt | client.c:274-357 | if preparation ends without exit or halt, it ran the six commands in order, one tick each, and the state is MOUNTING |
| Worker.StartUnhalted | client.c:274-283 | step 1 never exits or succeeds; without halt it sets STARTING, clears halt and counter, and runs umount |
| Worker.GuardedUnhalted | client.c:295-357 | a guarded stage that leaves the run going without halt ran its command, which did not fail |
| Worker.VerifyPassed | client.c:105-178 | a pass without halt needs a manifest, ran mount then umount, and read the manifest to the end |
| Worker.SuccessfulRun | client.c:239-393 | a run ends in SUCCESS only if the record was usable, the copy returned 0, and the six preparation commands, umount, mount and umount ran in order |
| Worker.PrepareNeverSucceeds | client.c:274-357 | preparation never sets SUCCESS |
| Worker.GuardedNeverSucceeds | client.c:295-357 | a guarded stage never sets SUCCESS |
| Worker.AfterPreparation | client.c:359-393 | SUCCESS after preparation needs a copy returning 0, then umount, mount and umount |
| Worker.CopyUnhalted | client.c:359-367 | the copy stage never sets SUCCESS; going on without halt means copy_directory returned 0 and its bytes were counted |
| Worker.UnmountRan | client.c:369-375 | the unmount stage never sets SUCCESS, and going on means umount ran and did not fail |
| Worker.VerifyStageSucceeded | client.c:377-390 | SUCCESS from the verify stage needs no halt, a manifest, and mount then umount |
| Worker.RamdirNotHidden | client.c:364 | the RAM drive is not a "System Volume Information" directory, so the master is copied |
| Worker.StartUpTo | client.c:274-283 | with nothing failing and halt first seen after k commands, step 1 has run the first min(1, k) commands and is halted exactly when k is 0 |
| Worker.GuardedUpTo | client.c:295-357 | with nothing failing and halt first seen after k commands, each guarded stage runs its command while fewer than k have run, and otherwise only sets halt |
| Worker.HaltBeforeCopy | client.c:274-393 | halt raised after k of the six preparation commands: exactly those k run, then the final umount; the run ends UNMOUNTING, halted, status 0, nothing copied |
| Worker.PrepareUpTo | client.c:274-357 | with halt raised after k commands, preparation runs exactly the first k |
| Worker.HaltedAfterPreparation | client.c:359-393 | halt seen after preparation: no copy and no verify, only the final umount, ending UNMOUNTING |
| Worker.GuardedFailing | client.c:295-357 | with halt never set and only command j failing, each guarded stage runs its command until command j has run, and from then on the run has exited FAILED |
| Worker.FailureDuringPreparation | client.c:295-357 | when command j (wipefs to mount) fails, the run stops right there FAILED, halted, status 1, having run exactly the first j+1 commands |
| Worker.PrepareFailing | client.c:295-357 | with command j failing, preparation runs exactly the first j+1 commands and fails |
| Worker.PrepareUndisturbed | client.c:274-357 | with no failure and no halt, preparation runs umount, wipefs, parted, mkfs.vfat, mkdir -p and mount in order |
| Worker.UndisturbedAfterPreparation | client.c:359-404 | with no failure and no halt, copy, unmount, verify and exit give the mirror's bytes and files and the manifest's verdict |
| Worker.FinishUndisturbed | client.c:404 | the final exit keeps an undisturbed run's verdict |
| Worker.UndisturbedCopyAndVerify | client.c:359-393 | with no failure and no halt, the copy stage creates the mirror and the verify stage gives its verdict |
| Worker.CopyUndisturbed | client.c:359-367 | with no failure and no halt, the copy stage counts the mirror's bytes and leaves the mirror's files on the drive |
| Worker.VerifyStageUndisturbed | client.c:377-390 | with no failure and no halt: no manifest gives CRC_FAILED; otherwise SUCCESS when the audit passes, CRC_FAILED at a mismatch, exit 0 in VERIFYING at a line without a tab |
| Worker.UndisturbedRun | client.c:239-404 | with no failure and no halt, a usable record ends with status 0, the master mirrored, its bytes counted, and the manifest's verdict |
| Worker.VerifyStageSound | client.c:377-393 | SUCCESS after the verify stage implies halt was never seen |
| Worker.VerifyStageOutcome | client.c:377-390 | step 10 with halt seen first only sets halt; otherwise it runs verify's commands, and a pass gives FAILED with halt when a halt was seen by its end and SUCCESS otherwise, a line without a tab exits 0, and any other end gives CRC_FAILED |
| Worker.ComputeCrc32 | client.c:59-80 | compute_crc32 returns the file's CRC, and 0 when the file cannot be opened |
| Worker.CopyMaster | client.c:364 | the worker's copy of the master is copy_directory from the RAM drive without a manifest |
| Worker.ReadAndCheck | client.c:142-157 | reading and checking one line computes NextLine |
| Worker.Written | client.c:275-392 | a worker writes only the state, halt flag and byte counter of its record |
| Worker.Client.constructor | client.c:232 | a worker is attached to record id of the segment, with no command run yet |
| Worker.Client.SetRecord | client.c:275-277 | writing state, halt and counter changes only those fields of the worker's own record |
| Worker.Client.PollHalt | client.c:279 | reading halt returns what the oracle says, and the record shows it |
| Worker.Client.Execute | utilities.c:156-181 | execute_command appends the command, takes one tick, and succeeds unless that tick fails |
| Worker.Client.Failed | client.c:18-46 | failed() leaves the snapshot Fail(old snapshot) |
| Worker.Client.Start | client.c:274-283 | step 1 leaves the snapshot StartStage(old snapshot) |
| Worker.Client.Guarded | client.c:295-357 | each guarded step leaves the snapshot GuardedStage(old snapshot) |
| Worker.Client.Copy | client.c:359-367 | step 8 leaves the snapshot CopyStage(old snapshot) |
| Worker.Client.Unmount | client.c:369-375 | step 9 leaves the snapshot UnmountStage(old snapshot) |
| Worker.Client.Verify | client.c:105-178 | verify returns VerifySpec's verdict and adds its commands and ticks |
| Worker.Client.MountAndCheck | client.c:121-178 | opening the manifest, mounting and checking follow VerifySpec |
| Worker.Client.CheckAndUnmount | client.c:138-177 | the loop and the unmount follow Mounted |
| Worker.Client.CheckAll | client.c:141-158 | the verify loop computes CheckLines |
| Worker.Client.Check | client.c:377-390 | step 10 leaves the snapshot VerifyStage(old snapshot) |
| Worker.Client.Run | client.c:239-404 | the worker's main leaves the snapshot RunSpec(old snapshot, its record, the partition layout) |
| Worker.Client.RunStages | client.c:274-404 | steps 1 to 11 compose PrepareStages, CopyStage, UnmountStage, VerifyStage and Finish |
| Worker.Client.Prepare | client.c:274-357 | steps 1 to 7 leave the snapshot PrepareStages(old snapshot) |
| Worker.RunClient | client.c:190-404 | an out-of-range id exits with status 1 and changes nothing; otherwise the worker's record ends as RunSpec says and no other record changes |
| Server.InitialiseSharedData | server.c:491-502 | after initialisation record i is InitialRecord(i), with nothing active and no master size |
| Server.InitialHubs | server.c:496-502 | on the initial layout, record i belongs to hub h exactly when 7h <= i < 7h+7 |
| Server.SetState | server.c:25-28 | set_state changes the state of one record and nothing else |
| Server.SetAllStates | server.c:32-38 | set_all_states gives every record the state and changes nothing else |
| Server.StartGuard | server.c:119-122 | the corrected range check admits exactly the fourteen slots |
| Server.StartGuardAsWrittenAdmitsEnd | server.c:119 | the check as written admits one id more, 14, which is past the last record |
| Server.StartGuardAsWritten | server.c:119 | the range check as written rejects only ids below 0 or above MAX_USB_CHANNELS |
| Server.Started | server.c:159-162 | the child's record says STARTING with a zero count and the start time, and keeps the name, path, halt, hub and id |
| Server.StartProcess | server.c:114-172 | out of range exits with 1 and changes nothing; an UNUSED record or a failed fork returns -1 and changes nothing; otherwise returns the pid and only that record becomes Started |
| Server.Launches | server.c:126-162 | a record in range gets a worker exactly when it is not UNUSED and fork succeeds; StartProcess ensures the pid is returned and the record becomes Started exactly then |
| Server.CandidatesExactly | server.c:322-330 | the ids run starts are increasing and are exactly the hub's records that are READY, SUCCESS or FAILED |
| Server.Startable | server.c:328-330 | run starts workers only on READY, SUCCESS and FAILED records |
| Server.Candidates | server.c:322-330 | the ids run calls start_process with, scanning from id i upward; CandidatesExactly proves they are increasing and are exactly the hub's startable records |
| Server.RunResult | server.c:333-342 | run returns 0 or 1, and 0 exactly when every start_process call succeeded |
| Server.AfterRun | server.c:318-343 | run leaves as many records as before |
| Server.AfterOne | server.c:126-162 | one record after a run of the hub: Started when it is on the hub, startable and its fork succeeds, otherwise unchanged; AfterRunEffect and StartOne state it |
| Server.Run | server.c:318-343 | run calls start_process on the candidates in order, returns 1 when any call failed, and leaves the records AfterRun |
| Server.StartOne | server.c:324-338 | one round of run's loop starts the record exactly when it belongs to the hub and may be started, fails exactly when that start's fork fails, and leaves every other record unchanged |
| Server.RunResultAppend | server.c:333-336 | one more failing call makes the result 1, a successful one keeps it |
| Server.HaltHub | server.c:348-356 | terminate leaves as many records as before |
| Server.Terminate | server.c:348-356 | terminate leaves the records HaltHub(old records) |
| Server.HaltHubEffect | server.c:348-356 | terminate sets halt on every record of the hub, keeps every state, and changes no other hub's record and no other field |
| Server.AfterRunEffect | server.c:318-343 | after run, a started candidate is STARTING with a zero count, a record run did not start is unchanged, and a CRC_FAILED record is never restarted |
| Server.Aggregate | server.c:374-394 | the counting loop computes CountsOf the records for the hub |
| Server.Count | server.c:377-392 | a record of another hub changes nothing; a record of the hub adds at most one to busy, pass or fail, and none decreases |
| Server.CountsOf | server.c:374-394 | the busy, passed and failed counts of a hub together are at most the number of records |
| Globals.InProgress | server.c:380-382 | the seven busy states: STARTING, ERASING, FORMATING, PARTITIONING, MOUNTING, COPYING and UNMOUNTING |
| Server.BusyZeroIff | server.c:380-385 | the busy count is zero exactly when no record of the hub is in progress |
| Server.CountsBounded | server.c:374-394 | busy + pass + fail is at most the number of records, and the byte total is not negative when no counter is |
| Server.CountsReadStateAndBytes | server.c:374-394 | the counts depend only on hub, state and byte counter |
| Server.TerminateKeepsCounts | server.c:348-356 | terminating one hub leaves every hub's counts as they were |
| Server.CDiv | server.c:415 | C integer division agrees with Euclidean division on non-negative operands |
| Server.Percent | server.c:411-415 | the progress is 0 when nothing counts or the master size is 0 |
| Server.PercentBounded | server.c:411-415 | while the bytes copied are within count times the master size, the progress is between 0 and 100 |
| Server.NextBusy | server.c:397-451 | an idle hub becomes busy exactly on a short press; a long press cancels a busy hub; a busy hub stays busy while some worker is in progress |
| Server.Supervisor.constructor | server.c:364-366 | both hubs start idle with no start time |
| Server.Supervisor.HubMain | server.c:362-453 | busy and long press: terminate and show CANCELLED; busy otherwise: show progress while any worker runs, else the summary with megabytes and seconds; idle and short press: record the time, clear the rows and run; otherwise nothing changes |
| Usb.IndexOfPath | usb.c:42-57 | the first discovered slot with the path, or none exactly when no discovered slot has it |
| Usb.GetDeviceIdFromPath | usb.c:42-57 | the loop returns the first discovered slot with the path, or -1 |
| Usb.GetDeviceIdFromName | usb.c:21-36 | the same lookup under its other name |
| Usb.NewSlotAsWrittenOverflows | usb.c:136-147 | with all fourteen slots discovered, a new path is written to slot 14, past the last record |
| Usb.NewSlotAsWritten | usb.c:136-147 | the slot written is the discovered slot holding the path when there is one, and otherwise channels_active itself, with no bound check |
| Usb.Arrive | usb.c:132-161 | a new path takes slot channels_active with the drive's name and path, READY and seen, and the count grows by one (the table is left alone when full); a known path with a new name gets that name and READY; a known path with the same name keeps its record; the slot is marked seen and no other slot changes |
| Usb.ArriveAll | usb.c:101-162 | the drives of one scan never shrink the discovered count |
| Usb.Removed | usb.c:174-182 | a removed drive loses its name and becomes EMPTY unless it is FAILED or CRC_FAILED; path and halt stay |
| Usb.Sweep | usb.c:171-183 | the sweep keeps fourteen records |
| Usb.Scan | usb.c:99-183 | a whole pass keeps the table well formed |
| Usb.ArriveOne | usb.c:132-161 | handling one drive leaves the segment as Arrive says: added, renamed or only marked seen, with total_size untouched |
| Usb.SweepPass | usb.c:171-183 | the removal loop leaves the records as Sweep says |
| Usb.ScanStep | usb.c:99-183 | one pass of the monitor leaves the records and channels_active as Scan says, with total_size untouched |
| Usb.ArriveKeeps | usb.c:132-161 | an arrival keeps discovered paths distinct and named slots seen, keeps every tracked path, and tracks the drive's path while room remains |
| Usb.ArriveAllKeeps | usb.c:101-162 | after a scan, paths stay distinct, tracked paths stay tracked, and every scanned drive is tracked unless the table filled up |
| Usb.SweepEffect | usb.c:171-183 | a present slot is unchanged; a missing named slot loses its name and goes EMPTY unless failed; an unnamed slot is unchanged |
| Usb.ScanGuarantees | usb.c:99-183 | after a pass the discovered count only grew, every seen slot is named and discovered, discovered paths are distinct, and every drive is tracked unless the table is full |
| Gpio.Wrap | gpio.c:94 | uint64 arithmetic: the result agrees with the integer modulo 2^64 |
| Gpio.ToLong | gpio.c:343 | the conversion to long gives a signed 64-bit value that wraps back to the same bits |
| Gpio.SetLeds | gpio.c:72-138 | the LEDs of each state: off when empty or unused, yellow when READY, green on SUCCESS, red on FAILED, red and yellow on CRC_FAILED, all on LED_TEST, only yellow while busy or verifying, and while INDICATING lit except in the fourth phase |
| Gpio.BusyBlinks | gpio.c:94 | while busy, yellow toggles every 300 ms and repeats every 600 ms |
| Gpio.BusyLeds | gpio.c:94 | a busy port past its stagger shows only yellow, lit in the second half of each 600 ms period |
| Gpio.BusyStaggered | gpio.c:94 | each port blinks 70 ms after the one before |
| Gpio.BlinkOff | gpio.c:94-98 | a blinking yellow LED is off in the first half of each period, counted from the port's stagger on the wrapped millisecond clock (BusyBlinks and BusyLeds state the busy case) |
| Gpio.Shade | gpio.c:431-437 | the LED of one colour among a port's three |
| Gpio.Offset | gpio.c:431-437 | each port's red, yellow and green bits sit at offsets 1 to 23 of its hub's block, never at 0, 8 or 16 |
| Gpio.VerifyingBlinks | gpio.c:98 | while verifying, yellow toggles every 100 ms, each port 20 ms after the one before |
| Gpio.IndicatingCycles | gpio.c:120-136 | INDICATING lights at most one LED, cycling red, yellow, green, off every 80 ms |
| Gpio.Role | gpio.c:413-437 | the port of the bit at an offset is one of the seven ports |
| Gpio.LayoutBijective | gpio.c:413-437 | every LED has its own bit within 1..23 other than 8 and 16; the offsets of the layout are exactly the bits with a role |
| Gpio.FrameBitsDistinct | gpio.c:427-438 | no two LEDs of the two hubs share a bit of the 48-bit frame |
| Gpio.HubLeds | gpio.c:427-438 | each hub has seven ports of LEDs |
| Gpio.Block | gpio.c:427-438 | each hub has a block of 24 bits |
| Gpio.LedFrame | gpio.c:411-438 | the frame has 48 bits |
| Gpio.BlockShows | gpio.c:427-438 | a block shows each port's LED at its offset and leaves bits 0, 8 and 16 dark |
| Gpio.LedFrameShows | gpio.c:411-438 | bit 24h + offset shows the LED set_leds computes for record 7h + port; unused bits stay dark |
| Gpio.LedFrameOfStates | gpio.c:411-438 | the frame depends only on the records' states |
| Gpio.PutLeds | gpio.c:431-437 | one set_leds call writes the port's three bits and no other |
| Gpio.PutPort | gpio.c:431-437 | one set_leds call in the hub loop adds that port's three LEDs to the block and changes no bit outside the block |
| Gpio.PutHub | gpio.c:427-438 | the loop for one hub fills its block and changes no bit outside it |
| Gpio.Duration | gpio.c:343 | the press duration is the wrapped difference, read as a signed long |
| Gpio.Step | gpio.c:343-361 | a falling edge starts a press at ms; a button still held while waiting for release changes nothing; the level is remembered |
| Gpio.QuietWhileWaiting | gpio.c:350 | while waiting for release, holding the button changes nothing |
| Gpio.HeldPress | gpio.c:350-353 | holding the button reports a long press once LONG_PRESS_TIME has passed, and only once |
| Gpio.PressOutcome | gpio.c:343-361 | a press then release gives LONG_PRESS if it was held past LONG_PRESS_TIME, SHORT_PRESS if it lasted SHORT_PRESS_TIME or more, and otherwise leaves the state |
| Gpio.Taken | gpio.c:463-489 | reading the button returns its state and resets it to NOT_PRESSED, changing nothing else |
| Gpio.BothHeld | gpio.c:395-396 | the halt fires exactly when both buttons are pressed and one of them is a long press |
| Gpio.Button.constructor | gpio.c:311-318 | a detector starts idle, with the level high |
| Gpio.Button.Tick | gpio.c:337-361 | a failed read is reported and changes nothing; otherwise the detector takes one Step |
| Gpio.Button.Take | gpio.c:463-489 | get_button_state returns the state and clears it, as Taken says |
| Gpio.Panel.constructor | gpio.c:309-318 | the panel starts with both detectors idle and all bits dark |
| Gpio.Panel.HaltAll | gpio.c:399-401 | the halt sets the flag of every record and changes nothing else |
| Gpio.Panel.UpdateLeds | gpio.c:411-438 | the bit array becomes the frame of the current records |
| Gpio.Panel.Tick | gpio.c:328-440 | one pass: a failed read stops with nothing changed; otherwise both detectors step, both-held halts every record and clears both buttons, and the LEDs show the frame |
| Lcd.NibbleData | lcd.c:24-37 | the data byte carries the nibble in its top four bits, RS when asked for, the backlight, and not EN |
| Lcd.NibbleShape | lcd.c:39-44 | a nibble goes out as two bytes identical except that EN is high in the first and low in the second |
| Lcd.ByteBytes | lcd.c:48-53 | a byte goes out as four I²C bytes |
| Lcd.NibbleBytes | lcd.c:39-44 | a nibble goes out as exactly two I²C bytes (NibbleShape states how they differ) |
| Lcd.CharByte | lcd.c:56-58 | a C char is sent as its byte value modulo 256 |
| Lcd.Encode | lcd.c:48-53 | writes go out as four bytes each |
| Lcd.ByteRoundTrip | lcd.c:24-53 | decoding the four bytes of a write gives the write back: the high nibble, then the low nibble and RS |
| Lcd.RoundTrip | lcd.c:24-53 | decoding the bytes of any sequence of writes gives it back, so the byte stream determines the writes |
| Lcd.EncodeAppend | lcd.c:48-53 | encoding distributes over concatenation |
| Lcd.Chars | lcd.c:56-58 | each character is one data write (RS set) of its byte |
| Lcd.Repeat | lcd.c:79-82 | n copies of a character |
| Lcd.Cursor | lcd.c:64-69 | rows 0 to 3 move the cursor to 0x80 with the row's offset 0x00, 0x40, 0x14, 0x54; any other row writes nothing |
| Lcd.Visible | lcd.c:72-76 | the copy loop stops at 20 columns or at the end of the string |
| Lcd.VisibleIs | lcd.c:72-76 | it stops at the first NUL, at the end of the text, or at column 20 |
| Lcd.Row | lcd.c:61-83 | a row is 20 characters: the visible part of the string, then spaces |
| Lcd.RowShows | lcd.c:61-83 | a string without NUL shows its first 20 characters padded with spaces |
| Lcd.WriteStringOps | lcd.c:61-83 | lcd_write_string sends the cursor command when the row exists, and then exactly 20 data writes |
| Lcd.Fitted | lcd.c:170-171 | the length used is the string's, capped at 20 |
| Lcd.Padding | lcd.c:171 | the padding and the text fit in 20 columns |
| Lcd.Centred | lcd.c:172-174 | the buffer is 21 characters ending in NUL |
| Lcd.CentredRow | lcd.c:170-175 | a message line is shown centred: its padding of spaces, its first 20 characters, then spaces; the right margin exceeds the left by at most one |
| Lcd.MessageStep | lcd.c:166-177 | each line present adds its centred row; a NULL line adds nothing |
| Lcd.LinesOps | lcd.c:166-177 | the writes for the first n lines: each present line centred on its own row, in row order; DisplayMessage is proved to send exactly these after the clear |
| Lcd.Clamp | lcd.c:186-187 | the bar graph value is clamped to 1..100 |
| Lcd.BarCellsAre | lcd.c:200-217 | the cells are value/5 full blocks, a partial block of value%5-1 when there is room and a remainder, then spaces |
| Lcd.BarCells | lcd.c:199-217 | the bargraph row is always 20 cells |
| Lcd.BargraphOps | lcd.c:183-218 | an invalid row writes nothing; otherwise the cursor command and 20 data writes |
| Lcd.FillAppend | lcd.c:200-217 | the fill of two runs of cells is the sum of their fills |
| Lcd.Fill | lcd.c:200-217 | the fifths a row of cells fills are at most five per cell |
| Lcd.FillRepeat | lcd.c:204-206 | n full blocks fill 5n |
| Lcd.BargraphShowsValue | lcd.c:183-218 | the bar has exactly 20 cells, and the fifths they fill add up to the clamped value |
| Lcd.BarWithPartial | lcd.c:200-217 | full cells, one partial cell and spaces make a row of 20 cells filling five fifths per full cell plus the partial cell's fifths |
| Lcd.BarWhole | lcd.c:200-217 | full cells followed by spaces make a row of 20 cells filling five fifths per full cell |
| Lcd.Display.constructor | lcd.c:98 | the display starts with nothing written |
| Lcd.Display.SendNibble | lcd.c:24-45 | lcd_send_nibble appends the nibble's two bytes |
| Lcd.Display.SendByte | lcd.c:48-53 | lcd_send_byte appends the byte's four bytes |
| Lcd.Display.WriteChar | lcd.c:56-58 | lcd_write_char sends the character as data |
| Lcd.Display.WriteString | lcd.c:61-83 | lcd_write_string appends the encoding of WriteStringOps |
| Lcd.Display.WriteVisible | lcd.c:72-76 | the copy loop writes the visible part and returns its length |
| Lcd.Display.WriteNext | lcd.c:72-76 | one round of the copy loop appends the next character's I2C bytes |
| Lcd.Display.PadFrom | lcd.c:79-82 | the padding loop writes spaces up to column 20 |
| Lcd.Display.DisplayMessage | lcd.c:155-178 | lcd_display_message clears the display, then writes each present line centred on its row |
| Lcd.Display.DisplayBargraph | lcd.c:183-218 | lcd_display_bargraph appends the encoding of BargraphOps |
| Lcd.Display.FullCells | lcd.c:204-206 | the full-block loop writes that many full cells |

## Left out

- Processes: fork, execvp, waitpid, sudo and stdin redirection are left out. `start_process` takes the fork result as a parameter. The child's record writes are applied as the child makes them, before the worker runs.
- Shared memory: shm_open, mmap and munmap are left out. The segment is one object shared by reference; its `settings` block (reformat, autostart) is not modelled.
- Concurrency: threads and the memory model are left out. Each thread's loop is modelled as one pass. Writes from other threads reach a worker only through the halt oracle.
- Characters: a Dafny `char` stands for one C byte (0..255) throughout: file names, manifest lines and LCD text. Multi-byte UTF-8 is not modelled. `Lcd.CharByte` keeps only the low eight bits of a char above 255. The length limits of `Lcd.Fitted` (strlen), `Manifest.LineFrom` (the fgets buffer) and `CopyEngine.ListingError` (PATH_LEN) count chars, so they equal byte counts only for chars in that range.
- Time: sleeps, usleep, delay_us and beeps are left out. `clock_gettime`, `time` and `gettimeofday` become parameters.
- GPIO, I²C and the shift registers are left out: line requests, bit-banging the 48-bit frame in `send_led_data`, `i2c_write_byte`. The LED frame is the bit array handed to `send_led_data`; the LCD's output is the sequence of bytes handed to `i2c_write_byte`.
- LONG_PRESS_TIME and SHORT_PRESS_TIME are used in `gpio.c` but not defined in the headers shown. The model fixes them at 2000 ms and 50 ms; only the lemmas with concrete times depend on those values.
- The supervisor's setup: `load_master`, `map_usb_ports`, `test_leds`, `display_system_menu`, `get_ip_address`, `wait_for_button_release`, `lcd_init`, `lcd_clear`, `lcd_home` and `lcd_display_error_message`. These are set-up, menu or hardware code outside the duplicating core.
- The `starting` flag in the supervisor's main loop (server.c:520-531): it only clears the LCD once. Its condition tests `button_state0` twice where `button_state1` was evidently meant; the flag has no other effect.
- The USB monitor's directory scan of /sys/block, the `removable` check and readlink: the pass takes the list of removable `sd*` drives with their names and link paths as input.
- Server.Supervisor.HubMain: the LCD text of hub_main (sprintf formats, `%-2u`) is not modelled; the step returns what it shows as a value (`Shown`) with the counts, the integer percentage, the megabytes and the elapsed seconds.
- Server.Percent: the product `100*total_bytes_copied` is taken without its int64 overflow, and the source's float is replaced by the integer expression it is computed from (C truncating division); beyond that the percentage is passed to the bar graph as the int it is converted to.
- Worker.RunClient: the device size from the BLKGETSIZE64 ioctl and the `rand() % 16` pick are parameters. The uninitialised `device_size` after a failed open is not modelled.
- Worker.RunClient: `verify` does not close the manifest or unmount the drive after a mismatch, and the model does not track open files.
- Worker.RunSpec: the worker's log lines and the time it reports are not modelled.
- CopyEngine.CopyDirSpec: paths are not truncated at PATH_LEN by snprintf, and `mkdir` of a destination that already exists is treated as created afresh (the EEXIST merge is not modelled).
- The path-length warnings in the files loop (utilities.c:381-387) only print, and the second reads `dest_path` before it is first set; they are not modelled.
- CopyEngine.SortByName: qsort is a libc call, so the sort is a function (an insertion sort proved to be a sorted permutation), not the in-place quicksort.
- CopyEngine.Copier.CopyFile: fsync and close failures are oracle ticks; file modes, ownership and `stat` fields other than the type and size are not modelled.
- The server's copy of the master (`load_master`) calls `copy_directory` without the CRC table being initialised and with a missing argument; that call is not part of the model.
- Crc32: only the table-driven CRC is modelled. There is no separate bitwise reference; the table's entries are tied to eight rounds of the polynomial step, and the check value of "123456789" is proved.
- Utilities.ExtractUsbPath: the fixed-size output buffer is not modelled; the USB path is a string.
- Gpio.Panel.Tick: the source exits the process on a failed button read; the model returns `ReadError` and changes nothing after it.
- Utilities.GetDeviceIdFromHubAndPortNumber: when no record matches, the source prints an error and ends the process with `exit(1)`; the model returns None instead, and leaves the process exit to the caller.

## Findings

| source | as written | input that shows it | evidently intended | confidence | as-written member | corrected member |
|---|---|---|---|---|---|---|
| utilities.c:109-114 | with whitespace at both ends, `memmove` moves `end - start + 2` characters, which ends at a space rather than at the terminator | `" a "` becomes `"a  "` | the string without leading and trailing whitespace, `"a"` | not executed | Utilities.TrimAsWrittenKeepsSpaces | Utilities.Trim |
| server.c:119 | the range check rejects only `device_id > MAX_USB_CHANNELS` | `device_id == 14` passes and indexes `channel_info[14]`, one past the array | reject `device_id >= MAX_USB_CHANNELS` | not executed | Server.StartGuardAsWrittenAdmitsEnd | Server.StartProcess |
| usb.c:136-147 | a drive on a path not seen before is written to slot `channels_active` with no bound check | a fifteenth distinct port path when `channels_active == 14` writes `channel_info[14]` and `usb_present[14]` | ignore the drive when all fourteen slots are taken | not executed | Usb.NewSlotAsWrittenOverflows | Usb.ScanStep |
