# A model of the stateful cores of a device tree

Seven parts of this device tree keep state and have to keep promises about it. Each is
modelled here, in the form its source has, and what it promises is proved for all inputs
and all runs.

- **Partition tables** (`gpt-utils/gpt-utils.cpp`). `Bytes`, `GptHeader`, `GptEntries` and
  `EntryArray` are the tables as bytes. `FailsafeUpdate` is the three-stage update of
  `prepare_partitions` as plans of writes to two headers and two arrays, any of which may be
  cut off with some of its bytes written; `FailsafeResume` is about going on after a cut.
  `GptDevice` is a device of bytes on which the source's functions do just these writes,
  `GptCommit` the in-memory image of both tables and its commit, and `GptExample` a concrete
  device that all of this applies to.
- **Slots** (`bootctrl/boot_control.cpp`). `SlotSwitch` and `SlotAttributes` are switching and
  marking on lists of entries, `BootControl` does both on devices of bytes.
- **CRC-32** (`gpt-utils/sparse_crc32.cpp`). `BitRegister` is a linear feedback register over
  any group, `Crc32Table` the table, `Crc32` the loop and what it detects, after section
  8.1.1.6.2 of ITU-T V.42, and `Crc32Residue` what a checked buffer checks to.
- **Heap** (`gps/utils/LocHeap.cpp`). `HeapTree` is the algorithm on trees, `LocHeap` the nodes
  that are changed in place.
- **AGPS** (`gps/gnss/Agps.cpp`). `AgpsModel` is the state machine with a log of what it tells
  the framework and the subscribers, `AgpsReference` the same on a plain table of subscribers,
  `Agps` the objects.
- **Elapsed real time** (`gps/core/LocApiBase.cpp`). `ElapsedRealtime`, with clock readings as
  inputs.
- **Subscriptions** (`gps/core/SystemStatusOsObserver.cpp`, `gps/utils/LocUnorderedSetMap.h`).
  `SubscriptionTables` is the two tables and the framework's set, `OsObserver` the objects.

Methods on objects are proved against the functions of the value-level modules, and the
theorems are about those. `Wrappers` has the option type they share.

## What the code does not promise

Four properties that one would expect do not hold of the code. Each is kept as the code has
it, shown to fail on a concrete input, and proved to hold exactly under a condition that can be
checked beforehand.

- Updating a subscription keeps the two tables inverse only for a client that holds nothing:
  `update` of `gps/utils/LocUnorderedSetMap.h:186-196` returns what the old and the new set have
  in common, where its comment and `gps/core/SystemStatusOsObserver.cpp:155-171` speak of what is
  gone (`SubscriptionTables.UpdateInverse`, `RunInverse`, `UpdateLosesSubscription`).
- Switching slots with both versions of a partition on one device loses what is done to version
  A, since the second commit writes an image that was loaded before the first. So a pair is
  switched exactly when version A already has the type it should get and, if it is chosen, the
  flag byte that makes it active, otherwise the active bit clear, in both tables (`SlotSwitch.SameDevice`,
  `SameDeviceLosesSwitch`, `SameDeviceStaysUnbootable`).
- Updating the checksums of an image takes the size of the primary header for both headers
  (`gpt-utils/gpt-utils.cpp:1458-1467`). So the backup header gets a wrong checksum unless that many
  of its bytes have the checksum of all of it, as they have when the sizes are equal
  (`GptCommit.UpdatedBackup`, `GptExample.UnevenIsBroken`). A commit is old or new regardless.
- A modem restart drops subscribers without a change of state, so a connection can be held that
  nobody wants. A run is free of this exactly when every restart comes while the machine is idle
  (`AgpsModel.RunAttended`, `SsrAttended`, `RestartLeavesRequest`); the next subscriber mends it.

Where code and comments differ, the code is followed: the signature is compared and copied with
its terminating zero, nine bytes (`gpt-utils/gpt-utils.cpp:443`, `509`); `remove` of the heap looks
for the object and not for its rank (`gps/utils/LocHeap.h:86-88`); a cut between the two writes of
the second update stage leads back to the first.

## What is assumed

- Partition tables: a header fits into its block and has a block of at least 92 bytes; the four
  regions are disjoint and on the device; entries have at least 128 bytes and the array is a
  whole number of them, with a size below 2^32; the stored checksum of the primary array is right
  at the start; a write that reports success is complete. For images also that both headers tell
  equal array sizes. zlib's `crc32` is any function from bytes to words.
- Resuming: a header block is written as a whole or not at all. Crash safety does not need this.
- Slots: the listed partitions of one slot are on one device, as the comment of the source has
  it, and names fit into the name field.
- Heap: `outRanks` is a strict weak order.
- AGPS: a report comes for a machine that exists. The source dereferences a null pointer otherwise
  (`gps/gnss/Agps.cpp:627-662`); the runs of the manager take such a report for nothing.
- Sets: `removeAndReturnInterset` (`gps/utils/LocUnorderedSetMap.h:64-77`) goes on from an iterator it
  has erased, and `trimOrRemove` (`140-148`) reads the key of an entry it has erased; both are taken
  to do what is meant.
- Numbers of nanoseconds do not overflow 64 bits.

## Model

| member | source | states |
|---|---|---|
| `FailsafeUpdate.RunSafe` | gpt-utils/gpt-utils.cpp:712-892 | In every run of requests, each cut off at any write and with that write torn in any way, one of the two tables passes signature, header checksum and array checksum; the primary array and the layout never change |
| `FailsafeUpdate.StepSafe` | gpt-utils/gpt-utils.cpp:781-884 | One request of any stage, accepted or refused, cut off anywhere, keeps that |
| `FailsafeUpdate.TwoSidedSafe` | gpt-utils/gpt-utils.cpp:806-860 | Rewriting one table while the other is whole, and going on to the other when the first is whole again, is safe at every cut |
| `FailsafeUpdate.OneSided` | gpt-utils/gpt-utils.cpp:286-392 | Writes to one table leave the other as it is, cut off or not |
| `FailsafeUpdate.PerformSplit` | gpt-utils/gpt-utils.cpp:145-167 | A plan of writes in two parts, cut off in the one or in the other |
| `FailsafeUpdate.MainSafe` | gpt-utils/gpt-utils.cpp:782-825 | The stage that switches to the backup partitions is safe at every cut |
| `FailsafeUpdate.BackupSafe` | gpt-utils/gpt-utils.cpp:826-862 | So is the stage that repairs the primary header and breaks the secondary one |
| `FailsafeUpdate.FinalizeSafe` | gpt-utils/gpt-utils.cpp:863-881 | So is the stage that copies the primary table over the secondary one |
| `FailsafeResume.EveryRunCanFinish` | gpt-utils/gpt-utils.cpp:744-881 | With header blocks written all or not at all: every run, cut off anywhere, is in a derivable stage, and the three stages from there end with both tables whole, the primary one byte for byte as at the start and the secondary entries equal to it; if they were equal at the start, both tables are as at the start |
| `FailsafeResume.RunResumes` | gpt-utils/gpt-utils.cpp:744-881 | The header is that of the start or that with a broken signature beside a whole secondary table, and the secondary header never has a bad checksum, at every point of every run |
| `FailsafeResume.ResumableStage` | gpt-utils/gpt-utils.cpp:744-769 | From such headers a stage is always derived, never an aborting combination, and which one tells the case |
| `FailsafeResume.Finish` | gpt-utils/gpt-utils.cpp:781-881 | MAIN, BACKUP and FINALIZE in order restore both tables from wherever a cut has left them |
| `FailsafeResume.AfterMain` | gpt-utils/gpt-utils.cpp:782-825 | MAIN makes BACKUP due; requested at another stage it changes nothing |
| `FailsafeResume.AfterBackup` | gpt-utils/gpt-utils.cpp:826-862 | BACKUP makes FINALIZE due, or finds it due |
| `FailsafeResume.AfterFinalize` | gpt-utils/gpt-utils.cpp:863-881 | FINALIZE restores both tables |
| `FailsafeResume.Codes` | gpt-utils/gpt-utils.cpp:771-779 | The stage that is due and the one before it return 0, any other -1 |
| `FailsafeResume.PrepareIs` | gpt-utils/gpt-utils.cpp:744-892 | For any two headers and any request, told by the states of the headers, the array checksum and the presence of backups alone: when the code is 0 and when -1, and when anything is written |
| `FailsafeResume.CutBetweenIsMain` | gpt-utils/gpt-utils.cpp:849-860 | A cut between the two writes of BACKUP leaves both headers good, so MAIN is due and not BACKUP |
| `FailsafeResume.MainHeaderFirst` | gpt-utils/gpt-utils.cpp:371-389 | The first stage writes the secondary header before its array: cut off just before the second write it has changed the header alone |
| `FailsafeResume.FinalizeHeaderFirst` | gpt-utils/gpt-utils.cpp:371-389 | So does the last stage |
| `FailsafeResume.RunBootsBackups` | gpt-utils/gpt-utils.cpp:782-881 | Whenever the primary header is broken the secondary table is whole, and in its entries the first 128 bytes of every listed partition and its backup at the start have changed places while every other entry is that of the start |
| `FailsafeResume.NothingEverWritten` | gpt-utils/gpt-utils.cpp:806-818 | From two good headers without backup partitions no run ever writes |
| `FailsafeResume.NothingToSwitch` | gpt-utils/gpt-utils.cpp:806-818 | There no request of any stage writes |
| `FailsafeResume.SameHeader` | gpt-utils/gpt-utils.cpp:407-458 | A good header is determined by its layout bytes and the checksum of its array |
| `FailsafeResume.RestoredIsStart` | gpt-utils/gpt-utils.cpp:863-881 | A restored device equals the device at the start if the entries of both tables were equal then |
| `GptHeader.WithStateOk` | gpt-utils/gpt-utils.cpp:475-533 | A header set good or bad has the state asked for, keeps its layout and array checksum |
| `GptHeader.WithStateBytes` | gpt-utils/gpt-utils.cpp:507-527 | Setting a header good writes the nine signature bytes, setting it bad zeroes the first byte, and nothing but the checksum changes besides |
| `GptHeader.WithArrayOk` | gpt-utils/gpt-utils.cpp:371-377 | A header made for another array has that checksum, a good header checksum and its old signature |
| `GptHeader.BreakAndRepair` | gpt-utils/gpt-utils.cpp:507-527 | Breaking the signature of a good header and repairing it gives the same bytes back |
| `GptHeader.SealedOk` | gpt-utils/gpt-utils.cpp:519-523 | Bringing the checksum up to date leaves a header that has no bad checksum |
| `GptHeader.SealedAgain` | gpt-utils/gpt-utils.cpp:519-523 | Which does nothing to a header whose checksum is right |
| `GptHeader.GetPut` | gpt-utils/gpt-utils.cpp:91-108 | A 32-bit number put into a buffer is read back |
| `ByteBuffers.FromToLE` | gpt-utils/gpt-utils.cpp:91-108 | Little-endian numbers of any width read back |
| `GptEntries.BootChainSwapInvolution` | gpt-utils/gpt-utils.cpp:229-270 | For every entry array the swap over the list of the source is its own inverse and a permutation, on UFS devices and others |
| `GptEntries.SwapAllTwice` | gpt-utils/gpt-utils.cpp:239-267 | The swap over any list of names no entry can match twice is its own inverse |
| `GptEntries.SwapAllPermutes` | gpt-utils/gpt-utils.cpp:239-267 | The swap only moves the first 128 bytes of entries; each stays among them |
| `GptEntries.SwapOneExact` | gpt-utils/gpt-utils.cpp:249-266 | The first two entries that match a name have each the first 128 bytes of the other, and no other entry changes |
| `GptEntries.SwapAllExact` | gpt-utils/gpt-utils.cpp:239-267 | After the loop the first two entries of each listed name have each the head of the other and their own tails |
| `GptEntries.SwapAllOthers` | gpt-utils/gpt-utils.cpp:239-267 | After the loop an entry that is no twin of a listed name is as it was |
| `GptEntries.BootChainSwapExact` | gpt-utils/gpt-utils.cpp:229-270 | For the list of the source, without the xbl names on UFS devices: every pair has its heads exchanged and every other entry is as it was |
| `GptEntries.SwapCommutes` | gpt-utils/gpt-utils.cpp:239-267 | Swaps of names that no entry can both match commute |
| `GptEntries.SwapListApart` | gpt-utils/gpt-utils.h:83-83 | No entry matches two names of the list |
| `GptEntries.FindsTwinsAtOnce` | gpt-utils/gpt-utils.cpp:235-269 | Backups are reported exactly when some listed partition has a twin in the array before the swap |
| `GptEntries.FindsTwinsIsHasPair` | gpt-utils/gpt-utils.cpp:235-269 | For the list of the source, exactly when some name that is not passed over is matched by two entries |
| `GptEntries.ComparisonFindsName` | gpt-utils/gpt-utils.cpp:205-208 | strncmp and strcmp accept exactly the name and the name with "bak" |
| `EntryArray.PentrySeek` | gpt-utils/gpt-utils.cpp:186-212 | The position found is that of the first entry at or after the start that matches, or the end |
| `EntryArray.ReadName` | gpt-utils/gpt-utils.cpp:200-203 | Every other byte of the name field |
| `EntryArray.BootChainSwap` | gpt-utils/gpt-utils.cpp:229-270 | The bytes after the loop are those of the swapped entries, and the return value tells whether a twin was found |
| `EntryArray.SwapListed` | gpt-utils/gpt-utils.cpp:229-270 | The same for the list of the source, on the whole array |
| `EntryArray.SwapTwins` | gpt-utils/gpt-utils.cpp:249-266 | One turn of the loop |
| `EntryArray.JoinEntries` | gpt-utils/gpt-utils.cpp:326-341 | An array is its entries put together |
| `EntryArray.EntriesJoined` | gpt-utils/gpt-utils.cpp:326-341 | The entries put together have just these entries |
| `EntryArray.SwappedExact` | gpt-utils/gpt-utils.cpp:229-270 | On the bytes of an array: its entries after the swap are those before it with every pair exchanged |
| `EntryArray.Patch` | gpt-utils/gpt-utils.cpp:262-265 | Writing within one entry changes that entry alone |
| `GptDevice.BlockDevice.PreparePartitions` | gpt-utils/gpt-utils.cpp:712-892 | On the bytes of a device the request is one step of the protocol on the four regions, with the return code of the cut or of the stage, or nothing but the code of a boot LUN that cannot be switched; no byte outside of the regions changes |
| `GptDevice.BlockDevice.SetBootChain` | gpt-utils/gpt-utils.cpp:286-392 | Writes the header and then the array of the secondary table, or nothing if the primary array is bad (-1) or has no backups (1) |
| `GptDevice.BlockDevice.GetState` | gpt-utils/gpt-utils.cpp:407-458 | The state of a header on the device |
| `GptDevice.BlockDevice.SetState` | gpt-utils/gpt-utils.cpp:475-533 | One write of the repaired or corrupted header |
| `GptDevice.BlockDevice.Write` | gpt-utils/gpt-utils.cpp:145-167 | A write at an offset, or the torn part of one that is cut off and returns -1 |
| `GptDevice.RegionWritten` | gpt-utils/gpt-utils.cpp:145-167 | A write over one region changes just that region |
| `GptDevice.OneMore` | gpt-utils/gpt-utils.cpp:806-860 | One more write after those that have not been cut off |
| `GptCommit.OldOrNew` | gpt-utils/gpt-utils.cpp:1437-1520 | At every cut of a commit, however torn and whatever the header sizes: the secondary table is still the whole old one, or the primary table is the whole new one; uncut, the device holds the image, and both its tables are whole if the header sizes are equal |
| `GptCommit.CommitCut` | gpt-utils/gpt-utils.cpp:1474-1520 | Which table is old or new, by the number of the write that is cut |
| `GptCommit.CommitExact` | gpt-utils/gpt-utils.cpp:1474-1520 | The device at every cut, byte for byte: primary header, primary array, secondary header and secondary array, in this order, are new before the cut, torn at it and old behind it |
| `GptCommit.UpdatedPrimary` | gpt-utils/gpt-utils.cpp:1437-1471 | The primary table passes all its checks after the update of the checksums |
| `GptCommit.UpdatedBackup` | gpt-utils/gpt-utils.cpp:1456-1467 | The backup table does exactly when as many bytes of its header as the primary header has carry the checksum of the whole header |
| `GptCommit.ReheadedOk` | gpt-utils/gpt-utils.cpp:1449-1467 | What sealing a header over some number of its bytes does to its state |
| `GptExample.UnevenIsBroken` | gpt-utils/gpt-utils.cpp:1456-1467 | Two concrete good headers of different sizes, of which the update breaks the backup one |
| `GptCommit.GptDisk.UpdateCrc` | gpt-utils/gpt-utils.cpp:1437-1471 | The image gets its checksums, both headers over the size of the primary one |
| `GptCommit.GptDisk.Commit` | gpt-utils/gpt-utils.cpp:1474-1520 | The device gets the image in four writes, cut off or not, and nothing outside of the regions changes |
| `GptCommit.GptDisk.GetPentry` | gpt-utils/gpt-utils.cpp:1415-1431 | The position of an entry in either table of the image |
| `GptCommit.GptDisk.constructor` | gpt-utils/gpt-utils.cpp:1339-1412 | The image is what the device holds |
| `GptCommit.WriteTable` | gpt-utils/gpt-utils.cpp:1119-1302 | A header and the array at the offset it tells, two writes of the plan |
| `GptExample.ExampleIsGood` | gpt-utils/gpt-utils.cpp:712-892 | A concrete pair of tables meets everything the update and the commit are stated for |
| `GptExample.ExampleSwitches` | gpt-utils/gpt-utils.cpp:782-825 | There the first stage is due, and after it the second |
| `GptExample.ExampleChainIs` | gpt-utils/gpt-utils.cpp:229-270 | There the array that the first stage writes is the entry of tzbak followed by that of tz |
| `GptExample.ExampleIsLaid` | gpt-utils/gpt-utils.cpp:286-341 | Its bytes on a device have the layout that the headers tell |
| `SlotSwitch.SwitchTurns` | bootctrl/boot_control.cpp:384-540 | A switch goes through just when every pair is in both tables and has an active version; then in both tables of both devices exactly the chosen version is active, without successful and unbootable marks, under the type of the version that was active, the other is inactive under the other type with its other marks, and nothing else changes |
| `SlotSwitch.ThereAndBack` | bootctrl/boot_control.cpp:384-540 | From one slot to the other and back: the second switch cannot be refused and both tables have the types where the primary ones had them |
| `SlotSwitch.TypesConserved` | bootctrl/boot_control.cpp:444-497 | A pair keeps its two types, exchanged exactly when the slot changes |
| `SlotSwitch.SameDevice` | bootctrl/boot_control.cpp:431-531 | With both versions on one device version A is left as it was in both tables, so a pair is switched exactly when version A already has the type it should get and, if chosen, the flag byte 3f, otherwise the active bit clear, in both tables |
| `SlotSwitch.AlreadyTurned` | bootctrl/boot_control.cpp:58-65 | Which entries need no slot update |
| `SlotSwitch.SameDeviceLosesSwitch` | bootctrl/boot_control.cpp:431-531 | A concrete device on which switching from A to B leaves both active under one type |
| `SlotSwitch.SameDeviceStaysUnbootable` | bootctrl/boot_control.cpp:431-531 | A concrete device on which switching to A leaves it active and unbootable |
| `SlotSwitch.BothStayActive` | bootctrl/boot_control.cpp:431-531 | Every device on which A is active shows the first |
| `SlotSwitch.StaysUnbootable` | bootctrl/boot_control.cpp:431-531 | Every device on which A is active and unbootable shows the second |
| `SlotSwitch.SwitchAllIsEach` | bootctrl/boot_control.cpp:403-425 | Names that are too short refuse the switch; partitions without both versions are passed over |
| `SlotSwitch.SwitchEachIs` | bootctrl/boot_control.cpp:403-515 | Types read from the images while they are being changed are those of the devices |
| `SlotSwitch.SlotUpdatedIs` | bootctrl/boot_control.cpp:58-65 | What a slot update does to the type, the flags, the name and the other bytes of an entry |
| `SlotSwitch.TurnedFlagIs` | bootctrl/boot_control.cpp:58-65 | The flag byte is 3f for the chosen version and loses 4, if it has the bit, for the other |
| `SlotSwitch.With` | bootctrl/boot_control.cpp:215-222 | Setting one attribute bit sets no other |
| `SlotSwitch.Without` | bootctrl/boot_control.cpp:58-65 | Clearing one attribute bit clears no other |
| `SlotSwitch.VersionsApart` | bootctrl/boot_control.cpp:421-453 | No entry is found under two of the names |
| `SlotAttributes.SlotQueries` | bootctrl/boot_control.cpp:639-675 | A slot marked unbootable is not bootable, one marked successful is so; the other question and the other slot get the answer they got before |
| `SlotAttributes.AnswersAre` | bootctrl/boot_control.cpp:639-675 | A slot is bootable (1) exactly when it is one of the two and its boot partition is found with bit 7 of the flag byte clear, not bootable (0) exactly when that bit is set, else -1; the same for successful and bit 6 |
| `SlotAttributes.ChosenSlotAnswers` | bootctrl/boot_control.cpp:384-675 | After a switch the chosen slot answers that it is bootable and not yet successful |
| `SlotAttributes.FlaggedIs` | bootctrl/boot_control.cpp:215-222 | Marking raises the flag byte by the mark, if it did not have it, and changes nothing else |
| `SlotAttributes.FlagAllSetsBits` | bootctrl/boot_control.cpp:161-242 | Both tables of every device have just the bit set, in just the entries of the listed partitions |
| `SlotAttributes.FlagAllGoesThrough` | bootctrl/boot_control.cpp:161-242 | The loop goes through exactly when both tables have every listed partition |
| `SlotAttributes.OtherSlotKept` | bootctrl/boot_control.cpp:161-242 | The other slot is left alone |
| `SlotAttributes.OtherSlotReports` | bootctrl/boot_control.cpp:89-128 | What is asked about the other slot gets the answer it got before |
| `SlotAttributes.MarkIsReported` | bootctrl/boot_control.cpp:89-128 | The attribute query reports the mark, and every other attribute as before |
| `SlotAttributes.ListCanBeSwitched` | bootctrl/boot_control.cpp:556-572 | The names made of the list of the source meet what the switch needs |
| `SlotAttributes.AbListDistinct` | gpt-utils/gpt-utils.h:84-84 | No partition is listed twice |
| `BootControl.SetActiveSlotForPartitions` | bootctrl/boot_control.cpp:384-540 | On devices of bytes: a refused switch writes nothing; one that succeeds leaves the switched images, on one device the second image alone, in checked tables; one that is cut off leaves each of two devices its old secondary table or a whole primary one with the new entries, and any device one whole table |
| `BootControl.SwitchImages` | bootctrl/boot_control.cpp:403-515 | The loop over the list leaves the switched images, loaded when the first pair comes |
| `BootControl.SwitchPair` | bootctrl/boot_control.cpp:443-497 | One turn on the images, with what is active read from the devices |
| `BootControl.UpdateSlot` | bootctrl/boot_control.cpp:58-65 | The bytes of one entry updated in place |
| `BootControl.CommitBoth` | bootctrl/boot_control.cpp:517-531 | Both images written one after the other; what a cut leaves on two devices or on one |
| `BootControl.GetPartitionAttribute` | bootctrl/boot_control.cpp:89-128 | -1 for a partition that is not found, else whether the bit is set in the primary table |
| `BootControl.QuerySlotBootable` | bootctrl/boot_control.cpp:639-655 | The answer on devices of bytes is that on the entries |
| `BootControl.QuerySlotSuccessful` | bootctrl/boot_control.cpp:661-675 | The answer on devices of bytes is that on the entries |
| `BootControl.UpdateSlotAttribute` | bootctrl/boot_control.cpp:132-248 | On devices of bytes: every listed partition marked on its device, checked tables staying checked; without cuts the return code tells whether all were found |
| `BootControl.ListingInSlot` | bootctrl/boot_control.cpp:161-190 | The partitions marked are the listed ones that have both versions, in the slot |
| `BootControl.FlagPartition` | bootctrl/boot_control.cpp:191-242 | One partition marked and the tables of its device checked |
| `Crc32.SparseCrc32` | gpt-utils/sparse_crc32.cpp:90-97 | The loop over the table computes the bit-serial CRC of the buffer, for every starting value |
| `Crc32.TableIsRun` | gpt-utils/sparse_crc32.cpp:28-97 | Every table entry is eight steps of the register with polynomial edb88320 |
| `Crc32.TableStep` | gpt-utils/sparse_crc32.cpp:95-95 | One look-up is eight steps |
| `Crc32.Chaining` | gpt-utils/sparse_crc32.cpp:90-97 | The CRC of one buffer as the starting value of the next is the CRC of both |
| `Crc32.BurstDetected` | gpt-utils/sparse_crc32.cpp:49-97 | Two bit strings that differ within 32 consecutive bits have different checksums, for every starting value |
| `Crc32.WindowDetected` | gpt-utils/sparse_crc32.cpp:49-97 | Two equally long buffers that differ only within four consecutive bytes have different checksums |
| `Crc32Residue.Residue` | gpt-utils/sparse_crc32.cpp:90-97 | A buffer followed by the four little-endian bytes of its CRC has the CRC 2144df1c, whatever the buffer and the starting value |
| `Crc32Residue.CheckValue` | gpt-utils/sparse_crc32.cpp:90-97 | The CRC of the digits 1 to 9 from 0 is cbf43926 |
| `Crc32Table.TableIsShift8` | gpt-utils/sparse_crc32.cpp:49-81 | All 256 entries against the polynomial |
| `BitRegister.FeedByTable` | gpt-utils/sparse_crc32.cpp:28-43 | For any linear feedback register, feeding low bits is one table step |
| `BitRegister.BurstTellsApart` | gpt-utils/sparse_crc32.cpp:28-43 | For any register that separates short inputs, a burst leaves different registers |
| `BitRegister.StepInjective` | gpt-utils/sparse_crc32.cpp:28-43 | The same bit entering keeps different registers different |
| `BitRegister.StepFlipped` | gpt-utils/sparse_crc32.cpp:28-43 | Different bits entering one register make it differ by the feedback |
| `BitRegister.CheckAppend` | gpt-utils/sparse_crc32.cpp:28-43 | Checks chain for any register whose final inversion undoes itself |
| `HeapTree.RunRefinesBag` | gps/utils/LocHeap.cpp:230-269 | Every sequence of push, pop, peek and remove is a run of a multiset in which pop takes an element nothing left outranks |
| `HeapTree.ApplyRefinesBag` | gps/utils/LocHeap.cpp:230-269 | So is each operation, and it keeps order and sizes |
| `HeapTree.CheckNodesIsHeap` | gps/utils/LocHeap.cpp:199-222 | The check accepts exactly the trees in which nothing outranks what is above it and every size is right |
| `HeapTree.PushKeepsOrder` | gps/utils/LocHeap.cpp:109-126 | Push keeps order and sizes |
| `HeapTree.PushElems` | gps/utils/LocHeap.cpp:109-126 | Push adds one element |
| `HeapTree.PopKeepsOrder` | gps/utils/LocHeap.cpp:136-166 | Pop keeps order and sizes |
| `HeapTree.PopElems` | gps/utils/LocHeap.cpp:136-166 | Pop takes out exactly the top element |
| `HeapTree.RemoveFinds` | gps/utils/LocHeap.cpp:172-195 | Despite the pruning by rank, remove succeeds exactly when the very object is in the heap, ties included |
| `HeapTree.RemoveElems` | gps/utils/LocHeap.cpp:172-195 | Remove takes out one occurrence of that object or nothing |
| `HeapTree.RemoveKeepsOrder` | gps/utils/LocHeap.cpp:172-195 | Remove keeps order and sizes |
| `HeapTree.DrainSorts` | gps/utils/LocHeap.cpp:247-256 | Popping until empty gives the elements in order of rank |
| `HeapTree.DrainElems` | gps/utils/LocHeap.cpp:247-256 | And gives each of them |
| `HeapTree.PushBalanced` | gps/utils/LocHeap.cpp:109-126 | Pushes keep the left side as large as the right one or one larger, at every node |
| `HeapTree.PushAllHeight` | gps/utils/LocHeap.cpp:109-126 | A heap of n pushes is as high as n has binary digits |
| `LocHeaps.LocHeapNode.Push` | gps/utils/LocHeap.cpp:109-126 | On nodes: the tree becomes that of the push, in place |
| `LocHeaps.LocHeapNode.Pop` | gps/utils/LocHeap.cpp:136-166 | On nodes: the popped node carries the top element, and the tree that is left is that of the pop |
| `LocHeaps.LocHeapNode.Remove` | gps/utils/LocHeap.cpp:172-195 | On nodes: the node removed carries the object, and the tree that is left is that of the removal |
| `LocHeaps.LocHeap.Push` | gps/utils/LocHeap.cpp:230-237 | The heap after a push |
| `LocHeaps.LocHeap.Peek` | gps/utils/LocHeap.cpp:239-245 | The top element or nothing |
| `LocHeaps.LocHeap.Pop` | gps/utils/LocHeap.cpp:247-256 | The top element taken out, or nothing |
| `LocHeaps.LocHeap.Remove` | gps/utils/LocHeap.cpp:258-269 | The object taken out, or nothing |
| `AgpsModel.EveryRun` | gps/gnss/Agps.cpp:73-283 | From creation on, through any events: handles are unique, RELEASED has no subscribers, the framework has an open request exactly in PENDING and ACQUIRED, requests alternate with releases and losses, and insertions balance with what is listed; without modem restarts PENDING and ACQUIRED have an active subscriber and RELEASING has a subscriber |
| `AgpsModel.RunKeeps` | gps/gnss/Agps.cpp:73-283 | The part of it that survives modem restarts, from any good state |
| `AgpsModel.StepKeeps` | gps/gnss/Agps.cpp:73-283 | Each event keeps it |
| `AgpsModel.RunStaysAttended` | gps/gnss/Agps.cpp:73-283 | The part of it that needs the modem not to restart |
| `AgpsModel.RunAttended` | gps/gnss/Agps.cpp:664-675 | A run is attended throughout exactly when every restart in it comes while the machine is idle |
| `AgpsModel.SsrAttended` | gps/gnss/Agps.cpp:495-506 | A restart leaves the machine attended exactly when it is idle |
| `AgpsModel.RestartLeavesRequest` | gps/gnss/Agps.cpp:664-675 | The shortest run that is not: subscribe and restart |
| `AgpsModel.SubscribeMends` | gps/gnss/Agps.cpp:73-107 | The next subscriber mends what a restart broke |
| `AgpsModel.Alternation` | gps/gnss/Agps.cpp:289-308 | Between two requests there is a release or a loss, between two releases or losses a request |
| `AgpsModel.DismissKeeps` | gps/gnss/Agps.cpp:310-380 | Each notified and deleted subscriber is accounted for once |
| `AgpsReference.RunFollows` | gps/gnss/Agps.cpp:73-283 | Every run leads to the state and the table of subscribers, by handle, that a reference without lists and logs leads to, and says every entry as often as the reference does |
| `AgpsReference.StepFollows` | gps/gnss/Agps.cpp:73-283 | So does each event |
| `AgpsReference.SubscribeFollows` | gps/gnss/Agps.cpp:73-107 | A subscriber gets a new connection requested in RELEASED, is told of the open one in ACQUIRED, and is listed once |
| `AgpsReference.ReleaseFollows` | gps/gnss/Agps.cpp:109-171 | A subscriber that leaves is told so at once or marked; the connection is released when no active one is left |
| `AgpsReference.GrantFollows` | gps/gnss/Agps.cpp:173-194 | A grant in PENDING leads to ACQUIRED and tells each active subscriber once and no other; in any other state it changes nothing |
| `AgpsReference.LossFollows` | gps/gnss/Agps.cpp:196-283 | A connection that is denied or closed by the framework ends every subscription, each told once |
| `AgpsReference.CloseFollows` | gps/gnss/Agps.cpp:196-283 | The awaited close ends the inactive subscriptions and requests anew if any other is left |
| `AgpsReference.SsrFollows` | gps/gnss/Agps.cpp:495-506 | A restart drops each subscriber once and leaves the state |
| `AgpsReference.RunServed` | gps/gnss/Agps.cpp:73-283 | At every point of every run: in ACQUIRED each listed active subscriber has been told of the open connection since it was last requested, in PENDING nobody has |
| `AgpsReference.EveryGrantServed` | gps/gnss/Agps.cpp:173-194 | From creation on, a grant in PENDING leads to ACQUIRED with the same list and every active subscriber newly told |
| `AgpsReference.ManagerRunIs` | gps/gnss/Agps.cpp:514-675 | A run of the manager is a run of each of its machines over the requests, reports and restarts meant for it; a handle is released in the second only if the first does not list it |
| `AgpsModel.ManagerRunKeeps` | gps/gnss/Agps.cpp:514-675 | Both machines of the manager keep all of it through requests, releases, reports and modem restarts |
| `Agps.AgpsStateMachine.ProcessSubscribe` | gps/gnss/Agps.cpp:73-107 | Takes the transition for a new subscriber |
| `Agps.AgpsStateMachine.ProcessUnsubscribe` | gps/gnss/Agps.cpp:109-171 | Takes the transition for a subscriber that leaves |
| `Agps.AgpsStateMachine.ProcessGranted` | gps/gnss/Agps.cpp:173-194 | Takes the transition for a granted connection |
| `Agps.AgpsStateMachine.ProcessReleased` | gps/gnss/Agps.cpp:196-241 | Takes the transition for a closed connection |
| `Agps.AgpsStateMachine.ProcessDenied` | gps/gnss/Agps.cpp:243-283 | Takes the transition for a denied connection |
| `Agps.AgpsStateMachine.NotifyAllSubscribers` | gps/gnss/Agps.cpp:310-343 | Notifies the subscribers of a kind in order and deletes them if asked to |
| `Agps.AgpsStateMachine.AddSubscriber` | gps/gnss/Agps.cpp:392-411 | A handle is listed once |
| `Agps.AgpsStateMachine.DeleteSubscriber` | gps/gnss/Agps.cpp:413-430 | The handle is listed no more |
| `Agps.AgpsStateMachine.AnyActiveSubscribers` | gps/gnss/Agps.cpp:432-442 | Whether any listed subscriber is active |
| `Agps.AgpsStateMachine.DropAllSubscribers` | gps/gnss/Agps.cpp:495-506 | The list is emptied and the state is kept |
| `Agps.AgpsManager.GetAgpsStateMachine` | gps/gnss/Agps.cpp:537-561 | Assisted positioning for the types invalid, SUPL and emergency SUPL, the other machine for every other type |
| `Agps.AgpsManager.RequestATL` | gps/gnss/Agps.cpp:563-597 | The machine of the type gets the subscriber |
| `Agps.AgpsManager.ReleaseATL` | gps/gnss/Agps.cpp:599-625 | The machine that lists the handle loses it |
| `Agps.AgpsManager.ReportAtlOpenSuccess` | gps/gnss/Agps.cpp:627-644 | The machine of the type takes the transition for a granted connection |
| `Agps.AgpsManager.ReportAtlOpenFailed` | gps/gnss/Agps.cpp:646-653 | The machine of the type takes the transition for a denied connection |
| `Agps.AgpsManager.ReportAtlClosed` | gps/gnss/Agps.cpp:655-662 | The machine of the type takes the transition for a closed connection |
| `Agps.AgpsManager.HandleModemSSR` | gps/gnss/Agps.cpp:664-675 | Both machines drop their subscribers |
| `ElapsedRealtime.ClosedForm` | gps/core/LocApiBase.cpp:951-990 | After calibration at a fix and until a reset or a jump, a trustable fix returns the boot time of the calibration less the initial travel time plus the difference of the data times |
| `ElapsedRealtime.JumpRestarts` | gps/core/LocApiBase.cpp:951-982 | A fix out of its time and up to five fixes after it are answered with the boot time less the initial travel time, whatever was calibrated before |
| `ElapsedRealtime.EveryRun` | gps/core/LocApiBase.cpp:932-998 | Every answer of every run is that of a reference that remembers only the calibration |
| `ElapsedRealtime.RunTellsHistory` | gps/core/LocApiBase.cpp:951-990 | The same from any represented state |
| `ElapsedRealtime.WallClockDoesNotMatter` | gps/core/LocApiBase.cpp:962-975 | Runs that differ only in the wall clock get the same answers |
| `ElapsedRealtime.SteadyKeepsFixes` | gps/core/LocApiBase.cpp:951-990 | Untrusted and failed calls between do not disturb a calibration |
| `ElapsedRealtime.ElapsedRealtimeEstimator.GetElapsedRealtimeEstimateNanos` | gps/core/LocApiBase.cpp:932-982 | Takes the step of the model and returns its answer |
| `ElapsedRealtime.ElapsedRealtimeEstimator.ResetAll` | gps/core/LocApiBase.cpp:984-990 | All fields as at the start |
| `SubscriptionTables.RunInverse` | gps/core/SystemStatusOsObserver.cpp:105-284 | The two tables stay inverse throughout a run exactly when every update in it comes from a client that holds nothing at that moment; no entry is ever empty |
| `SubscriptionTables.UpdateInverse` | gps/core/SystemStatusOsObserver.cpp:151-200 | An update keeps the tables inverse exactly when the client held nothing |
| `SubscriptionTables.UpdateTables` | gps/core/SystemStatusOsObserver.cpp:151-200 | After an update the items list the client exactly where its old and new sets differ |
| `SubscriptionTables.UpdateLosesSubscription` | gps/core/SystemStatusOsObserver.cpp:151-200 | A concrete run in which an update to the same item loses the subscription |
| `SubscriptionTables.RunWishes` | gps/core/SystemStatusOsObserver.cpp:105-284 | After every run a client holds what its own requests make of what it held: union, replacement by a non-empty set, difference, nothing |
| `SubscriptionTables.StepWishes` | gps/core/SystemStatusOsObserver.cpp:105-284 | So it does after each request |
| `SubscriptionTables.StepInverse` | gps/core/SystemStatusOsObserver.cpp:105-284 | Each request keeps the tables inverse exactly if it is not such an update |
| `SubscriptionTables.RunFollowed` | gps/core/SystemStatusOsObserver.cpp:69-284 | The framework is never subscribed to an item without clients, and without requests for data to exactly those with clients |
| `SubscriptionTables.StepFramework` | gps/core/SystemStatusOsObserver.cpp:69-284 | While the tables are inverse, for a request that keeps them so: which items the framework is subscribed to after it, item by item, told by the clients that want the item before and after |
| `SubscriptionTables.RunHasObject` | gps/core/SystemStatusOsObserver.cpp:62-89 | There is a subscription object from the first time it is set on |
| `SubscriptionTables.KeysAreWanted` | gps/core/SystemStatusOsObserver.cpp:105-284 | While the tables are inverse, those are the items some client wants |
| `SubscriptionTables.EveryRun` | gps/core/SystemStatusOsObserver.cpp:69-284 | All of it from the empty observer on |
| `SubscriptionTables.ReachedIsWanted` | gps/core/SystemStatusOsObserver.cpp:311-344 | Looking clients up item by item reaches exactly those whose items were updated, with just those items |
| `OsObserver.LocUnorderedSetMap.TrimOrRemove` | gps/utils/LocUnorderedSetMap.h:140-148 | The keys lose the values, empty ones go; what is gone is reported |
| `OsObserver.LocUnorderedSetMap.Add` | gps/utils/LocUnorderedSetMap.h:174-182 | The keys get the values; new keys are reported |
| `OsObserver.LocUnorderedSetMap.Update` | gps/utils/LocUnorderedSetMap.h:186-196 | The key gets the new set, and the common values are returned and taken out of the argument |
| `OsObserver.SystemStatusOsObserver.SetSubscriptionObj` | gps/core/SystemStatusOsObserver.cpp:69-81 | The framework is asked to subscribe all items that have clients, and for their data at once if there are any |
| `OsObserver.SystemStatusOsObserver.HandleSubscribe` | gps/core/SystemStatusOsObserver.cpp:105-126 | Takes the step of the tables, sends the client what is cached, and asks for the data at once if that is wanted |
| `OsObserver.SystemStatusOsObserver.HandleUpdateSubscription` | gps/core/SystemStatusOsObserver.cpp:151-200 | Takes the step of the tables and sends the client what is cached of the items new to it |
| `OsObserver.SystemStatusOsObserver.HandleUnsubscribe` | gps/core/SystemStatusOsObserver.cpp:223-242 | Takes the step of the tables |
| `OsObserver.SystemStatusOsObserver.HandleUnsubscribeAll` | gps/core/SystemStatusOsObserver.cpp:262-284 | Takes the step of the tables |
| `OsObserver.SystemStatusOsObserver.HandleNotify` | gps/core/SystemStatusOsObserver.cpp:311-344 | Each client gets exactly the updated cached items it wants, and no other client is called |
| `OsObserver.NotifyDelivers` | gps/core/SystemStatusOsObserver.cpp:311-344 | While the tables are inverse, a client that wants an item of which something was told gets the last value heeded for it |
| `OsObserver.NotifiesOnly` | gps/core/SystemStatusOsObserver.cpp:311-344 | What a client gets is an item it wants, of which something was told |
| `OsObserver.SystemStatusOsObserver.SendCachedDataItems` | gps/core/SystemStatusOsObserver.cpp:530-556 | A client gets the cached ones of the items asked for |
| `OsObserver.SystemStatusOsObserver.UpdateCache` | gps/core/SystemStatusOsObserver.cpp:558-589 | Whether a data item is new or changed, and the cache after it |
| `OsObserver.CachedIsLast` | gps/core/SystemStatusOsObserver.cpp:558-589 | After a notification an item has the value of the last data item for it that was heeded |
| `OsObserver.CachedIsKept` | gps/core/SystemStatusOsObserver.cpp:558-589 | An item for which none was heeded is as before |
| `OsObserver.CachedAreKnown` | gps/core/SystemStatusOsObserver.cpp:558-589 | The items in the cache are those that were there and those for which an entry could be made |
| `OsObserver.UpdatedAreTold` | gps/core/SystemStatusOsObserver.cpp:311-320 | The items to be sent are those that one of the data items made known or changed |

## Left out

- Block-device system calls, device paths, partition maps, the UFS boot LUN switch and system properties: block size, contents, cuts, places of partitions and whether a device is UFS are inputs.
- `prepare_boot_update` and `set_active_boot_slot` as loops over devices: they call the modelled functions once per device.
- GptDevice.BlockDevice.Write: a short write that the source takes for a success is not modelled; a write is complete or is reported as failed.
- BootControl.UpdateSlotAttribute: the branch for the active bit is left out, because no caller asks for it, and the slot is one of the two suffixes.
- GptCommit.GptDisk.constructor: a backup header that tells another array size is left out; the source then takes the checksum of the backup array over the size of the primary one, beyond the buffer if that is larger.
- GptDevice.BlockDevice.PreparePartitions: what the switch of the UFS boot LUN returns is an input, 0 where there is none to switch.
- Agps.AgpsManager.ReportAtlOpenSuccess: needs the machine of its type, without which the source dereferences null.
- Agps.AgpsManager.ReportAtlOpenFailed: needs the machine of its type, without which the source dereferences null.
- Agps.AgpsManager.ReportAtlClosed: needs the machine of its type, without which the source dereferences null.
- AgpsModel.ManagerRunKeeps: takes a report for a missing machine for nothing, where the source dereferences null.
- FailsafeResume.EveryRunCanFinish: needs a pair of backup partitions, without which the update does nothing (FailsafeResume.NothingEverWritten).
- Agps.AgpsManager.RequestATL: APN names, bearer types and connection type masks are left out, as plain data that is passed on.
- Agps.AgpsStateMachine.NotifyAllSubscribers: subscribers are values with a handle; erasing from a list while iterating and the lifetimes of subscriber objects are not modelled.
- LocHeaps.LocHeapNode.Pop: memory is not freed.
- OsObserver.SystemStatusOsObserver.HandleNotify: the message queue, logging and the copies of data items are left out; turning items on and off and backhaul requests only pass calls on.
- ElapsedRealtime.ElapsedRealtimeEstimator.GetElapsedRealtimeEstimateNanos: the estimate from the Qtimer counter is left out.
- Batching, geofencing, system status reports, the forwarding interfaces of the location stack, audio, display and Bluetooth: their state depends on engines outside of the repository or is only copied.
