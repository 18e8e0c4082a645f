# Device drivers for virtual boards: a verified model

A model, in Dafny, of the small device-driver algorithms of this repository that
share state with a concurrent device, and proofs of what they keep.

## What is modelled

* **Virtio split virtqueues** (VIRTIO 1.1, sections 2.6 and 3.1.1).
  `virtq.dfy` has one virtqueue as a class: the descriptor array, the available
  and used rings, 16-bit indices that wrap, the driver's operations and the
  device's.  The device fetches heads and completes any head it holds, and does
  so between any two steps of the drivers below.
* **Machines** (`traces.dfy`): runs of a machine on values, and what every event
  keeps holding after every run; used for the two machines below.
* **Transmit.**  `tx_model.dfy` is a machine on values in which whole chains of
  descriptor ids move between free list, sender, device and used ring;
  `desc_table.dfy` ties the descriptor array, with its intrusive free list and
  NEXT flags, to that machine; `virtnet_tx.dfy` has the RISC-V driver's
  variable-length chains and the ARM driver's fixed pairs as one class whose
  every step refines a step of the machine.
* **Receive.**  `rx_model.dfy` is the machine of circulating buffers.
  `virtnet_rx.dfy` lends them to the IP stack, which returns them at any time
  and in any order.  `batched_rx.dfy` makes a batch available at the end of the
  loop; `arm_virtnet_rx.dfy` and `virtinput.dfy` are built on it, the latter
  with the mouse event filter.
* **PL011 receive ring** (`pl011.dfy`): reader and interrupt-side writer without
  a lock, with whole interrupts between any two steps of the reader, even
  between two bytes it copies.  `pl011_baud.dfy` has the divisor.
* **CFI flash** (`cfiflash.dfy`): the driver against a state machine of the chip
  in which a command out of sequence is an error and programming only clears
  bits; two such chips, one for each drive, lie one behind the other.
* **Layout** (`layout.dfy`, `queue_words.dfy`): the size estimate against the
  placement, and the words that tell the device of it.
* **Initialisation** (`init_rules.dfy`, `config_window.dfy`, `init_outcome.dfy`,
  `handshake.dfy`): every register access is logged and checked by a monitor of
  the rules; the device answers with an arbitrary script, and a run is cut off
  where the script ends and only there, so what is proved holds at every moment
  of runs of any length.  `init_outcome.dfy` says how a run ends as a function
  of the answers alone.
* **Key cache** (`fnv.dfy`, `registry.dfy`, `buckets.dfy`, `key_cache.dfy`): 512
  hash buckets refine a finite map from names to objects, which are addresses
  that may be reused after they are freed.
* **CSD register** (`csd.dfy`): fields packed into four words, read back by an
  independent decoder.

Objects the source updates in place are classes; ghost fields hold histories and
the abstract state.  Where two parties run concurrently, each method calls a
method that performs any number of the other party's steps between its own.

## What was found

* `CfiFlashErase` accepts an offset equal to the capacity, one byte beyond the
  last block (`CfiFlash.EraseGuardIff`).  For drive 0 its commands then reach the
  chip of drive 1, which lies right behind: that one loses its first block and is
  left showing its status, so that a read of drive 1 gives the status for every
  word (`CfiFlash.EraseNextDoor`).
* The fraction of the baud divisor can round up to 64, which the six-bit FBRD
  keeps as 0; 750001 baud is an example (`Pl011Baud.HardwareAgreesIff`).
* `register_driver` answers OK when there was no memory for the cache entry, and
  the name is then not registered; registration happens exactly when there was
  (`FbMem.Registered.RegisterDriver`).
* Below 1 MiB of capacity the CSD size wraps to all ones and its excess bits
  overwrite the block length, so that the register reads 64 GiB
  (`CardSpecificData.SmallCapacitySpoils`); up to 2 GiB it decodes right exactly
  from 1 MiB on (`CsdDecodes`).  Above 2 GiB a block of 64 KiB does not fit its
  field; `AllFitIff` gives the exact condition for all fields.
* The MTU is read again after its range checks, so the MTU kept need not be in
  range.  `ConfigWindow.MtuInRangeIff` says for which devices it always is, and
  `InitHandshake.LateChangeRun` is a whole initialisation that keeps 9000 where
  1500 is the most.
* The comment in `VirtinGrabbed` speaks of dropping the EV_SYN after a lone
  left-up; the code drops whatever comes next unless it is a left-button event,
  and the model follows the code.
* The handlers without a recheck (`VirtnetTxHandle`, `VirtinHandleEv`) can leave
  completions that raised no interrupt: exactly those made between their last
  look at the ring and the store that enables interrupts, as their contracts say.
  Wherever nothing waits and the device has something to finish there is such a
  run (the two methods `LeavesOneBehind`).  When nothing else is in flight, a
  sender that waits for such a chain waits for an interrupt of the receive queue.
* The length check in `LowLevelOutput` is on a 16-bit count, which lets through
  packets of 65535 segments and more whose count wraps to one that fits
  (`VirtnetTxDriver.LengthCheckExact`); at 65535 the chain asked for is empty
  (`LengthCheckFails`).

## Assumptions

* Steps are sequentially consistent; memory barriers are not modelled.
* One task sends; handlers run to completion over it, as on one core.
* Queue sizes divide 65536, as the standard demands of split virtqueues.
* Runs are finite: a device makes a bounded number of completions in one run of
  the RISC-V receive handler, whose loop otherwise need not end, and in all but a
  finite number of the yields of a waiting sender the device or the handler does
  something.  The handler may run at any time: an interrupt of the receive queue
  runs it too.
* Values from headers that are not part of this model: `ALIGN` rounds up to a
  multiple, `VMM_TO_DMA_ADDR` keeps the address, `NAME_MAX` is 255 (below 255 a
  longer name would be refused its cache entry), `CID_LEN` is 4, EV_KEY is 1,
  BTN_LEFT is 0x110, a frame is at most 1514 bytes, and three header fields of the
  CSD are parameters.  The error code for an invalid parameter is some negative
  number.
* Flash offsets and lengths do not sum past 32 bits.  The two flash chips lie one
  capacity apart, as riscv32_virt/liteos_m/hdf_config/cfiflash/cfi_config.hcs:5-6
  places them.

## Model

| member | source | states |
|---|---|---|
| RingIndex.SlotOfIndex | riscv32_virt/liteos_m/board/driver/virtnet.c:381-383 | the slot computed from the wrapped 16-bit index is the slot of the unbounded count behind it, for every count and every distance added before reducing |
| RingIndex.WrapContinuousIff | riscv32_virt/liteos_m/board/driver/virtnet.c:381-383 | reducing a wrapping index finds the right slot for every count exactly when the queue size divides 65536 |
| RingIndex.SlotsDistinct | riscv32_virt/liteos_m/board/driver/virtnet.c:459 | fewer than a ring of consecutive counts never share a slot, so an unconsumed entry is not overwritten |
| VirtqRing.Virtq.Stage | drivers/virtio/virtnet.c:314 | an id written beyond the index extends the batch and disturbs no available entry; needs room in the ring |
| VirtqRing.Virtq.Commit | drivers/virtio/virtnet.c:318 | adding to the index makes exactly the batched ids available, in order |
| VirtqRing.Virtq.HasUsed | riscv32_virt/liteos_m/board/driver/virtnet.c:428-434 | the comparison of two wrapped indices is true exactly when an unprocessed completion exists |
| VirtqRing.Virtq.Take | riscv32_virt/liteos_m/board/driver/virtnet.c:439 | the element read is the oldest unprocessed completion |
| VirtqRing.Virtq.Offer | riscv32_virt/liteos_m/board/driver/virtnet.c:257-268 | after filling descriptors and ring, every buffer is available once, in order, and each descriptor is writable and points at its own buffer |
| VirtqRing.Virtq.Complete | riscv32_virt/liteos_m/board/driver/virtnet.c:456-462 | a device completion of any held head appends one used element and records whether interrupts were enabled |
| VirtqRing.Virtq.SetFlag | riscv32_virt/liteos_m/board/driver/virtnet.c:424-433 | a store to the flag splits the completions: those made from then on raise an interrupt exactly if the flag stored was 0 |
| TxModel.RunInv | riscv32_virt/liteos_m/board/driver/virtnet.c:183-464 | after every sequence of allocations, publications, fetches, completions in any order and reclaims: one place per id, sizes add up to the queue size, packets balance, releases follow completions |
| TxModel.StepKeepsPlaces | riscv32_virt/liteos_m/board/driver/virtnet.c:203-343 | each event moves each descriptor id from one place to exactly one other |
| TxModel.Conservation | riscv32_virt/liteos_m/board/driver/virtnet.c:318-343 | each of the ids below the queue size is in exactly one place; free and in-flight counts add up to the queue size; at most half as many heads as entries are outstanding |
| TxModel.ReleasedExactlyOnce | riscv32_virt/liteos_m/board/driver/virtnet.c:366-383 | every packet published is released once or still in flight, and the releases are, in order, the first packets the device returned |
| TxModel.ChainInFlight | riscv32_virt/liteos_m/board/driver/virtnet.c:323-329 | if not every entry is free and none is pending, a chain is in flight |
| TxModel.WaitingEnds | riscv32_virt/liteos_m/board/driver/virtnet.c:323-329 | while a request waits, device and handler use up a fixed amount of work in any order; as long as some is left a step is possible; once it is used up every request that can fit the queue fits |
| TxModel.PairRun | drivers/virtio/virtnet.c:208-235 | if every request is for two entries, every chain is a pair and the parity of the free count never changes |
| TxModel.ChainsApart | riscv32_virt/liteos_m/board/driver/virtnet.c:203-224 | two chains in flight share no descriptor |
| DescTable.DeviceReads | riscv32_virt/liteos_m/board/driver/virtnet.c:363-383 | in every state in which a packet is in flight the device, walking from its head through NEXT flags, reads the header, then the packet segments in order, and nothing more |
| DescTable.TableAlloc | riscv32_virt/liteos_m/board/driver/virtnet.c:331-340 | walking off a prefix leaves the new header the start of the remaining free list and disturbs no chain |
| DescTable.TablePend | riscv32_virt/liteos_m/board/driver/virtnet.c:363-374 | writing to the descriptors of a packet not yet published disturbs neither the free list nor any chain in flight |
| DescTable.TableRecord | riscv32_virt/liteos_m/board/driver/virtnet.c:376-378 | storing the record at the second descriptor disturbs the record of no chain in flight |
| DescTable.TablePublish | riscv32_virt/liteos_m/board/driver/virtnet.c:381-383 | publishing a filled chain keeps the whole table well formed |
| DescTable.TableReclaim | riscv32_virt/liteos_m/board/driver/virtnet.c:203-224 | splicing a returned chain in front keeps list shape, NEXT flags, counts and all other chains, whatever order chains come back in |
| DescTable.ReclaimReads | riscv32_virt/liteos_m/board/driver/virtnet.c:209-212 | the record found through the NEXT of the head is the one stored for the packet being reclaimed |
| DescTable.EndedByClear | riscv32_virt/liteos_m/board/driver/virtnet.c:340 | clearing NEXT on the tail after the lock is dropped ends the chain and nothing else |
| VirtnetTxDriver.VirtNetif.constructor | riscv32_virt/liteos_m/board/driver/virtnet.c:193-198 | the freshly threaded list satisfies the whole invariant, with nothing in flight, a 12-byte header and a record array of its own |
| VirtnetTxDriver.VirtNetif.SpliceBack | riscv32_virt/liteos_m/board/driver/virtnet.c:203-224 | refines the reclaim step and returns the packet of that chain; the sending task's own descriptors are untouched |
| VirtnetTxDriver.VirtNetif.SplicePair | drivers/virtio/virtnet.c:153-172 | the two-descriptor variant refines the same reclaim step, using the NEXT of the head as the tail |
| VirtnetTxDriver.VirtNetif.VirtnetTxHandle | riscv32_virt/liteos_m/board/driver/virtnet.c:450-464 | with device steps between any two of its own the handler keeps the invariant, stores 1 and then 0 to the flag, reclaims at least the chains that had been returned on entry, and leaves without an interrupt exactly the completions made before the store of 0 |
| VirtnetTxDriver.VirtNetif.LeavesOneBehind | riscv32_virt/liteos_m/board/driver/virtnet.c:450-464 | from every state in which nothing waits to be reclaimed and the device has a chain to finish, a run of the handler's steps leaves a completion behind that raised no interrupt |
| VirtnetTxDriver.VirtNetif.GetTxFreeEntry | riscv32_virt/liteos_m/board/driver/virtnet.c:318-343 | always yields a chain of exactly the entries asked for whose tail has NEXT clear, with interrupts before, between and after; yields the processor only while fewer entries are free, and no more often than there is work in flight, idle yields apart |
| VirtnetTxDriver.VirtNetif.LowLevelOutput | riscv32_virt/liteos_m/board/driver/virtnet.c:345-391 | refuses exactly the packets longer than the queue, changing nothing; otherwise always publishes this packet and takes one reference, having waited only while too few entries were free and no longer than the work in flight takes; with interrupts between any two steps; all histories only grow |
| VirtnetTxDriver.LengthCheckExact | riscv32_virt/liteos_m/board/driver/virtnet.c:352-358 | the check on the 16-bit count refuses exactly the packets too long for the queue if and only if the count does not wrap to one that fits |
| VirtnetTxDriver.LengthCheckFails | riscv32_virt/liteos_m/board/driver/virtnet.c:331-341 | wherever the check wrongly passes, the chain asked for is shorter than the packet needs; at 65535 segments it has no entries, so the walk to its tail takes no step |
| VirtnetTxDriver.VirtNetif.LowLevelOutputPair | drivers/virtio/virtnet.c:237-260 | the same for the fixed pair of the ARM driver, which refuses nothing |
| VirtnetTxDriver.VirtNetif.DeviceSees | riscv32_virt/liteos_m/board/driver/virtnet.c:363-383 | at any moment between two driver steps, the descriptor array read from a head in flight gives the header and that packet, nothing else; the flags of the chain are 1 and, on the last descriptor, 0 |
| VirtnetTxDriver.VirtNetif.Releases | riscv32_virt/liteos_m/board/driver/virtnet.c:203-224 | the calls that release packets are, one for one and in order, the packets the device returned |
| VirtnetTxDriver.VirtNetif.PairRefines | drivers/virtio/virtnet.c:139-172 | every run of the ARM driver is a run of the chain allocator with count two, and its free count stays even with an even queue |
| VirtnetTxDriver.VirtNetif.SomethingInFlight | riscv32_virt/liteos_m/board/driver/virtnet.c:323-329 | a request that could fit the queue but not the free list always has a chain in flight |
| VirtnetTxDriver.VirtNetif.RoomToPublish | riscv32_virt/liteos_m/board/driver/virtnet.c:381 | the available ring always has room for one more head |
| VirtnetTxDriver.VirtNetif.LastMeansReturned | riscv32_virt/liteos_m/board/driver/virtnet.c:457 | with wrapped indices the loop test is true exactly when a returned chain has not been reclaimed |
| RxModel.RunInv | riscv32_virt/liteos_m/board/driver/virtnet.c:419-448 | after every run each receive buffer is in exactly one place: none is lost, none published twice |
| RxModel.StepKeepsPlaces | riscv32_virt/liteos_m/board/driver/virtnet.c:226-241 | each event moves a buffer from one place to exactly one other |
| RxModel.InvApart | riscv32_virt/liteos_m/board/driver/virtnet.c:419-448 | a buffer the device holds is none of those completed or in hand |
| VirtnetRxDriver.VirtNetifRx.constructor | riscv32_virt/liteos_m/board/driver/virtnet.c:243-271 | all buffers start available, descriptor `i` giving the device 1526 writable bytes at 1528 times `i` from the first buffer |
| VirtnetRxDriver.VirtNetifRx.ReleaseRxEntry | riscv32_virt/liteos_m/board/driver/virtnet.c:226-241 | giving back any lent buffer publishes exactly that id, with device steps between the two stores |
| VirtnetRxDriver.VirtNetifRx.Input | riscv32_virt/liteos_m/board/driver/virtnet.c:440-444 | each completion is handed to the stack once, as the frame behind the 12-byte header of the buffer its descriptor points to; an accepted buffer is lent and a refused one goes straight back, by the answer recorded |
| VirtnetRxDriver.VirtNetifRx.VirtnetRxHandle | riscv32_virt/liteos_m/board/driver/virtnet.c:419-448 | every completion present on entry is handed to the stack, in order and once, and given back if and only if it was refused; the stores to the flag are 1, 0, 1, 0 and so on up to a 0; every completion left behind was made after the last of them, and raised an interrupt |
| VirtnetRxDriver.VirtNetifRx.InOnePlace | riscv32_virt/liteos_m/board/driver/virtnet.c:226-268 | each buffer is in exactly one of: available, held by the device, completed, in hand, lent |
| VirtnetRxDriver.VirtNetifRx.InputInOrder | riscv32_virt/liteos_m/board/driver/virtnet.c:427-446 | what the stack was given is exactly the packets of the completions up to the handler's position, in order |
| VirtnetRxDriver.VirtNetifRx.LentByAnswers | riscv32_virt/liteos_m/board/driver/virtnet.c:440-444 | the stack has, or has freed, exactly the buffers of the packets it accepted |
| VirtnetRxDriver.VirtNetifRx.LowLevelInput | riscv32_virt/liteos_m/board/driver/virtnet.c:392-417 | the packet handed over starts behind the header of the buffer that the completion's descriptor points to, and has the received length less the header |
| BatchedRx.BatchedQueue.constructor | drivers/virtio/virtnet.c:174-189 | all buffers of an array start available, descriptor `i` giving the device the whole of element `i` to write |
| BatchedRx.BatchedQueue.DeviceComplete | drivers/virtio/virtinput.c:142-168 | the device, writing where the descriptor of any buffer it holds points, spoils none the driver has still to read |
| BatchedRx.BatchedQueue.PickUp | drivers/virtio/virtnet.c:303-304 | the buffer picked up holds what the device wrote for that completion |
| BatchedRx.BatchedQueue.Recycle | drivers/virtio/virtinput.c:142-168 | the consumed id is staged in a slot not outstanding to the device and is not yet available |
| BatchedRx.BatchedQueue.CommitBatch | drivers/virtio/virtnet.c:317-318 | the ids republished are those of the completions just consumed, in order, once each |
| ArmVirtnetRx.VirtNetifRx.VirtnetRxHandle | drivers/virtio/virtnet.c:282-323 | ends within queue-size rounds although the device goes on completing; handles every completion present on entry, in order, and republishes the consumed ids in order; the stores to the flag are 1, 0, 1, 0 and so on up to a 0; every completion left behind was made after the last of them, and raised an interrupt |
| ArmVirtnetRx.VirtNetifRx.Input | drivers/virtio/virtnet.c:262-280 | each frame is copied out as it arrived if the allocator gave a buffer for it and dropped otherwise |
| EventFilter.PrecedeMeans | riscv32_virt/liteos_m/board/driver/virtinput.c:134-153 | the one static variable says what the whole stream so far says |
| EventFilter.GrabbedIffComplete | riscv32_virt/liteos_m/board/driver/virtinput.c:134-153 | an event passes exactly when it is neither a left-up without a down before it nor the event closing one |
| EventFilter.ReportedUpsHaveDowns | riscv32_virt/liteos_m/board/driver/virtinput.c:129-153 | for every stream, each reported left-up has a left-down as the reported left-button event before it |
| EventFilter.ReportedDowns | riscv32_virt/liteos_m/board/driver/virtinput.c:138-140 | every left-down is reported, in order |
| EventFilter.DroppedEvents | riscv32_virt/liteos_m/board/driver/virtinput.c:143-151 | exactly the lone left-ups are dropped among left-button events, and each takes at most one further event with it |
| VirtinDriver.Virtin.VirtinGrabbed | riscv32_virt/liteos_m/board/driver/virtinput.c:134-153 | the in-place update and answer equal the filter function |
| VirtinDriver.Virtin.VirtinHandleEv | riscv32_virt/liteos_m/board/driver/virtinput.c:155-182 | ends within queue-size rounds; handles every completion present on entry, in order, and republishes the consumed ids in order; stores 1 and then 0 to the flag; the completions left without an interrupt are exactly those made before the store of 0 |
| VirtinDriver.Virtin.LeavesOneBehind | riscv32_virt/liteos_m/board/driver/virtinput.c:155-182 | from every state in which nothing waits to be handled and the device has a buffer to fill, a run of the handler's steps leaves a completion behind that raised no interrupt |
| VirtinDriver.Virtin.ReportsFiltered | riscv32_virt/liteos_m/board/driver/virtinput.c:155-182 | what has been reported is exactly the filtered stream of what the device completed, in order |
| Pl011Ring.ContentsAre | drivers/uart/uart_pl011.c:375-395 | the slots from read index to write index hold, in order, the bytes accepted and not yet read |
| Pl011Ring.UartTransfer.Fifo | drivers/uart/uart_pl011.c:355-454 | what has been read followed by what is in the ring is what was accepted, and the ring never holds more than its size less one |
| Pl011Ring.UartTransfer.RecvNotify | drivers/uart/uart_pl011.c:410-454 | accepts the longest prefix that fits and says how long it is |
| Pl011Ring.UartTransfer.Pl011Irq | drivers/uart/uart_pl011.c:47-62 | drains at most 128 bytes from the hardware FIFO into the ring; on the console a magic key drops what was drained |
| Pl011Ring.UartTransfer.CopyOut | drivers/uart/uart_pl011.c:375-390 | bytes copied with interrupts after each are the bytes that were there |
| Pl011Ring.UartTransfer.Pl011Read | drivers/uart/uart_pl011.c:355-398 | with interrupts between index loads, between bytes and before the store, returns in order at most the requested number of the bytes present when the write index was read |
| Pl011Ring.UartTransfer.RxBufEmpty | drivers/uart/uart_pl011.c:456-460 | equal indices mean exactly that nothing is held |
| Pl011Baud.ConfigBaudrate | drivers/uart/uart_pl011.c:69-90 | no 32-bit product wraps; the divisor written is the nearest 64th, halves up; FBRD is at most 64, and is 64 exactly when 8 times the remainder is at least 127 times the baud rate |
| Pl011Baud.HardwareAgreesIff | drivers/uart/uart_pl011.c:83-89 | the registers hold the divisor computed exactly for baud rates from 23 on whose fraction does not round up to a whole |
| Pl011Baud.FractionOverflowExample | drivers/uart/uart_pl011.c:86-89 | at 750001 baud the driver writes 64 into the six-bit FBRD, and the registers do not hold the divisor |
| FlashChip.AndErased | riscv32_virt/liteos_m/board/driver/cfiflash/cfiflash.c:141-144 | an erased word takes any value when programmed |
| FlashChip.ProgramBits | riscv32_virt/liteos_m/board/driver/cfiflash/cfiflash.c:141-144 | programming clears exactly the bits that the data has clear, in the words written, and sets none |
| FlashChip.EraseIs | riscv32_virt/liteos_m/board/driver/cfiflash/cfiflash.c:260-284 | an erase sets all bits of the 65536 words around the address, and leaves all others |
| FlashChip.ChipSizes | riscv32_virt/liteos_m/board/driver/cfiflash/cfiflash_internal.h:26-28 | the chip has 128 blocks of 64 pages of 1024 words of 4 bytes |
| CfiFlash.StoredValues | riscv32_virt/liteos_m/board/driver/cfiflash/cfiflash_internal.h:45-52 | the stores of a buffered write and of an erase by their values: 0xE8 or 0x20, 0xD0, 0x70 |
| CfiFlash.ReadBack | riscv32_virt/liteos_m/board/driver/cfiflash/cfiflash.c:124-155 | words programmed into erased flash read back as written |
| CfiFlash.EraseGuardIff | riscv32_virt/liteos_m/board/driver/cfiflash/cfiflash.c:260-265 | an accepted offset addresses a block of the chip exactly below the capacity; the guard also lets the capacity itself through |
| CfiFlash.Flash.WriteGroup | riscv32_virt/liteos_m/board/driver/cfiflash/cfiflash.c:132-148 | one command group is grammatical for the chip and programs exactly its words |
| CfiFlash.Flash.WriteBuf | riscv32_virt/liteos_m/board/driver/cfiflash/cfiflash.c:124-155 | for every word range: the stores are, group by group, the write command, the count, the words, the confirmation and status polls, and nothing else; the chip sees no fault at any time; the groups end where their pages end, the last where the words do, and partition the range in order; the effect is one program of the whole range |
| CfiFlash.Flash.CfiFlashRead | riscv32_virt/liteos_m/board/driver/cfiflash/cfiflash.c:211-235 | rejects exactly ranges beyond the capacity and otherwise returns the words, or the status for each word if the chip was left showing it |
| CfiFlash.Flash.CfiFlashWrite | riscv32_virt/liteos_m/board/driver/cfiflash/cfiflash.c:237-258 | rejects exactly ranges beyond the capacity, changing nothing; otherwise programs the words with the same stores in the same groups, no fault, and every other word and the other chip left alone |
| CfiFlash.Flash.CfiFlashErase | riscv32_virt/liteos_m/board/driver/cfiflash/cfiflash.c:260-284 | rejects exactly offsets above the capacity; the stores are the erase command, the confirmation and polls, without a fault; below the capacity exactly one block of the drive's own chip is erased; at the capacity, for drive 0, exactly the first block of the other chip, which is left showing its status |
| CfiFlash.EraseNextDoor | riscv32_virt/liteos_m/board/driver/cfiflash/cfiflash.c:260-284 | an erase of drive 0 at its capacity answers OK, leaves drive 0 as it was, erases the first block of drive 1, and makes the next read of drive 1 give the status for every word |
| CfiFlash.Flash.WriteThenRead | riscv32_virt/liteos_m/board/driver/cfiflash/cfiflash.c:211-258 | a word-aligned write to erased flash reads back; all other words unchanged |
| QueueLayout.CalculateQueueAddr | drivers/virtio/virtmmio.c:163-174 | parts at the first addresses from the base on that are aligned to 16, 2 and 4, without overlap, within the estimate for every base, which is used up exactly one past a boundary |
| QueueLayout.EntriesApart | drivers/virtio/virtmmio.h:82-110 | every descriptor and every entry of both rings, by the widths of its fields, ends before the next part begins |
| QueueLayout.KnownSizes | drivers/virtio/virtmmio.c:56-63 | the estimate is 439 bytes for 16 entries and 855 for 32, and the network driver allocates 25745 |
| QueueLayout.PlaceQueues | drivers/virtio/virtmmio.c:176-188 | for any number of queues of any sizes, each is at the first place for it behind the last, and all end within the sum of the estimates |
| QueueLayout.QueuesApart | drivers/virtio/virtmmio.c:176-188 | different queues have no byte in common |
| QueueLayout.PlaceNet | riscv32_virt/liteos_m/board/driver/virtnet.c:273-316 | queues and padded receive buffers fit the one allocation without overlap, the buffers every 1528 bytes, and every packet address is 4-byte aligned for the stack |
| QueueLayout.PlaceArmNet | drivers/virtio/virtnet.c:191-206 | both queues fit behind the driver's own structure |
| InitRules.GreetedBeforeFeatures | drivers/virtio/virtmmio.c:65-71 | in a log that breaks no rule features are written only after ACKNOWLEDGE, then DRIVER, then DRIVER read back set |
| InitRules.FeaturesOffered | drivers/virtio/virtmmio.c:88-101 | in a log that breaks no rule the features written are a subset of what was read as offered in the same feature word |
| InitRules.StatusGrows | drivers/virtio/virtmmio.c:19-32 | after the first write every status write keeps all bits the read just before it gave |
| InitHandshake.VirtnetInit.VirtmmioConfigQueue | drivers/virtio/virtmmio.c:176-188 | places the receive and then the transmit queue at the first places behind each other from the base on, and tells the device the size and the six address halves of each as placed |
| QueueWords.UnderstoodAsPlaced | drivers/virtio/virtmmio.c:125-137 | put together again, the size and the halves written for a queue are the size and the 64-bit addresses at which it was placed |
| InitRules.ReadyAfterAccepted | drivers/virtio/virtmmio.c:106-123 | in a log that breaks no rule a queue is made ready only after FEATURES_OK was written and then read back set |
| InitRules.ReadyBeforeDriverOk | drivers/virtio/virtmmio.c:73-76 | DRIVER_OK is added only after both queues were made ready |
| ConfigWindow.KeptMtuInRange | drivers/virtio/virtnet.c:102-107 | if the device keeps its MTU under one generation, the MTU kept is in range although it is read again after the checks |
| ConfigWindow.MtuInRangeIff | drivers/virtio/virtnet.c:102-107 | a device whose MTU readings come from a set only ever has an MTU in range kept exactly if the set lies in the range, or has nothing at most the maximum, or nothing at least the minimum |
| InitHandshake.LateChangeRun | drivers/virtio/virtnet.c:102-107 | a whole initialisation, from the reset to DRIVER_OK, with a device that changes its MTU after the checks and under one generation: it succeeds, writing 0, 1, 3, 11 and 15 to the status, and keeps 9000 where the range ends at 1500 |
| InitHandshake.OneBit | drivers/virtio/virtmmio.c:24-27 | ORing in a flag keeps all bits and adds no other flag |
| InitRules.StatusBits | drivers/virtio/virtmmio.h:26-31 | ACKNOWLEDGE, DRIVER, DRIVER_OK, FEATURES_OK and FAILED are 1, 2, 4, 8 and 128, both where they are set and where they are looked for |
| InitRules.TakesBits | drivers/virtio/virtnet.c:95-134 | of word 0 the driver takes 32 and, if bit 3 is offered, 8, and of word 1 it takes 1, if and only if those bits are offered |
| InitHandshake.AddStatusMoves | drivers/virtio/virtmmio.c:24-27 | adding a flag obeys the rules and changes only what depends on the status |
| InitHandshake.VirtnetInit.InitBegin | drivers/virtio/virtmmio.c:65-71 | resets, then acknowledges and adds DRIVER, polling until it shows, for every answer |
| InitHandshake.VirtnetInit.Feature0 | drivers/virtio/virtnet.c:95-124 | takes exactly MAC and, if offered, MTU; what is kept was read from the configuration; goes on, fails or is cut off as the answers and the features say, and fails only for want of MAC or an MTU just read out of range |
| InitHandshake.VirtnetInit.Negotiate | drivers/virtio/virtmmio.c:83-104 | the features written are a subset of those offered in that word, and MTU and MAC come from between two equal generations; how it ends, and which reading of the MTU is kept, is determined by the answers; a failure has its cause in the log |
| InitHandshake.VirtnetInit.VirtmmioNegotiate | drivers/virtio/virtmmio.c:106-123 | succeeds only with FEATURES_OK read back set and both words settled |
| InitHandshake.VirtnetInit.CompleteConfigQueue | drivers/virtio/virtmmio.c:139-161 | sets a queue up in the order the standard demands, with the size and addresses given, only if the device allows the size, and makes no other queue ready |
| InitHandshake.VirtnetInit.InitFailed | drivers/virtio/virtmmio.c:78-81 | the last access sets FAILED, bit 7, on the status just read |
| InitHandshake.VirtnetInit.VirtnetInit | drivers/virtio/virtnet.c:384-409 | for every sequence of device answers all rules hold to the end; how the run ends, every value written to the status, and the MTU kept, are the stated functions of the answers; success ends by setting DRIVER_OK after features accepted, both queues laid out behind the driver's structure, the device told where, and made ready, configuration from one generation; every failure has a cause in the log and ends in FAILED, and DRIVER_OK was never set; only an unanswered access cuts a run off and only a queue read as in use stops it |
| InitOutcome.EndsSame | drivers/virtio/virtnet.c:384-409 | a run is cut off only for want of answers: one that has ended ends the same way, with the same answers used, whatever more the device would say |
| Fnv.HashFNV32aBuf | riscv32_virt/liteos_m/board/driver/video/key_cache.h:44-61 | the loop computes the FNV-1a hash of the bytes |
| Fnv.HashFNV32aStr | riscv32_virt/liteos_m/board/driver/video/key_cache.h:63-79 | the loop up to the terminator computes the same hash of the string before it |
| Fnv.HashAppend | riscv32_virt/liteos_m/board/driver/video/key_cache.h:44-61 | hashing may be resumed where it stopped |
| Fnv.KnownHashes | riscv32_virt/liteos_m/board/driver/video/key_cache.h:38-61 | the hashes of the empty string, "a", "b" and "ab" are the published ones |
| Registry.PresentIff | riscv32_virt/liteos_m/board/driver/video/fb_mem.c:91-129 | a name is present exactly if registered and not unregistered since, with the data of the attempt that found it absent |
| Buckets.MatchesIff | riscv32_virt/liteos_m/board/driver/video/key_cache.c:156 | equal lengths and strncmp mean equal names, for names without NUL |
| Buckets.KnownBucket | riscv32_virt/liteos_m/board/driver/video/key_cache.c:103-107 | the name "a" goes to bucket 300 of 512 |
| Buckets.InsertKeeps | riscv32_virt/liteos_m/board/driver/video/key_cache.c:103-107 | inserting at the head of the hashed bucket adds exactly that name to the represented map |
| Buckets.DeleteKeeps | riscv32_virt/liteos_m/board/driver/video/key_cache.c:138-147 | deleting one entry removes exactly its name from the represented map |
| Buckets.FreeFinds | riscv32_virt/liteos_m/board/driver/video/key_cache.c:166-178 | deleting the first entry for an object removes exactly the names that map to it |
| FbMem.Registered.KeyCacheLookup | riscv32_virt/liteos_m/board/driver/video/key_cache.c:149-164 | finds a name exactly if the map has it, and the object it maps to |
| FbMem.Registered.FbMemKeyCacheFree | riscv32_virt/liteos_m/board/driver/video/key_cache.c:166-178 | removes exactly the names of the object |
| FbMem.Registered.FbMemLookup | riscv32_virt/liteos_m/board/driver/video/fb_mem.c:66-89 | finds, creates or refuses according to the map and the flag, for keys of any length where none is created |
| FbMem.Registered.RegisterDriver | riscv32_virt/liteos_m/board/driver/video/fb_mem.c:91-111 | EINVAL, EEXIST, out of memory and OK exactly when they should be; after OK the name is registered if and only if there was memory for the cache entry; the history of operations determines the names and data |
| FbMem.Registered.UnregisterDriver | riscv32_virt/liteos_m/board/driver/video/fb_mem.c:113-129 | removes exactly the looked-up name and its object, or reports that there is none |
| CardRegister.FillBit | drivers/virtio/virtblock.c:279-290 | filling a field ORs each bit of the value into its own place and touches no other bit, across word boundaries |
| CardRegister.GetFilled | drivers/virtio/virtblock.c:279-290 | a field that was clear reads back the value, even across a word boundary |
| CardRegister.GetOther | drivers/virtio/virtblock.c:279-290 | every field that shares no bit reads as before |
| CardRegister.GetAllFilled | drivers/virtio/virtblock.c:353-381 | of any number of fields that share no bits each reads back its value |
| CardRegister.BitUntouched | drivers/virtio/virtblock.c:353-381 | every bit outside the fields filled stays as it was |
| CardRegister.FillCidCsdBits | drivers/virtio/virtblock.c:279-290 | the two stores into the word array compute the filled register, for values that fit and values that do not |
| CardSpecificData.FieldsApart | drivers/virtio/virtblock.c:353-381 | the sixteen CSD fields share no bit |
| CardSpecificData.AllFitIff | drivers/virtio/virtblock.c:363-373 | all values fit their fields exactly from 1 MiB on and, above 2 GiB, for blocks below 64 KiB |
| CardSpecificData.VirtMmcFillRespCsd | drivers/virtio/virtblock.c:353-381 | the sixteen stores build the register the specification function gives, on both branches |
| CardSpecificData.CsdReads | drivers/virtio/virtblock.c:353-381 | every field of the register built reads back what the driver put there |
| CardSpecificData.CsdDecodes | drivers/virtio/virtblock.c:370-374 | up to 2 GiB the register built decodes to at most the true capacity and less than 1 MiB below it exactly from 1 MiB on |
| CardSpecificData.LargeCardReads | drivers/virtio/virtblock.c:363-367 | above 2 GiB, for blocks below 64 KiB, the register reads size 0xFFF and, twice, the logarithm of the block size |
| CardSpecificData.SmallCardReads | drivers/virtio/virtblock.c:368-371 | from 1 MiB to 2 GiB both block lengths read 11 |
| CardSpecificData.ConstantFields | drivers/virtio/virtblock.c:353-381 | wherever all values fit, the fields that do not depend on the card read their constants, each at its place |
| CardSpecificData.SmallCapacitySpoils | drivers/virtio/virtblock.c:371-372 | below 1 MiB the register built reads size 0xFFF and, spoilt by the excess bits, block length 15, which is 64 GiB |

## Left out

- CfiFlash.Flash.CfiFlashErase: leaves out drive 1 at its capacity, where the commands go to an address at which nothing is placed.
- InitHandshake.VirtnetInit.VirtnetInit: starts at the reset, so allocation and device discovery before it are left out; a queue found in use stops the system, as the assertion in the source does, and then neither DRIVER_OK nor FAILED is set.
- InitHandshake.VirtnetInit.Feature0: is the ARM driver's; the RISC-V one (riscv32_virt/liteos_m/board/driver/virtnet.c:143-169) asserts that MAC is offered instead of failing and has no lower bound for the MTU.
- FbMem.Registered.FbMemLookup: when it may create an entry the key is shorter than 256 bytes, as its one caller with the flag checks; a longer one would be truncated by the 8-bit length.
- VirtnetTxDriver.VirtNetif.LowLevelOutput: leaves out packets of 65535 segments and more whose 16-bit count wraps to one that fits; the walk then leaves the chain it was given.
- VirtnetTxDriver.VirtNetif.SplicePair: the ARM driver stores only the buffer in its record; the model's record has the unused length and tail as well.
- Registers read only to print them in a log message, such as the MTU just refused.
- Offsets of device registers, which the model knows by name.
- Notification of the device, interrupt acknowledgement, and the decision to notify from `used->flag`.
- Bytes of packets on the RISC-V receive side (only where they are and how many), `pbuf_header` adjustments, and the assertion on the received length.
- Contents of events in the ARM input driver, whose buffers are recycled before the queued work reads them.
- Null bases and driver handles, and I/O errors of `memcpy_s` and of the notification in the UART driver.
- UART open and close counting; data bits, parity and stop bits.
- GPU refresh, display, audio, MMZ, watchdog and console code: plumbing, or correct only by timing.
- The LAN9118 driver: register polling with timeouts.
- The CFI query, and a null base address in the flash driver.
- The CID register and the EXT_CSD bytes of the block driver.
- Hit counters and dumps of the key cache; mutexes, which make its operations atomic steps.
