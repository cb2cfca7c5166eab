# ICF routing core in Dafny

The Inter-Computer Framework (ICF) is the small gateway of the flight
simulator that moves frames between hardware ports (CAN, RS-422, Ethernet)
and software queues. This project models its two C files:

- `models/icf/src/icf_trx_ctrl.c` is the routing and queue control. It holds:
  - the compiled-in port, queue and mapping tables of the EGSE and ESPS variants;
  - the variant selectors and the lookups over the mapping table;
  - control-block init and deinit;
  - the frame dispatcher;
  - the per-cycle receive job, the transmit job, direct and enqueued send, and dequeue.
- `models/icf/src/icf_utility.c` holds the byte utilities:
  - the 32-bit shift-register checksum `crc32` and its fold `crc32_create`;
  - the checker `crc_checker` and `invert_crc32`;
  - `get_arr_num` and the big-endian split of an int16.

Modules:

- `Wrappers` (wrappers.dfy): the `Option` type for pointers that may be NULL.
- `IcfUtility` (utility.dfy): the checksum step on `bv32` and its reference definition by halves. It also proves:
  - `invert_crc32` is a bijection and equals a checksum step on the zero word;
  - `crc32_create` and `crc_checker` are loops proved against a left fold;
  - any change inside one aligned word is detected;
  - `get_arr_num` follows C's truncating `/` and `%`;
  - the int16 split round-trips in both directions.
- `Ring` (ring.dfy): the FIFO ring buffer of each queue. It is a class holding its cells, head first.
- `IcfTables` (tables.dfy):
  - the six tables, with the selectors that fall back to EGSE;
  - the first-match lookups and their round trips;
  - the dispatcher keyed on the CAN id.
- `IcfTrxCtrl` (trx_ctrl.dfy): the control block is a class.
  - `queueSlot` and `portSlot` are `C->ctrlqueue[]` and `C->ctrlport[]`. Each maps an index to a table position.
  - `rings` holds each queue's ring buffer.
  - `portDriver` holds each port's `drv_priv_ops`.
  - The ghost log `calls` records every `open_interface`, `close_interface` and `send_data` call.

  Whatever a driver hands back is a method parameter. That covers the result of `recv_data`, the readiness from `select`/`fd_isset`, and the bytes `header_copy` writes.

The numeric identifiers come from `icf_trx_ctrl.h`, which is not part of this model. Those are the port, queue, driver, system-type and CAN ids, `HIL_INTF`, and the status codes. They are placeholders. The tables, the lookups, init and the jobs rely only on each kind being distinct. Two named predicates state more, and only the members that take them as a precondition rely on them:

- `IcfTables.PositionalHeaderValues`: `HW_PORTn == n` for every n, `ESPS_TVC_SW_QIDX == 0` and `ESPS_GNC_SW_QIDX == 1`. It is used by the as-written members `PortDriverIdAsWritten`, `AsWrittenInitBindsIntendedDrivers` and `EspsAsWrittenMissesGncEntry`.
- `IcfTables.SentinelIsNoQueue`: the dispatcher's empty sentinel is no queue index of either variant. It is used by `EspsFrameAlwaysQueued`.

The placeholders meet both.

`struct icf_mapping` is declared in the header. Its field order, port then queue then driver, is inferred from the EGSE initialiser (models/icf/src/icf_trx_ctrl.c:2-12). The ESPS initialiser (models/icf/src/icf_trx_ctrl.c:39-42) lists the queue index first. Under that field order its entries are swapped, which "## Findings" records. `EspsMapTblAsWritten` keeps them as written. `EspsMapTbl`, which the rest of the model uses, is the port-first table the ESPS queue and port tables call for.

## Model

| member | source | states |
|---|---|---|
| IcfUtility.Crc32 | models/icf/src/icf_utility.c:45-65 | A null buffer gives 0. Otherwise the result is the shift-register step `InvertCrc32(crc)` XOR the first buffer word, assembled little-endian. |
| IcfUtility.LeWordInjective | models/icf/src/icf_utility.c:52 | Two words read from a buffer are equal exactly when their four bytes are equal. |
| IcfUtility.Crc32LowBits | models/icf/src/icf_utility.c:53-64 | Bits 30..0 of a step are `((crc >> 1) ^ word) & 0x7fffffff`. |
| IcfUtility.Crc32HighBit | models/icf/src/icf_utility.c:54-64 | Bit 31 of a step is the parity of crc bits 0, 4, 8, 12, 17, 20, 23, 28 XOR bit 31 of the word. |
| IcfUtility.Crc32WordIsShiftXor | models/icf/src/icf_utility.c:45-100 | A crc32 step equals invert_crc32 of the old checksum XOR the data word. |
| IcfUtility.Crc32DistinctWords | models/icf/src/icf_utility.c:45-65 | From the same checksum, different data words give different results. |
| IcfUtility.Crc32DistinctChecksums | models/icf/src/icf_utility.c:45-65 | With the same data word, different checksums stay different. |
| IcfUtility.InvertCrc32 | models/icf/src/icf_utility.c:77-100 | `UninvertCrc32` undoes the result, so invert_crc32 loses no information. The debug-only `crc_tmp` has no effect. |
| IcfUtility.InvertRoundTrip | models/icf/src/icf_utility.c:77-100 | invert_crc32 undoes `UninvertCrc32`, so the transform is a bijection on 32-bit words. |
| IcfUtility.InvertIsZeroWordStep | models/icf/src/icf_utility.c:77-100 | invert_crc32(c) equals crc32(c, all-zero word). |
| IcfUtility.Crc32Create | models/icf/src/icf_utility.c:67-75 | For a length that is a multiple of 4, the loop returns the left fold of crc32 over the words. Length 0 gives 0. |
| IcfUtility.CrcChecker | models/icf/src/icf_utility.c:102-110 | True exactly when the received checksum equals the fold over the same bytes. |
| IcfUtility.CrcUpToPrefix | models/icf/src/icf_utility.c:67-75 | The checksum of n bytes depends on those n bytes only. |
| IcfUtility.CrcStaysApart | models/icf/src/icf_utility.c:67-75 | Once two running checksums differ, equal later words never bring them together. |
| IcfUtility.DivergeAtWord | models/icf/src/icf_utility.c:67-75 | Equal prefixes followed by different words give different checksums. |
| IcfUtility.SingleWordChangeDetected | models/icf/src/icf_utility.c:102-110 | Two buffers that differ only inside one aligned word always have different checksums. |
| IcfUtility.CDiv | models/icf/src/icf_utility.c:117 | C's truncating `/`: the dividend equals quotient * divisor + remainder. |
| IcfUtility.CRem | models/icf/src/icf_utility.c:113 | C's `%`: smaller in magnitude than the divisor, with the sign of the dividend. |
| IcfUtility.GetArrNum | models/icf/src/icf_utility.c:112-118 | -1 when the size does not divide; otherwise the exact quotient. |
| IcfUtility.GetArrNumOfWholeArray | models/icf/src/icf_utility.c:112-118 | The byte size of n elements gives back n. |
| IcfUtility.Int16FromBigEndian | models/icf/src/icf_utility.c:120-124 | Two bytes, high first, read as an int16 always land in the int16 range. |
| IcfUtility.DataInt16ToUint8BigEndian | models/icf/src/icf_utility.c:120-124 | Writes the high byte to dest[0] and the low byte to dest[1]. Leaves the rest of dest alone and returns 0. |
| IcfUtility.Int16RoundTrip | models/icf/src/icf_utility.c:120-124 | Reassembling `(dest[0] << 8) \| dest[1]` as an int16 gives back the source value. |
| IcfUtility.BigEndianRoundTrip | models/icf/src/icf_utility.c:120-124 | Splitting a reassembled int16 gives back the same two bytes. |
| Ring.RingBuffer.Init | models/icf/src/icf_trx_ctrl.c:212 | rb_init gives an empty ring. |
| Ring.RingBuffer.Push | models/icf/src/icf_trx_ctrl.c:327 | rb_push makes the cell the new tail. |
| Ring.RingBuffer.Pop | models/icf/src/icf_trx_ctrl.c:435 | rb_pop gives NULL on an empty ring. Otherwise it removes the head and returns it. |
| Ring.RingBuffer.Deinit | models/icf/src/icf_trx_ctrl.c:243 | rb_deinit releases every cell. |
| IcfTables.ChooseMapTbl | models/icf/src/icf_trx_ctrl.c:83-100 | Returns the variant's mapping table (for ESPS the port-first `EspsMapTbl`, see "## Findings"), with a byte size from which get_arr_num gives back the entry count. |
| IcfTables.ChooseSwQueueTbl | models/icf/src/icf_trx_ctrl.c:102-119 | Returns the variant's queue table, with a byte size from which get_arr_num gives back the entry count. |
| IcfTables.ChooseHwPortTbl | models/icf/src/icf_trx_ctrl.c:121-138 | Returns the variant's port table, with a byte size from which get_arr_num gives back the entry count. |
| IcfTables.SelectorsChooseVariant | models/icf/src/icf_trx_ctrl.c:83-138 | ESPS gets the three ESPS tables. EGSE and every unknown system type get the EGSE tables. Each size is the whole table's. |
| IcfTables.TablesConsistent | models/icf/src/icf_trx_ctrl.c:2-53 | Queue and port indices are unique, and every queue's port is in the same variant's port table. This needs only distinct identifiers of each kind. |
| IcfTables.MapKeysUnique | models/icf/src/icf_trx_ctrl.c:2-53 | No two entries of either variant's mapping table share a port index or a queue index. |
| IcfTables.PositionLookupFindsEntry | models/icf/src/icf_trx_ctrl.c:154-166 | For any mapping table with unique keys, looking up position k by port index finds entry k exactly when entry k's port field holds k. |
| IcfTables.EntriesPairedByPosition | models/icf/src/icf_trx_ctrl.c:2-53 | In EGSE and in the corrected ESPS table, mapping entry k names the port and the queue at position k, and that queue is bound to that port. |
| IcfTables.EveryQueueAndPortMapped | models/icf/src/icf_trx_ctrl.c:2-53 | Every routing entry names a port and a queue of its own variant, and every port and queue of the variant is a key of the mapping table. |
| IcfTables.PortEntryMapped | models/icf/src/icf_trx_ctrl.c:215-219 | Looking a port's driver up by the port's own index finds the mapping entry listed with that port. |
| IcfTables.PortDriverId | models/icf/src/icf_trx_ctrl.c:218 | The port at position k gets the driver id of mapping entry k, for any distinct header values. |
| IcfTables.PortDriverIdAsWritten | models/icf/src/icf_trx_ctrl.c:218 | Init's lookup as written, by table position in the as-written table. Under `PositionalHeaderValues` it gives the driver of entry k. |
| IcfTables.AsWrittenInitBindsIntendedDrivers | models/icf/src/icf_trx_ctrl.c:39-42 | Under `PositionalHeaderValues`, the swapped ESPS fields and the by-position lookup cancel out. Init as written binds the same drivers as the intended lookup. |
| IcfTables.EspsAsWrittenMissesGncEntry | models/icf/src/icf_trx_ctrl.c:39-42 | Under `PositionalHeaderValues`, the as-written ESPS table has an entry naming no ESPS port or queue. The GNC queue and the Ethernet port are keys of no entry, so both lookups scan past the table. A queue-key lookup of `HW_PORT8` finds entry 1, whose port field is `ESPS_GNC_SW_QIDX`. |
| IcfTables.FindFirstIsFirst | models/icf/src/icf_trx_ctrl.c:140-194 | The scan stops at the first matching entry, after no earlier match. It stays inside the table exactly when the key is present. |
| IcfTables.ScanMapTbl | models/icf/src/icf_trx_ctrl.c:145-151 | The while loop of the lookups stops at the first match. The caller must guarantee the key is present, because a missing key reads one past the table. |
| IcfTables.QidxToDriversId | models/icf/src/icf_trx_ctrl.c:140-152 | Returns the driver id of the first entry whose queue field matches. |
| IcfTables.PidxToDriversId | models/icf/src/icf_trx_ctrl.c:154-166 | Returns the driver id of the first entry whose port field matches. |
| IcfTables.PidxToQidx | models/icf/src/icf_trx_ctrl.c:168-180 | Returns the queue field of the first entry whose port field matches. |
| IcfTables.QidxToPidx | models/icf/src/icf_trx_ctrl.c:182-194 | Returns the port field of the first entry whose queue field matches. |
| IcfTables.LookupsFindEntry | models/icf/src/icf_trx_ctrl.c:140-194 | In either variant's table, looking up an entry's port index or queue index finds that same entry. |
| IcfTables.PortQueueRoundTrip | models/icf/src/icf_trx_ctrl.c:168-194 | qidx_to_pidx(pidx_to_qidx(p)) == p for every port index in the table. |
| IcfTables.QueuePortRoundTrip | models/icf/src/icf_trx_ctrl.c:168-194 | pidx_to_qidx(qidx_to_pidx(q)) == q for every queue index in the table. |
| IcfTables.DispatchRxFrame | models/icf/src/icf_trx_ctrl.c:271-300 | Never fails. The result is the empty sentinel or an inbound queue of the variant. |
| IcfTables.DispatchOutcomes | models/icf/src/icf_trx_ctrl.c:271-300 | ESPS always gives the GNC queue. In EGSE, the TVC queue is the result exactly for the four FC2TVC ids; every other id, the valve and ordnance group included, gives the empty sentinel. |
| IcfTables.DispatchReadsOnlyCanId | models/icf/src/icf_trx_ctrl.c:271-300 | Dispatch is deterministic and reads only the CAN id: the first four bytes in EGSE, nothing in ESPS. |
| IcfTrxCtrl.InitOpensEachEnabledPortOnce | models/icf/src/icf_trx_ctrl.c:215-223 | Init's open_interface calls are exactly the enabled ports, each once, in table order, with the port's ifname and netport. |
| IcfTrxCtrl.DeinitClosesEachEnabledPortOnce | models/icf/src/icf_trx_ctrl.c:246-253 | Deinit's close_interface calls are exactly the enabled ports, each once, in table order. |
| IcfTrxCtrl.RegisterSlots | models/icf/src/icf_trx_ctrl.c:210-218 | After registration, a slot is set exactly for the indices of the table, and each names an entry with that index. |
| IcfTrxCtrl.RegisterFindsEach | models/icf/src/icf_trx_ctrl.c:210-218 | With unique indices, every entry is found at its own index. No later entry overwrites it. |
| IcfTrxCtrl.QueueRegistered | models/icf/src/icf_trx_ctrl.c:325 | Every queue index of the table has a slot after init, so the receive step's `C->ctrlqueue[qidx]` is never NULL. |
| IcfTrxCtrl.Filled | models/icf/src/icf_trx_ctrl.c:313-319 | The receive buffer has rx_buff_size bytes. It holds the received data, then the zeroes calloc left. |
| IcfTrxCtrl.RxPush | models/icf/src/icf_trx_ctrl.c:302-333 | A failed recv_data pushes nothing. A pushed cell holds the whole receive buffer and goes to an inbound queue of the variant. |
| IcfTrxCtrl.EspsFrameAlwaysQueued | models/icf/src/icf_trx_ctrl.c:271-333 | Under `SentinelIsNoQueue`, every received ESPS frame is handed to the GNC queue, whatever its bytes. |
| IcfTrxCtrl.UnroutedFrameDropped | models/icf/src/icf_trx_ctrl.c:271-333 | In EGSE, a frame whose CAN id is not an FC2TVC id is dropped. |
| IcfTrxCtrl.TxJobsIdleOnEmpty | models/icf/src/icf_trx_ctrl.c:428-444 | Transmit jobs on an empty queue send nothing. |
| IcfTrxCtrl.TxJobsSendInOrder | models/icf/src/icf_trx_ctrl.c:395-444 | k transmit jobs send the first k queued frames in queue order, one per job, and leave the rest. With more jobs than frames, they send all frames and leave the queue empty. |
| IcfTrxCtrl.ControlBlock.Init | models/icf/src/icf_trx_ctrl.c:196-225 | The result is ready: every queue and port is registered under its own index. Every queue has a fresh empty ring, and every port has the driver of the mapping entry listed with it. Init returns 0. Exactly the enabled ports are opened, in order. |
| IcfTrxCtrl.ControlBlock.InitQueues | models/icf/src/icf_trx_ctrl.c:210-214 | One fresh, distinct, empty ring per queue entry, each stored under its queue index. |
| IcfTrxCtrl.ControlBlock.InitPorts | models/icf/src/icf_trx_ctrl.c:215-223 | Port slots; drivers stored by table position, each looked up by the port's own index; and the open calls, as `PortsBound` states them. |
| IcfTrxCtrl.ControlBlock.Deinit | models/icf/src/icf_trx_ctrl.c:227-254 | Returns 0. Every ring is emptied, and queue slots are cleared by table position, not by queue index. Exactly the enabled ports are closed, in order. |
| IcfTrxCtrl.ControlBlock.DeinitQueues | models/icf/src/icf_trx_ctrl.c:241-245 | Rings emptied; slots 0 .. n-1 cleared. |
| IcfTrxCtrl.ControlBlock.DeinitPorts | models/icf/src/icf_trx_ctrl.c:246-253 | One close call per enabled port, in order. |
| IcfTrxCtrl.ControlBlock.RxDequeue | models/icf/src/icf_trx_ctrl.c:256-269 | An empty queue gives 0 and changes nothing. Otherwise the head is removed, its first `size` bytes are copied to the payload, the rest of the payload is unchanged, and the result is 1. |
| IcfTrxCtrl.ControlBlock.ReceiveProcess | models/icf/src/icf_trx_ctrl.c:302-333 | A failed receive or an empty-sentinel dispatch returns FAIL with no queue changed. Otherwise it returns SUCCESS, and exactly the dispatched queue gets the frame at its tail. |
| IcfTrxCtrl.ControlBlock.RxCtrlJob | models/icf/src/icf_trx_ctrl.c:335-367 | Always SUCCESS. A CAN port receives only when ready, Ethernet always, and RS-422 never. Queues change only as the receive step says. |
| IcfTrxCtrl.ControlBlock.TxDirect | models/icf/src/icf_trx_ctrl.c:370-393 | Sends exactly one buffer, header ++ payload[..size], through the queue's port. No queue changes. |
| IcfTrxCtrl.ControlBlock.TxEnqueue | models/icf/src/icf_trx_ctrl.c:395-426 | Appends the same frame TxDirect would send to the tail of the queue. No other queue changes. |
| IcfTrxCtrl.ControlBlock.TxCtrlJob | models/icf/src/icf_trx_ctrl.c:428-444 | Pops at most one frame and sends exactly its bytes through the queue's port. It is one `TxStep` of the queue. |

## Findings

| source | as written | input that shows it | evidently intended | confidence | as-written member | corrected member |
|---|---|---|---|---|---|---|
| models/icf/src/icf_trx_ctrl.c:39-42 | The ESPS mapping entries list the queue index first, so the queue lands in the port field and the port in the queue field. | With `HW_PORTn == n`, `ESPS_TVC_SW_QIDX == 0` and `ESPS_GNC_SW_QIDX == 1`: `icf_qidx_to_pidx(ESPS_GNC_SW_QIDX, ESPS)` and `icf_pidx_to_qidx(HW_PORT8, ESPS)` match no entry and read one past the two-entry table. These two lookups and `icf_qidx_to_drivers_id` are `static` and have no caller in models/icf/src/icf_trx_ctrl.c, so that read is latent. The only live lookup, `icf_pidx_to_drivers_id` at line 218, binds the right drivers only because the swapped fields and its by-position key cancel, as `AsWrittenInitBindsIntendedDrivers` shows. | Port-first entries `{HW_PORT0, ESPS_TVC_SW_QIDX, ID0}` and `{HW_PORT8, ESPS_GNC_SW_QIDX, ID2}`, as the ESPS queue and port tables pair them, with init looking drivers up by `hw_port_idx`. | medium: not executed; the header values and the field order of `struct icf_mapping` are not part of this model | IcfTables.EspsAsWrittenMissesGncEntry | IcfTables.EveryQueueAndPortMapped |

## Left out

- `icf_trx_ctrl.h` and `icf_utility.h` are not part of this model. The identifier values, `NUM_OF_CELL` and the struct sizes are placeholders.
- IcfTables.ChooseMapTbl returns the corrected port-first `EspsMapTbl` for ESPS, not the as-written table of models/icf/src/icf_trx_ctrl.c:39-42. So for ESPS the following range over the corrected table: `QidxToDriversId`, `PidxToDriversId`, `PidxToQidx`, `QidxToPidx`, `ScanMapTbl`, `LookupsFindEntry`, `PortQueueRoundTrip`, `QueuePortRoundTrip`, `EntriesPairedByPosition` and `EveryQueueAndPortMapped`. On the as-written table the source differs in two ways:
  - `icf_qidx_to_pidx(HW_PORT8, ESPS)` returns `ESPS_GNC_SW_QIDX`. The model's `QidxToPidx` does not accept that input.
  - `icf_qidx_to_pidx(ESPS_GNC_SW_QIDX, ESPS)` reads one past the table. The model's lookup returns `HW_PORT8`.

  `EspsAsWrittenMissesGncEntry` states both facts about the as-written table. These lookups have no caller in the source.
- IcfTrxCtrl.ControlBlock.Init looks a port's driver up by the port's own index in the port-first `EspsMapTbl`. The source looks it up by table position in the swapped table (models/icf/src/icf_trx_ctrl.c:218). `AsWrittenInitBindsIntendedDrivers` shows the two bind the same drivers under `PositionalHeaderValues`. With other header values, the source's lookup can miss every entry and read one past the mapping table, or bind a port to another port's driver. The model does not capture that.
- Ring capacity: the ring buffer's source is not part of this model. Rings are unbounded, so a push onto a full ring is not modelled.
- Driver internals: `open_interface`, `recv_data`, `send_data`, `select`/`fd_*`, `header_set`/`header_copy` and `get_header_size` are foreign calls. Only their effect on the call log, or their result as a parameter, is modelled.
- The 100 µs `select` timeout, its error print, `FTRACE_TIME_STAMP`, `debug_print`, `debug_hex_dump`, `hex_dump`, `get_curr_time` and `clock_get_hw_time` are timing and console output.
- `icf_alloc_mem`/`icf_free_mem`: frames are values. Allocation failure, and the NULL check on the ring in `icf_tx_enqueue`, are not modelled.
- The SIL tables (models/icf/src/icf_trx_ctrl.c:55-81): no selector returns them.
- `icf_heartbeat`: console output only.
- Diagnostics on stderr are not modelled. That covers the dispatcher's "Unknown CAN command" line (models/icf/src/icf_trx_ctrl.c:296), the receive job's "No such RX device" line (models/icf/src/icf_trx_ctrl.c:364), and `get_arr_num`'s size-mismatch line (models/icf/src/icf_utility.c:114). The model keeps their results: the sentinel, SUCCESS and -1.
- IcfTrxCtrl.ControlBlock.RxDequeue requires `qidx` to be registered. For an unregistered index, the C code dereferences the NULL slot `C->ctrlqueue[qidx]` (models/icf/src/icf_trx_ctrl.c:257), a crash the model does not capture.
- IcfTrxCtrl.ControlBlock.RxCtrlJob requires `pidx` to be registered. For an unregistered index, the C code dereferences the NULL slot `C->ctrlport[pidx]` (models/icf/src/icf_trx_ctrl.c:339), a crash the model does not capture.
- IcfTrxCtrl.ControlBlock.TxDirect requires `qidx` to be registered. For an unregistered index, the C code dereferences the NULL slot (models/icf/src/icf_trx_ctrl.c:374), a crash the model does not capture.
- IcfTrxCtrl.ControlBlock.TxEnqueue requires `qidx` to be registered. For an unregistered index, the C code dereferences the NULL slot (models/icf/src/icf_trx_ctrl.c:402), a crash the model does not capture.
- IcfTrxCtrl.ControlBlock.TxCtrlJob requires `qidx` to be registered. For an unregistered index, the C code dereferences the NULL slot (models/icf/src/icf_trx_ctrl.c:431), a crash the model does not capture.
- IcfTrxCtrl.ControlBlock.Init gives each control block fresh rings and a driver list of its own. In C, the rings, `drv_priv_ops` and `drv_priv_data` live in the global static tables (models/icf/src/icf_trx_ctrl.c:15-53, 212, 218). Every control block of the same variant therefore shares them. The model does not capture that aliasing between two control blocks.
- IcfTrxCtrl.ControlBlock.Init requires a block with no slots set. Stale slots left by an earlier init of the other variant would point into another static table.
- IcfTrxCtrl.ControlBlock.Deinit: the tables are those of the system type recorded by init. The unused `system_type` argument is accepted and ignored.
- IcfTrxCtrl.ControlBlock.RxDequeue requires `size` to fit both the payload and the head frame. A larger `size` makes `memcpy` read or write outside them.
- IcfTrxCtrl.ControlBlock.TxDirect assumes the port's driver has `get_header_size`. The C code null-checks that pointer (models/icf/src/icf_trx_ctrl.c:378) but then calls it unconditionally (models/icf/src/icf_trx_ctrl.c:384). A driver without it crashes there, which the model does not capture.
- IcfTrxCtrl.ControlBlock.TxEnqueue assumes the port's driver has `get_header_size`. The C code null-checks that pointer (models/icf/src/icf_trx_ctrl.c:407) but then calls it unconditionally (models/icf/src/icf_trx_ctrl.c:412). A driver without it crashes there, which the model does not capture.
- IcfTrxCtrl.ControlBlock.TxDirect: `header` is the bytes header_copy writes, and its length is the driver's header size. A driver whose header_copy returns a different count is not modelled.
- IcfTrxCtrl.ControlBlock.RxCtrlJob requires an EGSE receive buffer of at least 4 bytes, so dispatch can read a CAN id.
- IcfUtility.Crc32Create and IcfUtility.CrcChecker require a length that is a multiple of 4. Otherwise the C loop reads past the buffer.
- IcfUtility.Crc32: the host is fixed as little-endian. The C code reads each word in host byte order. `IcfTables.CanId` makes the same choice for `can_id` (models/icf/src/icf_trx_ctrl.c:281). `DispatchRxFrame`, `DispatchOutcomes`, `DispatchReadsOnlyCanId` and `UnroutedFrameDropped` depend on it.
- IcfUtility.CrcChecker returns a bool where the C function returns the uint32 0 or 1.
- IcfUtility.DataInt16ToUint8BigEndian takes `src` as an int16 value. `>> 8` on a negative value is taken as an arithmetic shift, which is implementation-defined in C.
- All flight-dynamics code, Time_management, the GPS recording headers and the Python log parsers are floating-point or I/O, outside the ICF.
